/** Append-only logs in which every entry carries the hash of its predecessor and of itself:
    the kernel's evidence ledger, the bridge's audit file and the worker's journal.
    `sha` is the digest of an entry's own content (previous link and body). */
module HashChain {
  import opened Common

  datatype Entry<+T> = Entry(previous: Option<string>, body: T, hash: string)

  /** The link the next entry will carry. */
  function Head<T>(genesis: Option<string>, log: seq<Entry<T>>): Option<string> {
    if log == [] then genesis else Some(log[|log| - 1].hash)
  }

  lemma HeadAt<T>(genesis: Option<string>, log: seq<Entry<T>>, i: nat)
    requires i < |log|
    ensures Head(genesis, log[..i + 1]) == Some(log[i].hash)
  {
    assert log[..i + 1][i] == log[i];
  }

  function Append<T>(sha: (Option<string>, T) -> string, genesis: Option<string>, log: seq<Entry<T>>, body: T):
    seq<Entry<T>>
  {
    log + [Entry(Head(genesis, log), body, sha(Head(genesis, log), body))]
  }

  predicate EntryOk<T>(sha: (Option<string>, T) -> string, genesis: Option<string>, log: seq<Entry<T>>, i: nat)
    requires i < |log|
  {
    log[i].previous == Head(genesis, log[..i]) && log[i].hash == sha(log[i].previous, log[i].body)
  }

  /** Every link and every hash checks. */
  ghost predicate Linked<T>(sha: (Option<string>, T) -> string, genesis: Option<string>, log: seq<Entry<T>>) {
    forall i :: 0 <= i < |log| ==> EntryOk(sha, genesis, log, i)
  }

  ghost predicate Injective<T(!new)>(sha: (Option<string>, T) -> string) {
    forall p, b, q, c {:trigger sha(p, b), sha(q, c)} :: sha(p, b) == sha(q, c) ==> p == q && b == c
  }

  /** No digest equals the link that stands for "no predecessor". */
  ghost predicate GenesisFresh<T(!new)>(sha: (Option<string>, T) -> string, genesis: Option<string>) {
    forall p, b {:trigger sha(p, b)} :: Some(sha(p, b)) != genesis
  }

  lemma LinkedPrefix<T>(sha: (Option<string>, T) -> string, genesis: Option<string>, log: seq<Entry<T>>, n: nat)
    requires Linked(sha, genesis, log) && n <= |log|
    ensures Linked(sha, genesis, log[..n])
  {
    forall i | 0 <= i < n ensures EntryOk(sha, genesis, log[..n], i) {
      assert log[..n][..i] == log[..i];
      assert EntryOk(sha, genesis, log, i);
    }
  }

  /** A log with one more entry, carrying whatever link, checks exactly when the log checked before and the link is
      its head. */
  lemma EntryLinked<T>(sha: (Option<string>, T) -> string, genesis: Option<string>, log: seq<Entry<T>>,
                       link: Option<string>, body: T)
    ensures Linked(sha, genesis, log + [Entry(link, body, sha(link, body))])
            <==> Linked(sha, genesis, log) && link == Head(genesis, log)
  {
    var more := log + [Entry(link, body, sha(link, body))];
    assert more[..|log|] == log;
    if Linked(sha, genesis, log) && link == Head(genesis, log) {
      forall i | 0 <= i < |more| ensures EntryOk(sha, genesis, more, i) {
        assert more[..i] == log[..i];
        if i < |log| { assert EntryOk(sha, genesis, log, i); }
      }
    }
    if Linked(sha, genesis, more) {
      assert EntryOk(sha, genesis, more, |log|);
      LinkedPrefix(sha, genesis, more, |log|);
    }
  }

  /** An appended log checks exactly when the log it extends checks. */
  lemma AppendLinked<T>(sha: (Option<string>, T) -> string, genesis: Option<string>, log: seq<Entry<T>>, body: T)
    ensures Linked(sha, genesis, Append(sha, genesis, log, body)) <==> Linked(sha, genesis, log)
  {
    EntryLinked(sha, genesis, log, Head(genesis, log), body);
  }

  /** Appending any number of bodies. */
  function AppendAll<T>(sha: (Option<string>, T) -> string, genesis: Option<string>, log: seq<Entry<T>>,
                        bodies: seq<T>): seq<Entry<T>>
    decreases |bodies|
  {
    if bodies == [] then log else AppendAll(sha, genesis, Append(sha, genesis, log, bodies[0]), bodies[1..])
  }

  /** Any number of appends keeps a log checking, keeps what was there, and records the bodies in order. */
  lemma {:induction false} AppendAllLinked<T>(sha: (Option<string>, T) -> string, genesis: Option<string>,
                                              log: seq<Entry<T>>, bodies: seq<T>)
    requires Linked(sha, genesis, log)
    ensures var r := AppendAll(sha, genesis, log, bodies);
            && Linked(sha, genesis, r)
            && log <= r
            && |r| == |log| + |bodies|
            && forall i :: 0 <= i < |bodies| ==> r[|log| + i].body == bodies[i]
    decreases |bodies|
  {
    if bodies == [] {
    } else {
      AppendLinked(sha, genesis, log, bodies[0]);
      var next := Append(sha, genesis, log, bodies[0]);
      AppendAllLinked(sha, genesis, next, bodies[1..]);
      var r := AppendAll(sha, genesis, log, bodies);
      assert next <= r;
      assert r[|log|] == next[|log|];
      forall i | 0 <= i < |bodies| ensures r[|log| + i].body == bodies[i] {
        if i > 0 { assert r[|next| + (i - 1)].body == bodies[1..][i - 1]; }
      }
    }
  }

  /** The head hash commits to the whole log: two logs that check and share a head are equal. */
  lemma {:induction false} SameHeadSameLog<T(!new)>(sha: (Option<string>, T) -> string, genesis: Option<string>,
                                              a: seq<Entry<T>>, b: seq<Entry<T>>)
    requires Injective(sha) && GenesisFresh(sha, genesis)
    requires Linked(sha, genesis, a) && Linked(sha, genesis, b)
    requires Head(genesis, a) == Head(genesis, b)
    ensures a == b
    decreases |a|
  {
    if a != [] {
      assert EntryOk(sha, genesis, a, |a| - 1);
    }
    if b != [] {
      assert EntryOk(sha, genesis, b, |b| - 1);
    }
    if a != [] && b != [] {
      LinkedPrefix(sha, genesis, a, |a| - 1);
      LinkedPrefix(sha, genesis, b, |b| - 1);
      SameHeadSameLog(sha, genesis, a[..|a| - 1], b[..|b| - 1]);
      assert a == a[..|a| - 1] + [a[|a| - 1]];
      assert b == b[..|b| - 1] + [b[|b| - 1]];
    }
  }
}
