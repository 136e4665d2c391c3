/** Any number of processes around one grants table and one audit file. A grant is issued or used up in one
    transaction; the audit entry for it is written later, in two steps: the last hash is read, and the entry is
    appended. Other processes may act in between, and a process may stop at any point. */
module GrantRuns {
  import opened Common
  import opened HashChain
  import opened GrantBridge

  /** Due: the entry is owed. Linking: the last hash has been read. Cleared: free to submit. */
  datatype Process =
    | Outside
    | Due(event: AuditEvent)
    | Linking(event: AuditEvent, link: Option<string>)
    | Cleared(capability: string)

  datatype Use = Use(digest: string, capability: string, at: int)

  type Log = seq<Entry<AuditEvent>>

  type Sha = (Option<string>, AuditEvent) -> string

  /** `uses` and `submissions` are history. */
  datatype System = System(grants: Grants, log: Log, processes: map<string, Process>, uses: seq<Use>,
                           submissions: seq<string>)

  datatype Config = Config(auto: set<string>, sha: Sha)

  datatype Step =
    | DoIssue(p: string, available: set<string>, capability: string, ttl: int, digest: string, now: int)
    | DoConsume(p: string, capability: string, digest: string, now: int)
    | DoAuto(p: string, capability: string)
    | DoRead(p: string)
    | DoAppend(p: string)
    | DoSubmit(p: string)
    | DoStop(p: string)

  function ProcessOf(s: System, p: string): Process {
    if p in s.processes then s.processes[p] else Outside
  }

  predicate Enabled(c: Config, s: System, step: Step) {
    var q := ProcessOf(s, step.p);
    match step
    case DoIssue(_, _, _, _, digest, _) => q.Outside? && digest !in s.grants
    case DoConsume(_, capability, _, _) => q.Outside? && capability !in c.auto
    case DoAuto(_, capability) => q.Outside? && capability in c.auto
    case DoRead(_) => q.Due?
    case DoAppend(_) => q.Linking?
    case DoSubmit(_) => q.Cleared?
    case DoStop(_) => true
  }

  function SetProcess(s: System, p: string, q: Process): System {
    s.(processes := s.processes[p := q])
  }

  /** Issuing ends with its entry; a used grant clears its process for submission. */
  function Audited(e: AuditEvent): Process {
    match e
    case Issued(_, _, _) => Outside
    case Consumed(capability, _) => Cleared(capability)
  }

  function Apply(c: Config, s: System, step: Step): System
    requires Enabled(c, s, step)
  {
    var q := ProcessOf(s, step.p);
    match step
    case DoIssue(p, available, capability, ttl, digest, now) =>
      (match IssueGrant(s.grants, available, capability, ttl, digest, now)
       case Ok(g) => SetProcess(s.(grants := g), p, Due(Issued(capability, digest, now + ttl)))
       case Err(_) => s)
    case DoConsume(p, capability, digest, now) =>
      (match ConsumeGrant(s.grants, capability, digest, now)
       case Ok(g) => SetProcess(s.(grants := g, uses := s.uses + [Use(digest, capability, now)]), p,
                                Due(Consumed(capability, digest)))
       case Err(_) => s)
    case DoAuto(p, capability) => SetProcess(s, p, Cleared(capability))
    case DoRead(p) => SetProcess(s, p, Linking(q.event, Head(AUDIT_GENESIS, s.log)))
    case DoAppend(p) =>
      SetProcess(s.(log := s.log + [Entry(q.link, q.event, c.sha(q.link, q.event))]), p, Audited(q.event))
    case DoSubmit(p) => SetProcess(s.(submissions := s.submissions + [q.capability]), p, Outside)
    case DoStop(p) => SetProcess(s, p, Outside)
  }

  ghost predicate IsRun(c: Config, states: seq<System>, steps: seq<Step>) {
    && |states| == |steps| + 1
    && states[0] == System(map[], [], map[], [], [])
    && forall i :: 0 <= i < |steps| ==>
         Enabled(c, states[i], steps[i]) && states[i + 1] == Apply(c, states[i], steps[i])
  }

  // ---- Accounting ----

  function ClearedFor(m: map<string, Process>, capability: string): set<string> {
    set p | p in m && m[p] == Cleared(capability)
  }

  predicate Owes(q: Process, capability: string) {
    (q.Due? || q.Linking?) && q.event.Consumed? && q.event.capability == capability
  }

  /** The processes that have used up a grant and not yet recorded it. */
  function OwingFor(m: map<string, Process>, capability: string): set<string> {
    set p | p in m && Owes(m[p], capability)
  }

  function UsesFor(uses: seq<Use>, capability: string): nat {
    if uses == [] then 0
    else UsesFor(uses[..|uses| - 1], capability) + if uses[|uses| - 1].capability == capability then 1 else 0
  }

  predicate RecordsUse(e: AuditEvent, capability: string) {
    e.Consumed? && e.capability == capability
  }

  /** The audit entries about used grants of this capability. */
  function Recorded(log: Log, capability: string): nat {
    if log == [] then 0
    else Recorded(log[..|log| - 1], capability) + if RecordsUse(log[|log| - 1].body, capability) then 1 else 0
  }

  /** u is recorded in its own grant, and happened before that grant expired. */
  predicate RecordedUse(g: Grants, u: Use) {
    && u.digest in g && g[u.digest].capability == u.capability && g[u.digest].usedAt == Some(u.at)
    && u.at < g[u.digest].expiresAt
  }

  /** Each use is of a distinct grant of that capability, recorded in the grant, before its expiry. */
  predicate UsesRecorded(s: System) {
    && (forall i, k :: 0 <= i < k < |s.uses| ==> s.uses[i].digest != s.uses[k].digest)
    && (forall u :: u in s.uses ==> RecordedUse(s.grants, u))
    && (forall d :: d in s.grants && s.grants[d].usedAt.Some? ==> exists u :: u in s.uses && u.digest == d)
  }

  /** What has been submitted or cleared has its audit entry; what is in the audit or owed to it has its use. */
  predicate Covered(s: System, capability: string) {
    && Submitted(s.submissions, capability) + |ClearedFor(s.processes, capability)| <= Recorded(s.log, capability)
    && Recorded(s.log, capability) + |OwingFor(s.processes, capability)| <= UsesFor(s.uses, capability)
  }

  ghost predicate Inv(c: Config, s: System) {
    UsesRecorded(s) && forall capability :: capability !in c.auto ==> Covered(s, capability)
  }

  /** One if the condition holds. */
  function Unit(b: bool): nat {
    if b then 1 else 0
  }

  /** a, with p made a member or not. */
  function Placed(a: set<string>, p: string, member: bool): set<string> {
    if member then a - {p} + {p} else a - {p}
  }

  lemma PlacedCount(a: set<string>, p: string, member: bool)
    ensures |Placed(a, p, member)| + Unit(p in a) == |a| + Unit(member)
  {
    if p !in a { assert a - {p} == a; }
  }

  lemma ClearedPlaced(m: map<string, Process>, p: string, q: Process, capability: string)
    ensures ClearedFor(m[p := q], capability) == Placed(ClearedFor(m, capability), p, q == Cleared(capability))
  {
  }

  lemma OwingPlaced(m: map<string, Process>, p: string, q: Process, capability: string)
    ensures OwingFor(m[p := q], capability) == Placed(OwingFor(m, capability), p, Owes(q, capability))
  {
  }

  lemma ProcessCounts(m: map<string, Process>, p: string, q: Process, capability: string)
    ensures |ClearedFor(m[p := q], capability)| + Unit(p in m && m[p] == Cleared(capability))
            == |ClearedFor(m, capability)| + Unit(q == Cleared(capability))
    ensures |OwingFor(m[p := q], capability)| + Unit(p in m && Owes(m[p], capability))
            == |OwingFor(m, capability)| + Unit(Owes(q, capability))
  {
    ClearedPlaced(m, p, q, capability);
    PlacedCount(ClearedFor(m, capability), p, q == Cleared(capability));
    OwingPlaced(m, p, q, capability);
    PlacedCount(OwingFor(m, capability), p, Owes(q, capability));
  }

  lemma UsesSnoc(uses: seq<Use>, u: Use, capability: string)
    ensures UsesFor(uses + [u], capability) == UsesFor(uses, capability) + if u.capability == capability then 1 else 0
  {
    assert (uses + [u])[..|uses|] == uses;
  }

  lemma RecordedSnoc(log: Log, e: Entry<AuditEvent>, capability: string)
    ensures Recorded(log + [e], capability)
            == Recorded(log, capability) + if RecordsUse(e.body, capability) then 1 else 0
  {
    assert (log + [e])[..|log|] == log;
  }

  lemma ConsumeRecorded(s: System, capability: string, digest: string, now: int, s': System)
    requires UsesRecorded(s) && ConsumeGrant(s.grants, capability, digest, now) == Ok(s'.grants)
    requires s'.uses == s.uses + [Use(digest, capability, now)]
    ensures UsesRecorded(s')
  {
    forall u | u in s.uses ensures u.digest != digest { assert RecordedUse(s.grants, u); }
    forall d | d in s'.grants && s'.grants[d].usedAt.Some? ensures exists u :: u in s'.uses && u.digest == d {
      if d == digest {
        assert s'.uses[|s.uses|].digest == d;
      } else {
        var u :| u in s.uses && u.digest == d;
        assert u in s'.uses;
      }
    }
  }

  lemma RecordedStep(c: Config, s: System, step: Step)
    requires UsesRecorded(s) && Enabled(c, s, step)
    ensures UsesRecorded(Apply(c, s, step))
  {
    if step.DoConsume? && ConsumeGrant(s.grants, step.capability, step.digest, step.now).Ok? {
      ConsumeRecorded(s, step.capability, step.digest, step.now, Apply(c, s, step));
    }
  }

  lemma CoveredStep(c: Config, s: System, step: Step, capability: string)
    requires Covered(s, capability) && capability !in c.auto && Enabled(c, s, step)
    ensures Covered(Apply(c, s, step), capability)
  {
    var s' := Apply(c, s, step);
    ProcessCounts(s.processes, step.p, ProcessOf(s', step.p), capability);
    if step.DoConsume? { UsesSnoc(s.uses, Use(step.digest, step.capability, step.now), capability); }
    if step.DoAppend? { RecordedSnoc(s.log, s'.log[|s.log|], capability); }
  }

  lemma {:induction false} RunInv(c: Config, states: seq<System>, steps: seq<Step>, n: nat)
    requires IsRun(c, states, steps) && n <= |steps|
    ensures Inv(c, states[n])
  {
    if n == 0 {
      assert forall x :: ClearedFor(states[0].processes, x) == {} && OwingFor(states[0].processes, x) == {};
    } else {
      RunInv(c, states, steps, n - 1);
      RecordedStep(c, states[n - 1], steps[n - 1]);
      forall x | x !in c.auto ensures Covered(states[n], x) { CoveredStep(c, states[n - 1], steps[n - 1], x); }
    }
  }

  function DigestsFor(uses: seq<Use>, capability: string): set<string> {
    set u | u in uses && u.capability == capability :: u.digest
  }

  lemma DigestsSnoc(uses: seq<Use>, u: Use, capability: string)
    ensures DigestsFor(uses + [u], capability)
            == DigestsFor(uses, capability) + if u.capability == capability then {u.digest} else {}
  {
  }

  lemma {:induction false} UsesAreGrants(uses: seq<Use>, capability: string)
    requires forall i, k :: 0 <= i < k < |uses| ==> uses[i].digest != uses[k].digest
    ensures UsesFor(uses, capability) == |DigestsFor(uses, capability)|
  {
    if uses == [] {
    } else {
      var before, u := uses[..|uses| - 1], uses[|uses| - 1];
      assert uses == before + [u];
      UsesAreGrants(before, capability);
      DigestsSnoc(before, u, capability);
      assert u.digest !in DigestsFor(before, capability);
    }
  }

  /** In every interleaving, submissions of a capability that is not automatic never exceed the audit entries about
      used grants of it, and those never exceed the grants that have been used; every grant is used at most once, for
      its own capability, before its expiry. */
  lemma SubmissionsBounded(c: Config, states: seq<System>, steps: seq<Step>, n: nat, capability: string)
    requires IsRun(c, states, steps) && n <= |steps| && capability !in c.auto
    ensures Submitted(states[n].submissions, capability) <= Recorded(states[n].log, capability)
    ensures Recorded(states[n].log, capability) <= |UsedGrants(states[n].grants, capability)|
    ensures UsesRecorded(states[n])
  {
    RunInv(c, states, steps, n);
    var s := states[n];
    assert Covered(s, capability);
    UsesAreGrants(s.uses, capability);
    assert DigestsFor(s.uses, capability) == UsedGrants(s.grants, capability);
  }

  // ---- When the audit file still checks ----

  /** Step k appends an entry whose link was read at step i, and step j appended another entry in between. */
  predicate Overtaken(steps: seq<Step>, i: int, j: int, k: int) {
    && 0 <= i < j < k < |steps|
    && steps[i].DoRead? && steps[j].DoAppend? && steps[k].DoAppend? && steps[k].p == steps[i].p
    && forall x :: i < x < k ==> steps[x].p != steps[i].p
  }

  ghost predicate NeverOvertaken(steps: seq<Step>, n: nat) {
    forall i, j, k :: k < n ==> !Overtaken(steps, i, j, k)
  }

  ghost predicate GoodSha(sha: Sha) {
    Injective(sha) && GenesisFresh(sha, AUDIT_GENESIS)
  }

  /** The step at which a process read the hash it still holds. */
  lemma {:induction false} ReadPoint(c: Config, states: seq<System>, steps: seq<Step>, n: nat, p: string)
    returns (i: nat)
    requires IsRun(c, states, steps) && n <= |steps| && ProcessOf(states[n], p).Linking?
    ensures i < n && steps[i] == DoRead(p) && forall x :: i < x < n ==> steps[x].p != p
    ensures ProcessOf(states[n], p).link == Head(AUDIT_GENESIS, states[i].log)
  {
    if steps[n - 1].p == p {
      i := n - 1;
    } else {
      i := ReadPoint(c, states, steps, n - 1, p);
    }
  }

  /** The file only grows, and grows exactly by the appends. */
  lemma {:induction false} LogGrows(c: Config, states: seq<System>, steps: seq<Step>, i: nat, n: nat)
    requires IsRun(c, states, steps) && i <= n <= |steps|
    ensures states[i].log <= states[n].log
    ensures states[i].log == states[n].log <==> forall j :: i <= j < n ==> !steps[j].DoAppend?
  {
    if i == n {
    } else {
      LogGrows(c, states, steps, i, n - 1);
      assert steps[n - 1].DoAppend? <==> |states[n].log| > |states[n - 1].log|;
    }
  }

  /** A hash read before another append is no longer the head. */
  lemma StaleLink(sha: Sha, before: Log, after: Log)
    requires GoodSha(sha) && Linked(sha, AUDIT_GENESIS, after) && before <= after && before != after
    ensures Head(AUDIT_GENESIS, before) != Head(AUDIT_GENESIS, after)
  {
    assert after[..|before|] == before;
    LinkedPrefix(sha, AUDIT_GENESIS, after, |before|);
    if Head(AUDIT_GENESIS, before) == Head(AUDIT_GENESIS, after) {
      SameHeadSameLog(sha, AUDIT_GENESIS, before, after);
    }
  }

  /** The append at step k, whose link was read at step i, is overtaken exactly by an append in between. */
  lemma LastAppend(steps: seq<Step>, i: nat, k: nat)
    requires i < k < |steps| && steps[i].DoRead? && steps[k] == DoAppend(steps[i].p)
    requires forall x :: i < x < k ==> steps[x].p != steps[i].p
    ensures NeverOvertaken(steps, k + 1)
            <==> NeverOvertaken(steps, k) && forall j :: i < j < k ==> !steps[j].DoAppend?
  {
    if j :| i < j < k && steps[j].DoAppend? { assert Overtaken(steps, i, j, k); }
    forall a, b, x | x < k + 1 && Overtaken(steps, a, b, x)
      ensures x < k || (a == i && i < b < k && steps[b].DoAppend?)
    {
    }
  }

  lemma AppendStep(c: Config, states: seq<System>, steps: seq<Step>, n: nat)
    requires IsRun(c, states, steps) && 0 < n <= |steps| && steps[n - 1].DoAppend?
    ensures Linked(c.sha, AUDIT_GENESIS, states[n].log) ==> Linked(c.sha, AUDIT_GENESIS, states[n - 1].log)
    ensures Linked(c.sha, AUDIT_GENESIS, states[n - 1].log) && NeverOvertaken(steps, n)
            ==> Linked(c.sha, AUDIT_GENESIS, states[n].log)
    ensures GoodSha(c.sha) && Linked(c.sha, AUDIT_GENESIS, states[n].log) && NeverOvertaken(steps, n - 1)
            ==> NeverOvertaken(steps, n)
  {
    var p, s := steps[n - 1].p, states[n - 1];
    var q := ProcessOf(s, p);
    var i := ReadPoint(c, states, steps, n - 1, p);
    EntryLinked(c.sha, AUDIT_GENESIS, s.log, q.link, q.event);
    LogGrows(c, states, steps, i, n - 1);
    LastAppend(steps, i, n - 1);
    if GoodSha(c.sha) && Linked(c.sha, AUDIT_GENESIS, states[n].log) && states[i].log != s.log {
      StaleLink(c.sha, states[i].log, s.log);
    }
  }

  lemma QuietStep(c: Config, states: seq<System>, steps: seq<Step>, n: nat)
    requires IsRun(c, states, steps) && 0 < n <= |steps| && !steps[n - 1].DoAppend?
    ensures states[n].log == states[n - 1].log
    ensures NeverOvertaken(steps, n - 1) ==> NeverOvertaken(steps, n)
  {
  }

  lemma {:induction false} UndisturbedIntact(c: Config, states: seq<System>, steps: seq<Step>, n: nat)
    requires IsRun(c, states, steps) && n <= |steps| && NeverOvertaken(steps, n)
    ensures Linked(c.sha, AUDIT_GENESIS, states[n].log)
  {
    if n == 0 {
    } else {
      UndisturbedIntact(c, states, steps, n - 1);
      if steps[n - 1].DoAppend? { AppendStep(c, states, steps, n); } else { QuietStep(c, states, steps, n); }
    }
  }

  lemma {:induction false} IntactUndisturbed(c: Config, states: seq<System>, steps: seq<Step>, n: nat)
    requires IsRun(c, states, steps) && n <= |steps| && GoodSha(c.sha)
    requires Linked(c.sha, AUDIT_GENESIS, states[n].log)
    ensures NeverOvertaken(steps, n)
  {
    if n == 0 {
    } else {
      if steps[n - 1].DoAppend? { AppendStep(c, states, steps, n); } else { QuietStep(c, states, steps, n); }
      IntactUndisturbed(c, states, steps, n - 1);
    }
  }

  /** In every interleaving, the audit file checks exactly when no entry was appended between another entry's
      reading of the last hash and its appending. That undisturbed appends keep it checking needs nothing of the
      digest. */
  lemma AuditIntactIff(c: Config, states: seq<System>, steps: seq<Step>, n: nat)
    requires IsRun(c, states, steps) && n <= |steps|
    ensures NeverOvertaken(steps, n) ==> Linked(c.sha, AUDIT_GENESIS, states[n].log)
    ensures GoodSha(c.sha) && Linked(c.sha, AUDIT_GENESIS, states[n].log) ==> NeverOvertaken(steps, n)
  {
    if NeverOvertaken(steps, n) { UndisturbedIntact(c, states, steps, n); }
    if GoodSha(c.sha) && Linked(c.sha, AUDIT_GENESIS, states[n].log) { IntactUndisturbed(c, states, steps, n); }
  }

  /** Two processes are enough: both issue a grant, both read the last hash, both append. */
  lemma ChainBreaks(c: Config) returns (states: seq<System>, steps: seq<Step>)
    requires GoodSha(c.sha)
    ensures IsRun(c, states, steps) && |steps| == 6
    ensures !Linked(c.sha, AUDIT_GENESIS, states[6].log)
  {
    steps := [DoIssue("p", {"c"}, "c", 60, "d", 0), DoIssue("q", {"c"}, "c", 60, "e", 0),
              DoRead("p"), DoRead("q"), DoAppend("p"), DoAppend("q")];
    var s0 := System(map[], [], map[], [], []);
    var s1 := Apply(c, s0, steps[0]);
    var s2 := Apply(c, s1, steps[1]);
    var s3 := Apply(c, s2, steps[2]);
    var s4 := Apply(c, s3, steps[3]);
    var s5 := Apply(c, s4, steps[4]);
    states := [s0, s1, s2, s3, s4, s5, Apply(c, s5, steps[5])];
    assert Overtaken(steps, 3, 4, 5);
    AuditIntactIff(c, states, steps, 6);
  }
}
