/** Live routing of review candidates, and the revalidation that must precede any consequential action.

    Shas that are missing are the empty string. A sorted list of PR numbers is represented by its multiset,
    and the digest of the live PR list, being injective, by the list. */
module ReviewGate {
  import opened Common

  const CANONICAL_REPOSITORY := "12ephods-source/centinal26"
  const CANONICAL_BASE := "main"

  /** `details` stands for the remaining normalised fields (draft flag, reviewers, latest reviews). */
  datatype Pr = Pr(number: int, headSha: string, baseSha: string, state: string, merged: bool, details: string)

  datatype Live = Live(headSha: string, openPrs: seq<Pr>)

  datatype Observation = Observation(repository: string, base: string, mainSha: string, branches: map<string, Live>)

  datatype Row = Row(branch: string, state: string, headSha: string, openPrs: multiset<int>)

  datatype Snapshot = Snapshot(repository: string, base: string, baseSha: string, rows: seq<Row>)

  datatype Relevance = Relevant | NotRelevant | Unknown

  datatype Decision =
    | InvalidCanonicalIdentity | AmbiguousIdentity | NoDeepReview | PreserveOnly | NeedsBaseRefresh
    | NeedsIdentityRefresh | AmbiguousReview | NeedsReviewRefresh | DeferToExistingPr
    | NeedsReleaseRelevance | DeferNonRelease | DeepReviewEligible

  datatype Routed = Routed(branch: string, snapshotHead: Option<string>, liveHead: Option<string>,
                           snapshotBase: Option<string>, currentMain: Option<string>, state: string,
                           snapshotPrs: multiset<int>, livePrs: multiset<int>, reviewState: seq<Pr>,
                           relevance: Relevance, decision: Decision)

  const REVIEW_STATES: set<string> := {"UNREVIEWED_AHEAD_CANDIDATE", "AHEAD_AFTER_PRIOR_MERGE_REVIEW",
                                       "CLOSED_UNMERGED_REVIEW", "DIVERGED_REVIEW"}

  // ---- Shas ----

  /** What `str.strip` removes from ASCII text. */
  predicate IsSpace(c: char) {
    c == ' ' || '\t' <= c <= '\r' || 28 <= c as int <= 31
  }

  function StripLeft(s: string): string {
    if s != "" && IsSpace(s[0]) then StripLeft(s[1..]) else s
  }

  function StripRight(s: string): string {
    if s != "" && IsSpace(s[|s| - 1]) then StripRight(s[..|s| - 1]) else s
  }

  predicate IsHex(c: char) {
    '0' <= c <= '9' || 'a' <= c <= 'f' || 'A' <= c <= 'F'
  }

  function LowerHex(c: char): char {
    if 'A' <= c <= 'F' then ((c as int) - ('A' as int) + ('a' as int)) as char else c
  }

  /** `normalize_sha`: forty hexadecimal digits in lower case, or None. */
  function NormalizeSha(value: string): Option<string> {
    var t := StripRight(StripLeft(value));
    if |t| == 40 && forall i :: 0 <= i < |t| ==> IsHex(t[i])
    then Some(seq(|t|, i requires 0 <= i < |t| => LowerHex(t[i])))
    else None
  }

  // ---- Routing ----

  function PrNumbers(prs: seq<Pr>): multiset<int> {
    if prs == [] then multiset{} else PrNumbers(prs[..|prs| - 1]) + multiset{prs[|prs| - 1].number}
  }

  function Decide(row: Row, head: Option<string>, prs: seq<Pr>, relevance: Relevance, base: Option<string>,
                  main: Option<string>, conflict: bool, canonical: bool): Decision
  {
    var snapshotHead := NormalizeSha(row.headSha);
    if !canonical then InvalidCanonicalIdentity
    else if conflict then AmbiguousIdentity
    else if row.state == "SUBSUMED_OR_MERGED" then NoDeepReview
    else if row.state == "SUPERSEDED_PRESERVE_ONLY" then PreserveOnly
    else if main.None? || base.None? then NeedsBaseRefresh
    else if base != main then NeedsBaseRefresh
    else if snapshotHead.None? || head.None? then NeedsIdentityRefresh
    else if snapshotHead != head then NeedsIdentityRefresh
    else if |prs| > 1 then AmbiguousReview
    else if row.openPrs != PrNumbers(prs) then NeedsReviewRefresh
    else if prs != [] then
      if NormalizeSha(prs[0].headSha) != head then AmbiguousIdentity
      else if NormalizeSha(prs[0].baseSha) != main then NeedsBaseRefresh
      else if prs[0].state != "open" || prs[0].merged then NeedsReviewRefresh
      else DeferToExistingPr
    else if row.state !in REVIEW_STATES then AmbiguousReview
    else if relevance.Unknown? then NeedsReleaseRelevance
    else if relevance.NotRelevant? then DeferNonRelease
    else DeepReviewEligible
  }

  function LiveOf(o: Observation, branch: string): Live {
    if branch in o.branches then o.branches[branch] else Live("", [])
  }

  function RouteBranch(row: Row, live: Live, relevance: Relevance, baseSha: string, mainSha: string,
                       conflict: bool, canonical: bool): Routed
  {
    var head, base, main := NormalizeSha(live.headSha), NormalizeSha(baseSha), NormalizeSha(mainSha);
    Routed(row.branch, NormalizeSha(row.headSha), head, base, main, row.state, row.openPrs, PrNumbers(live.openPrs),
           live.openPrs, relevance, Decide(row, head, live.openPrs, relevance, base, main, conflict, canonical))
  }

  /** The part of a qualification row that routing depends on. */
  datatype Identity = Identity(branch: string, head: Option<string>, state: string, openPrs: multiset<int>)

  function IdentityOf(row: Row): Identity {
    Identity(row.branch, NormalizeSha(row.headSha), row.state, row.openPrs)
  }

  /** Two rows of the same named branch disagree on its identity. */
  predicate Conflicting(rows: seq<Row>, branch: string) {
    branch != "" && exists i, k :: 0 <= i < k < |rows| && rows[i].branch == branch && rows[k].branch == branch
                                   && IdentityOf(rows[i]) != IdentityOf(rows[k])
  }

  predicate CanonicalIdentity(s: Snapshot, o: Observation) {
    s.repository == CANONICAL_REPOSITORY && s.base == CANONICAL_BASE
    && o.repository == CANONICAL_REPOSITORY && o.base == CANONICAL_BASE
  }

  function RelevanceOf(relevance: map<string, Relevance>, branch: string): Relevance {
    if branch in relevance then relevance[branch] else Unknown
  }

  function RouteRow(s: Snapshot, o: Observation, relevance: map<string, Relevance>, i: nat): Routed
    requires i < |s.rows|
  {
    var row := s.rows[i];
    RouteBranch(row, LiveOf(o, row.branch), RelevanceOf(relevance, row.branch), s.baseSha, o.mainSha,
                Conflicting(s.rows, row.branch), CanonicalIdentity(s, o))
  }

  function RouteSnapshot(s: Snapshot, o: Observation, relevance: map<string, Relevance>): seq<Routed> {
    seq(|s.rows|, i requires 0 <= i < |s.rows| => RouteRow(s, o, relevance, i))
  }

  function Count(rows: seq<Routed>, d: Decision): nat {
    if rows == [] then 0 else Count(rows[..|rows| - 1], d) + if rows[|rows| - 1].decision == d then 1 else 0
  }

  /** `_identity_conflicts`: the first identity seen of each branch, and the branches that later disagreed. */
  method IdentityConflicts(rows: seq<Row>) returns (conflicts: set<string>)
    ensures forall b :: b in conflicts <==> Conflicting(rows, b)
  {
    var identities: map<string, set<Identity>> := map[];
    for n := 0 to |rows|
      invariant forall b :: b in identities <==> b != "" && exists i :: 0 <= i < n && rows[i].branch == b
      invariant forall b :: b in identities ==>
                  forall x :: x in identities[b] <==>
                    exists i :: 0 <= i < n && rows[i].branch == b && IdentityOf(rows[i]) == x
    {
      var b := rows[n].branch;
      if b != "" {
        var before := if b in identities then identities[b] else {};
        identities := identities[b := before + {IdentityOf(rows[n])}];
      }
    }
    conflicts := set b | b in identities && |identities[b]| > 1;
    forall b ensures b in conflicts <==> Conflicting(rows, b) {
      if b in identities { ManyIdentities(rows, b, identities[b]); }
    }
  }

  lemma ManyIdentities(rows: seq<Row>, b: string, xs: set<Identity>)
    requires b != ""
    requires forall x :: x in xs <==> exists i :: 0 <= i < |rows| && rows[i].branch == b && IdentityOf(rows[i]) == x
    ensures |xs| > 1 <==> Conflicting(rows, b)
  {
    if |xs| > 1 {
      var x :| x in xs;
      assert |xs - {x}| > 0;
      var y :| y in xs - {x};
      var i :| 0 <= i < |rows| && rows[i].branch == b && IdentityOf(rows[i]) == x;
      var k :| 0 <= k < |rows| && rows[k].branch == b && IdentityOf(rows[k]) == y;
      assert i < k || k < i;
    }
    if Conflicting(rows, b) {
      var i, k :| 0 <= i < k < |rows| && rows[i].branch == b && rows[k].branch == b
          && IdentityOf(rows[i]) != IdentityOf(rows[k]);
      var x, y := IdentityOf(rows[i]), IdentityOf(rows[k]);
      assert x in xs && y in xs;
      assert |xs - {x}| > 0 by { assert y in xs - {x}; }
    }
  }

  /** A candidate is eligible for deep review exactly when every gate is open: the identity is canonical and
      unambiguous, the state asks for review, base and head are fresh, no pull request is or was open, and there
      is explicit evidence that it matters for the release. */
  lemma EligibleIff(s: Snapshot, o: Observation, relevance: map<string, Relevance>, i: nat)
    requires i < |s.rows|
    ensures var row := s.rows[i];
            var live := LiveOf(o, row.branch);
            RouteSnapshot(s, o, relevance)[i].decision.DeepReviewEligible? <==>
              && CanonicalIdentity(s, o) && !Conflicting(s.rows, row.branch) && row.state in REVIEW_STATES
              && NormalizeSha(s.baseSha).Some? && NormalizeSha(s.baseSha) == NormalizeSha(o.mainSha)
              && NormalizeSha(row.headSha).Some? && NormalizeSha(row.headSha) == NormalizeSha(live.headSha)
              && live.openPrs == [] && row.openPrs == multiset{}
              && RelevanceOf(relevance, row.branch).Relevant?
  {
    assert RouteSnapshot(s, o, relevance)[i] == RouteRow(s, o, relevance, i);
    assert PrNumbers([]) == multiset{};
  }

  // ---- Revalidation ----

  predicate IsCanonical(o: Observation) {
    o.repository == CANONICAL_REPOSITORY && o.base == CANONICAL_BASE
  }

  predicate SameBranch(a: Live, b: Live) {
    NormalizeSha(a.headSha) == NormalizeSha(b.headSha) && a.openPrs == b.openPrs
  }

  /** Revalidation reports no mismatch. */
  predicate Match(a: Observation, b: Observation) {
    && IsCanonical(a) && IsCanonical(b)
    && NormalizeSha(a.mainSha) == NormalizeSha(b.mainSha)
    && a.branches.Keys == b.branches.Keys
    && forall x :: x in a.branches && x in b.branches ==> SameBranch(a.branches[x], b.branches[x])
  }

  datatype Mismatch = Repository | Base | MainSha | BranchSet | Head(branch: string) | ReviewState(branch: string)

  /** `revalidate_observation`. */
  method Revalidate(expected: Observation, current: Observation) returns (mismatches: seq<Mismatch>)
    ensures mismatches == [] <==> Match(expected, current)
  {
    mismatches := [];
    if expected.repository != CANONICAL_REPOSITORY || current.repository != CANONICAL_REPOSITORY {
      mismatches := mismatches + [Repository];
    }
    if expected.base != CANONICAL_BASE || current.base != CANONICAL_BASE { mismatches := mismatches + [Base]; }
    if NormalizeSha(expected.mainSha) != NormalizeSha(current.mainSha) { mismatches := mismatches + [MainSha]; }
    if expected.branches.Keys != current.branches.Keys { mismatches := mismatches + [BranchSet]; }
    ghost var clean := mismatches == [];
    var shared := expected.branches.Keys * current.branches.Keys;
    var todo := shared;
    while todo != {}
      invariant todo <= shared
      invariant mismatches == []
                <==> clean && forall x :: x in shared - todo ==> SameBranch(expected.branches[x], current.branches[x])
    {
      var x :| x in todo;
      var before, after := expected.branches[x], current.branches[x];
      if NormalizeSha(before.headSha) != NormalizeSha(after.headSha) { mismatches := mismatches + [Head(x)]; }
      if before.openPrs != after.openPrs { mismatches := mismatches + [ReviewState(x)]; }
      assert shared - (todo - {x}) == (shared - todo) + {x};
      todo := todo - {x};
    }
    assert shared - todo == shared;
  }

  /** What routing can see of an observation. */
  ghost predicate SameView(a: Observation, b: Observation) {
    NormalizeSha(a.mainSha) == NormalizeSha(b.mainSha) && forall x :: SameBranch(LiveOf(a, x), LiveOf(b, x))
  }

  ghost predicate RoutesAlike(a: Observation, b: Observation) {
    forall s, r :: RouteSnapshot(s, a, r) == RouteSnapshot(s, b, r)
  }

  lemma SameViewRoutesAlike(a: Observation, b: Observation, s: Snapshot, r: map<string, Relevance>)
    requires IsCanonical(a) && IsCanonical(b) && SameView(a, b)
    ensures RouteSnapshot(s, a, r) == RouteSnapshot(s, b, r)
  {
    var p, q := RouteSnapshot(s, a, r), RouteSnapshot(s, b, r);
    assert |p| == |s.rows| && |q| == |s.rows|;
    forall i | 0 <= i < |s.rows| ensures p[i] == q[i] {
      assert SameBranch(LiveOf(a, s.rows[i].branch), LiveOf(b, s.rows[i].branch));
    }
  }

  /** A snapshot of one row shows the main sha and everything routing sees of that branch. */
  lemma ProbeBranch(a: Observation, b: Observation, x: string)
    requires RoutesAlike(a, b)
    ensures NormalizeSha(a.mainSha) == NormalizeSha(b.mainSha) && SameBranch(LiveOf(a, x), LiveOf(b, x))
  {
    var s := Snapshot("", "", "", [Row(x, "", "", multiset{})]);
    assert RouteSnapshot(s, a, map[]) == RouteSnapshot(s, b, map[]);
    assert RouteSnapshot(s, a, map[])[0] == RouteRow(s, a, map[], 0);
    assert RouteSnapshot(s, b, map[])[0] == RouteRow(s, b, map[], 0);
  }

  /** Canonical observations route every snapshot alike exactly when routing sees the same in both. */
  lemma RoutesAlikeIff(a: Observation, b: Observation)
    requires IsCanonical(a) && IsCanonical(b)
    ensures RoutesAlike(a, b) <==> SameView(a, b)
  {
    if SameView(a, b) {
      forall s, r ensures RouteSnapshot(s, a, r) == RouteSnapshot(s, b, r) { SameViewRoutesAlike(a, b, s, r); }
    }
    if RoutesAlike(a, b) {
      ProbeBranch(a, b, "");
      forall x ensures SameBranch(LiveOf(a, x), LiveOf(b, x)) { ProbeBranch(a, b, x); }
    }
  }

  /** Matching observations yield identical rows, hence identical decision counts, for every snapshot and every
      relevance map. Among canonical observations of the same branches, matching is exactly routing alike. */
  lemma MatchIsCongruence(a: Observation, b: Observation)
    ensures Match(a, b) ==> RoutesAlike(a, b)
    ensures IsCanonical(a) && IsCanonical(b) && a.branches.Keys == b.branches.Keys
            ==> (Match(a, b) <==> RoutesAlike(a, b))
  {
    if IsCanonical(a) && IsCanonical(b) && a.branches.Keys == b.branches.Keys {
      RoutesAlikeIff(a, b);
      if SameView(a, b) {
        forall x | x in a.branches && x in b.branches ensures SameBranch(a.branches[x], b.branches[x]) {
          assert SameBranch(LiveOf(a, x), LiveOf(b, x));
        }
      }
    }
  }

  lemma SameCounts(a: Observation, b: Observation, s: Snapshot, r: map<string, Relevance>, d: Decision)
    requires Match(a, b)
    ensures Count(RouteSnapshot(s, a, r), d) == Count(RouteSnapshot(s, b, r), d)
  {
    MatchIsCongruence(a, b);
  }

  /** Matching is symmetric and transitive, and reflexive exactly on canonical observations. */
  lemma MatchIsPartialEquivalence(a: Observation, b: Observation, c: Observation)
    ensures Match(a, b) <==> Match(b, a)
    ensures Match(a, b) && Match(b, c) ==> Match(a, c)
    ensures Match(a, a) <==> IsCanonical(a)
  {
    if Match(a, b) && Match(b, c) {
      forall x | x in a.branches && x in c.branches ensures SameBranch(a.branches[x], c.branches[x]) {
        assert x in b.branches;
        assert SameBranch(a.branches[x], b.branches[x]) && SameBranch(b.branches[x], c.branches[x]);
      }
    }
    if Match(b, a) {
      forall x | x in a.branches && x in b.branches ensures SameBranch(a.branches[x], b.branches[x]) {
        assert SameBranch(b.branches[x], a.branches[x]);
      }
    }
    if Match(a, b) {
      forall x | x in a.branches && x in b.branches ensures SameBranch(b.branches[x], a.branches[x]) {
        assert SameBranch(a.branches[x], b.branches[x]);
      }
    }
  }
}
