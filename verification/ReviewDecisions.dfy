/** What each of the twelve routing decisions means for the snapshot and the live state, and what counts as a sha. */
module ReviewDecisions {
  import opened Common
  import opened ReviewGate

  // ---- Shas ----

  /** ASCII white space only: code points 9 to 13 and 28 to 32. */
  predicate Blank(s: string) {
    forall i :: 0 <= i < |s| ==> 9 <= s[i] as int <= 13 || 28 <= s[i] as int <= 32
  }

  /** h is the small form of the hexadecimal digit m. */
  predicate SameDigit(m: char, h: char) {
    || ('0' <= h <= '9' && m == h)
    || ('a' <= h <= 'f' && (m == h || (m < 'a' && h as int - 'a' as int == m as int - 'A' as int)))
  }

  predicate Forty(m: string, h: string) {
    |m| == 40 && |h| == 40 && forall i :: 0 <= i < 40 ==> SameDigit(m[i], h[i])
  }

  ghost predicate Spells(value: string, h: string) {
    exists left, m, right :: value == left + m + right && Blank(left) && Blank(right) && Forty(m, h)
  }

  lemma OneBlankMore(s: string, c: char)
    requires Blank(s) && IsSpace(c)
    ensures Blank(s + [c])
  {
  }

  lemma {:induction false} LeftStripped(s: string) returns (left: string)
    ensures s == left + StripLeft(s) && Blank(left)
    ensures StripLeft(s) != "" ==> !IsSpace(StripLeft(s)[0])
  {
    if s != "" && IsSpace(s[0]) {
      var rest := LeftStripped(s[1..]);
      left := [s[0]] + rest;
      assert s == [s[0]] + s[1..];
    } else {
      left := "";
    }
  }

  lemma {:induction false} RightStripped(s: string) returns (right: string)
    ensures s == StripRight(s) + right && Blank(right)
    ensures StripRight(s) != "" ==> !IsSpace(StripRight(s)[|StripRight(s)| - 1])
  {
    var n := |s| - 1;
    if s != "" && IsSpace(s[n]) {
      var rest := RightStripped(s[..n]);
      right := rest + [s[n]];
      assert Blank(right) by { OneBlankMore(rest, s[n]); }
      assert StripRight(s) == StripRight(s[..n]);
      assert s == s[..n] + [s[n]];
    } else {
      right := "";
    }
  }

  lemma {:induction false} StripsLeft(left: string, t: string)
    requires Blank(left) && t != "" && !IsSpace(t[0])
    ensures StripLeft(left + t) == t
  {
    if left == "" {
      assert left + t == t;
    } else {
      assert (left + t)[1..] == left[1..] + t;
      StripsLeft(left[1..], t);
    }
  }

  lemma {:induction false} StripsRight(t: string, right: string)
    requires Blank(right) && t != "" && !IsSpace(t[|t| - 1])
    ensures StripRight(t + right) == t
  {
    if right == "" {
      assert t + right == t;
    } else {
      var n := |right| - 1;
      assert (t + right)[..|t + right| - 1] == t + right[..n];
      StripsRight(t, right[..n]);
    }
  }

  lemma SmallForm(m: string, h: string)
    requires |m| == 40
    ensures Forty(m, h) <==> (forall i :: 0 <= i < |m| ==> IsHex(m[i]))
                             && h == seq(|m|, i requires 0 <= i < |m| => LowerHex(m[i]))
  {
    var low := seq(|m|, i requires 0 <= i < |m| => LowerHex(m[i]));
    if Forty(m, h) {
      forall i | 0 <= i < |m| ensures IsHex(m[i]) && h[i] == low[i] { assert SameDigit(m[i], h[i]); }
      assert h == low;
    }
    if (forall i :: 0 <= i < |m| ==> IsHex(m[i])) && h == low {
      forall i | 0 <= i < 40 ensures SameDigit(m[i], h[i]) { assert IsHex(m[i]); }
    }
  }

  lemma TrimmedSpelling(value: string, h: string)
    requires NormalizeSha(value) == Some(h)
    ensures Spells(value, h)
  {
    var left := LeftStripped(value);
    var right := RightStripped(StripLeft(value));
    var m := StripRight(StripLeft(value));
    assert value == left + m + right;
    SmallForm(m, h);
  }

  lemma SpellingTrims(left: string, m: string, right: string, h: string)
    requires Blank(left) && Blank(right) && Forty(m, h)
    ensures NormalizeSha(left + m + right) == Some(h)
  {
    SmallForm(m, h);
    assert IsHex(m[0]) && IsHex(m[39]);
    assert left + m + right == left + (m + right);
    StripsLeft(left, m + right);
    StripsRight(m, right);
  }

  /** A text is a sha exactly when, spaces around it apart, it is forty hexadecimal digits; two texts are the same sha
      exactly when those digits are the same but for the case of letters. */
  lemma ShaIff(value: string, h: string)
    ensures NormalizeSha(value) == Some(h) <==> Spells(value, h)
  {
    if NormalizeSha(value) == Some(h) { TrimmedSpelling(value, h); }
    if Spells(value, h) {
      var left, m, right :| value == left + m + right && Blank(left) && Blank(right) && Forty(m, h);
      SpellingTrims(left, m, right, h);
    }
  }

  // ---- Decisions ----

  /** Both texts are shas, and the same one. */
  predicate SameSha(a: string, b: string) {
    NormalizeSha(a).Some? && NormalizeSha(a) == NormalizeSha(b)
  }

  /** The snapshot and the live state are both of the canonical repository and branch. */
  predicate Canonical(s: Snapshot, o: Observation) {
    && s.repository == "12ephods-source/centinal26" && s.base == "main"
    && o.repository == "12ephods-source/centinal26" && o.base == "main"
  }

  /** Another row of the snapshot tells a different story about the same branch. */
  predicate Disputed(s: Snapshot, branch: string) {
    branch != "" && exists i, k :: 0 <= i < |s.rows| && 0 <= k < |s.rows| && s.rows[i].branch == branch
                                   && s.rows[k].branch == branch && Differs(s.rows[i], s.rows[k])
  }

  predicate Differs(a: Row, b: Row) {
    NormalizeSha(a.headSha) != NormalizeSha(b.headSha) || a.state != b.state || a.openPrs != b.openPrs
  }

  predicate AsksForReview(state: string) {
    || state == "UNREVIEWED_AHEAD_CANDIDATE" || state == "AHEAD_AFTER_PRIOR_MERGE_REVIEW"
    || state == "CLOSED_UNMERGED_REVIEW" || state == "DIVERGED_REVIEW"
  }

  /** The candidate is still to be routed: its identity is undisputed and its state does not settle it. */
  predicate Undecided(s: Snapshot, o: Observation, row: Row) {
    Canonical(s, o) && !Disputed(s, row.branch)
    && row.state != "SUBSUMED_OR_MERGED" && row.state != "SUPERSEDED_PRESERVE_ONLY"
  }

  predicate BaseFresh(s: Snapshot, o: Observation) {
    SameSha(s.baseSha, o.mainSha)
  }

  predicate HeadFresh(o: Observation, row: Row) {
    SameSha(row.headSha, Observed(o, row.branch).headSha)
  }

  /** What is known live about a branch; nothing for one that was not observed. */
  function Observed(o: Observation, branch: string): Live {
    if branch in o.branches then o.branches[branch] else Live("", [])
  }

  /** Exactly one pull request is open, and it is the one the snapshot knows. */
  predicate OneKnown(o: Observation, row: Row) {
    var prs := Observed(o, row.branch).openPrs;
    |prs| == 1 && row.openPrs == multiset{prs[0].number}
  }

  predicate NoneOpen(o: Observation, row: Row) {
    Observed(o, row.branch).openPrs == [] && row.openPrs == multiset{}
  }

  predicate AtHead(o: Observation, row: Row)
    requires OneKnown(o, row)
  {
    var live := Observed(o, row.branch);
    NormalizeSha(live.openPrs[0].headSha) == NormalizeSha(live.headSha)
  }

  predicate OnMain(o: Observation, row: Row)
    requires OneKnown(o, row)
  {
    NormalizeSha(Observed(o, row.branch).openPrs[0].baseSha) == NormalizeSha(o.mainSha)
  }

  predicate StillOpen(o: Observation, row: Row)
    requires OneKnown(o, row)
  {
    var pr := Observed(o, row.branch).openPrs[0];
    pr.state == "open" && !pr.merged
  }

  predicate Fresh(s: Snapshot, o: Observation, row: Row) {
    Undecided(s, o, row) && BaseFresh(s, o) && HeadFresh(o, row)
  }

  function RelevanceFor(relevance: map<string, Relevance>, branch: string): Relevance {
    if branch in relevance then relevance[branch] else Unknown
  }

  predicate Due(s: Snapshot, o: Observation, row: Row) {
    Fresh(s, o, row) && NoneOpen(o, row) && AsksForReview(row.state)
  }

  /** When each decision is taken. */
  predicate Means(d: Decision, s: Snapshot, o: Observation, relevance: map<string, Relevance>, row: Row) {
    match d
    case InvalidCanonicalIdentity => !Canonical(s, o)
    case NoDeepReview => Canonical(s, o) && !Disputed(s, row.branch) && row.state == "SUBSUMED_OR_MERGED"
    case PreserveOnly => Canonical(s, o) && !Disputed(s, row.branch) && row.state == "SUPERSEDED_PRESERVE_ONLY"
    case NeedsIdentityRefresh => Undecided(s, o, row) && BaseFresh(s, o) && !HeadFresh(o, row)
    case AmbiguousIdentity =>
      || (Canonical(s, o) && Disputed(s, row.branch))
      || (Fresh(s, o, row) && OneKnown(o, row) && !AtHead(o, row))
    case NeedsBaseRefresh =>
      || (Undecided(s, o, row) && !BaseFresh(s, o))
      || (Fresh(s, o, row) && OneKnown(o, row) && AtHead(o, row) && !OnMain(o, row))
    case AmbiguousReview =>
      Fresh(s, o, row)
      && (|Observed(o, row.branch).openPrs| > 1 || (NoneOpen(o, row) && !AsksForReview(row.state)))
    case NeedsReviewRefresh =>
      Fresh(s, o, row) && |Observed(o, row.branch).openPrs| <= 1
      && ((!OneKnown(o, row) && !NoneOpen(o, row))
          || (OneKnown(o, row) && AtHead(o, row) && OnMain(o, row) && !StillOpen(o, row)))
    case DeferToExistingPr =>
      Fresh(s, o, row) && OneKnown(o, row) && AtHead(o, row) && OnMain(o, row) && StillOpen(o, row)
    case NeedsReleaseRelevance => Due(s, o, row) && RelevanceFor(relevance, row.branch) == Unknown
    case DeferNonRelease => Due(s, o, row) && RelevanceFor(relevance, row.branch) == NotRelevant
    case DeepReviewEligible => Due(s, o, row) && RelevanceFor(relevance, row.branch) == Relevant
  }

  lemma DiffersIff(r: Row, t: Row)
    requires r.branch == t.branch
    ensures Differs(r, t) <==> IdentityOf(r) != IdentityOf(t)
  {
  }

  lemma DisputedIff(s: Snapshot, branch: string)
    ensures Conflicting(s.rows, branch) <==> Disputed(s, branch)
  {
    if Conflicting(s.rows, branch) {
      var i, k :| 0 <= i < k < |s.rows| && s.rows[i].branch == branch && s.rows[k].branch == branch
                  && IdentityOf(s.rows[i]) != IdentityOf(s.rows[k]);
      DiffersIff(s.rows[i], s.rows[k]);
    }
    if Disputed(s, branch) {
      var i, k :| 0 <= i < |s.rows| && 0 <= k < |s.rows| && s.rows[i].branch == branch && s.rows[k].branch == branch
                  && Differs(s.rows[i], s.rows[k]);
      DiffersIff(s.rows[i], s.rows[k]);
      assert i < k || k < i;
    }
  }

  lemma FewNumbers(prs: seq<Pr>)
    ensures prs == [] ==> PrNumbers(prs) == multiset{}
    ensures |prs| == 1 ==> PrNumbers(prs) == multiset{prs[0].number}
  {
    if |prs| == 1 { assert prs[..0] == []; }
  }

  lemma StatesIff(state: string)
    ensures state in REVIEW_STATES <==> AsksForReview(state)
  {
  }

  lemma TakenEarly(s: Snapshot, o: Observation, relevance: map<string, Relevance>, i: nat)
    requires i < |s.rows| && !Fresh(s, o, s.rows[i])
    ensures Means(RouteRow(s, o, relevance, i).decision, s, o, relevance, s.rows[i])
  {
    DisputedIff(s, s.rows[i].branch);
  }

  lemma TakenFresh(s: Snapshot, o: Observation, relevance: map<string, Relevance>, i: nat)
    requires i < |s.rows| && Fresh(s, o, s.rows[i])
    ensures Means(RouteRow(s, o, relevance, i).decision, s, o, relevance, s.rows[i])
  {
    DisputedIff(s, s.rows[i].branch);
    FewNumbers(Observed(o, s.rows[i].branch).openPrs);
    StatesIff(s.rows[i].state);
  }

  lemma TakenMeans(s: Snapshot, o: Observation, relevance: map<string, Relevance>, i: nat)
    requires i < |s.rows|
    ensures Means(RouteRow(s, o, relevance, i).decision, s, o, relevance, s.rows[i])
  {
    if Fresh(s, o, s.rows[i]) {
      TakenFresh(s, o, relevance, i);
    } else {
      TakenEarly(s, o, relevance, i);
    }
  }

  /** The conditions exclude each other. */
  lemma OneDecision(s: Snapshot, o: Observation, relevance: map<string, Relevance>, row: Row, d: Decision, e: Decision)
    requires Means(d, s, o, relevance, row) && Means(e, s, o, relevance, row)
    ensures d == e
  {
  }

  /** A candidate is routed to a decision exactly when that decision's condition holds of the snapshot and the live
      state; so exactly one of the twelve conditions holds. */
  lemma DecisionIff(s: Snapshot, o: Observation, relevance: map<string, Relevance>, i: nat, d: Decision)
    requires i < |s.rows|
    ensures RouteSnapshot(s, o, relevance)[i].decision == d <==> Means(d, s, o, relevance, s.rows[i])
  {
    assert RouteSnapshot(s, o, relevance)[i] == RouteRow(s, o, relevance, i);
    TakenMeans(s, o, relevance, i);
    if Means(d, s, o, relevance, s.rows[i]) {
      OneDecision(s, o, relevance, s.rows[i], RouteRow(s, o, relevance, i).decision, d);
    }
  }

  /** Apart from the decision, a routed row repeats what it was decided on. */
  lemma RoutedFields(s: Snapshot, o: Observation, relevance: map<string, Relevance>, i: nat)
    requires i < |s.rows|
    ensures |RouteSnapshot(s, o, relevance)| == |s.rows|
    ensures var r, row := RouteSnapshot(s, o, relevance)[i], s.rows[i];
            var live := Observed(o, row.branch);
            && r.branch == row.branch && r.state == row.state && r.snapshotPrs == row.openPrs
            && r.snapshotHead == NormalizeSha(row.headSha) && r.liveHead == NormalizeSha(live.headSha)
            && r.snapshotBase == NormalizeSha(s.baseSha) && r.currentMain == NormalizeSha(o.mainSha)
            && r.reviewState == live.openPrs && r.relevance == RelevanceFor(relevance, row.branch)
  {
    assert RouteSnapshot(s, o, relevance)[i] == RouteRow(s, o, relevance, i);
  }

  // ---- Counts ----

  function Places(rows: seq<Routed>, d: Decision): set<nat> {
    set i: nat | i < |rows| && rows[i].decision == d
  }

  lemma PlacesSnoc(rows: seq<Routed>, d: Decision)
    requires rows != []
    ensures var n := |rows| - 1;
            n !in Places(rows[..n], d)
            && Places(rows, d) == Places(rows[..n], d) + if rows[n].decision == d then {n} else {}
  {
  }

  /** The count of a decision is the number of rows routed to it. */
  lemma {:induction false} CountIs(rows: seq<Routed>, d: Decision)
    ensures Count(rows, d) == |Places(rows, d)|
  {
    if rows == [] {
      assert Places(rows, d) == {};
    } else {
      CountIs(rows[..|rows| - 1], d);
      PlacesSnoc(rows, d);
    }
  }
}
