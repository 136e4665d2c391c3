/** The persistent qualification kernel: a hash-linked ledger, a state file, its sidecar hash and a goal
    marker, written one after the other. `commit` may be interrupted between any two of its four writes. */
module PersistentKernel {
  import opened Common
  import opened HashChain

  datatype Check =
    | RepoSync | RepoClean | PairOk | SkynetOk | DeviceBootOk | DeviceRestartOk | DeviceExecOk
    | DeviceAuditOk | StateIntegrityOk | RecoveryOk | SecurityPolicyOk

  const QUALIFIED: seq<Check> := [RepoSync, RepoClean, PairOk, SkynetOk, DeviceBootOk, DeviceRestartOk,
                                  DeviceExecOk, DeviceAuditOk, StateIntegrityOk, RecoveryOk, SecurityPolicyOk]

  datatype Status = Unqualified | Demoted | ProjectGoalReached

  datatype Metrics = Metrics(cycles: nat, recoveries: nat, demotions: nat)

  /** The content of a ledger line, without its links. */
  datatype Event = Event(eventId: string, time: string, release: string, worker: string, inputs: string,
                         checks: map<Check, bool>, allowed: bool, status: Status, detail: string)

  type Ledger = seq<Entry<Event>>

  /** The state file. `goalReached` is absent from the default state. */
  datatype StateFile = StateFile(release: Option<string>, status: Status, goalReached: Option<bool>,
                                 generation: nat, updatedAt: string, checks: map<Check, bool>, allowed: bool,
                                 metrics: Metrics, lastEventHash: Option<string>)

  /** What a commit is given, with the fresh event id and the clock readings it uses. */
  datatype Input = Input(release: string, checks: map<Check, bool>, detail: string, worker: string,
                         inputs: string, allowed: bool, eventId: string, eventTime: string, stateTime: string)

  datatype Files = Files(ledger: Option<Ledger>, state: Option<StateFile>, sidecar: Option<string>,
                         marker: Option<string>)

  /** The two uses of SHA-256: on a ledger line and on the bytes of the state file. */
  datatype Digests = Digests(event: (Option<string>, Event) -> string, state: StateFile -> string)

  datatype Problem = StateHash | LedgerChain(line: nat) | LedgerHash(line: nat) | StateLedgerHead
                   | GoalLogic | GoalMarker | SecurityLogic

  const NO_FILES := Files(None, None, None, None)

  function DefaultState(): StateFile {
    StateFile(None, Unqualified, None, 0, "", map c | c in QUALIFIED :: false, false, Metrics(0, 0, 0), None)
  }

  function Load(f: Files): StateFile {
    match f.state
    case Some(s) => s
    case None => DefaultState()
  }

  function Holds(checks: map<Check, bool>, c: Check): bool {
    c in checks && checks[c]
  }

  predicate AllHold(checks: map<Check, bool>) {
    forall c :: c in QUALIFIED ==> Holds(checks, c)
  }

  function Normalized(inp: Input): map<Check, bool> {
    map c | c in QUALIFIED :: if c == SecurityPolicyOk then inp.allowed else Holds(inp.checks, c)
  }

  const RECOVERED_PREFIX := "recovered:"

  function StatusAfter(goal: bool, oldGoal: bool): Status {
    if goal then ProjectGoalReached else if oldGoal then Demoted else Unqualified
  }

  function NewStatus(f: Files, inp: Input): Status {
    StatusAfter(AllHold(Normalized(inp)), Load(f).status.ProjectGoalReached?)
  }

  function NewEvent(f: Files, inp: Input): Event {
    Event(inp.eventId, inp.eventTime, inp.release, inp.worker, inp.inputs, Normalized(inp), inp.allowed,
          NewStatus(f, inp), inp.detail)
  }

  function Lines(f: Files): Ledger {
    match f.ledger
    case Some(l) => l
    case None => []
  }

  function NewLedger(d: Digests, f: Files, inp: Input): Ledger {
    Append(d.event, None, Lines(f), NewEvent(f, inp))
  }

  function NewMetrics(prior: StateFile, goal: bool, detail: string): Metrics {
    Metrics(prior.metrics.cycles + 1,
            prior.metrics.recoveries + (if RECOVERED_PREFIX <= detail then 1 else 0),
            prior.metrics.demotions + (if prior.status.ProjectGoalReached? && !goal then 1 else 0))
  }

  function NewState(d: Digests, f: Files, inp: Input): StateFile {
    var prior, goal := Load(f), AllHold(Normalized(inp));
    StateFile(Some(inp.release), NewStatus(f, inp), Some(goal), prior.generation + 1, inp.stateTime, Normalized(inp),
              inp.allowed, NewMetrics(prior, goal, inp.detail), Head(None, NewLedger(d, f, inp)))
  }

  /** The files after the first n writes of a commit; 4 is a completed one. */
  function AfterWrites(d: Digests, f: Files, inp: Input, n: nat): Files {
    Files(if n >= 1 then Some(NewLedger(d, f, inp)) else f.ledger,
          if n >= 2 then Some(NewState(d, f, inp)) else f.state,
          if n >= 3 then Some(d.state(NewState(d, f, inp))) else f.sidecar,
          if n < 4 then f.marker
          else if AllHold(Normalized(inp))
          then Some(inp.release + " " + inp.stateTime + " " + Head(None, NewLedger(d, f, inp)).value)
          else None)
  }

  // ---- What reaching the goal takes, and what a commit writes, field by field ----

  /** This check is given and true. */
  predicate Given(checks: map<Check, bool>, c: Check) {
    c in checks && checks[c]
  }

  /** All eleven checks, by name. */
  predicate Qualifies(checks: map<Check, bool>, security: bool) {
    && Given(checks, RepoSync) && Given(checks, RepoClean) && Given(checks, PairOk) && Given(checks, SkynetOk)
    && Given(checks, DeviceBootOk) && Given(checks, DeviceRestartOk) && Given(checks, DeviceExecOk)
    && Given(checks, DeviceAuditOk) && Given(checks, StateIntegrityOk) && Given(checks, RecoveryOk)
    && security
  }

  lemma AllElevenListed(c: Check)
    ensures c in QUALIFIED
  {
    match c {
      case RepoSync => assert QUALIFIED[0] == c;
      case RepoClean => assert QUALIFIED[1] == c;
      case PairOk => assert QUALIFIED[2] == c;
      case SkynetOk => assert QUALIFIED[3] == c;
      case DeviceBootOk => assert QUALIFIED[4] == c;
      case DeviceRestartOk => assert QUALIFIED[5] == c;
      case DeviceExecOk => assert QUALIFIED[6] == c;
      case DeviceAuditOk => assert QUALIFIED[7] == c;
      case StateIntegrityOk => assert QUALIFIED[8] == c;
      case RecoveryOk => assert QUALIFIED[9] == c;
      case SecurityPolicyOk => assert QUALIFIED[10] == c;
    }
  }

  lemma AllHoldMeans(checks: map<Check, bool>)
    ensures AllHold(checks) <==> forall c: Check :: Given(checks, c)
  {
    forall c: Check ensures c in QUALIFIED { AllElevenListed(c); }
    if AllHold(checks) {
      forall c: Check ensures Given(checks, c) { assert Holds(checks, c); }
    } else {
      var c :| c in QUALIFIED && !Holds(checks, c);
      assert !Given(checks, c);
    }
  }

  lemma QualifiesMeans(checks: map<Check, bool>)
    ensures Qualifies(checks, Given(checks, SecurityPolicyOk)) <==> forall c: Check :: Given(checks, c)
  {
    if Qualifies(checks, Given(checks, SecurityPolicyOk)) {
      forall c: Check ensures Given(checks, c) {
        match c
        case RepoSync => case RepoClean => case PairOk => case SkynetOk => case DeviceBootOk =>
        case DeviceRestartOk => case DeviceExecOk => case DeviceAuditOk => case StateIntegrityOk =>
        case RecoveryOk => case SecurityPolicyOk =>
      }
    }
  }

  lemma AllHoldIff(checks: map<Check, bool>)
    ensures AllHold(checks) <==> Qualifies(checks, Given(checks, SecurityPolicyOk))
  {
    AllHoldMeans(checks);
    QualifiesMeans(checks);
  }

  /** The checks that are recorded: the ten given ones, absent ones as false, and the verdict of the policy. */
  predicate Records(recorded: map<Check, bool>, checks: map<Check, bool>, allowed: bool) {
    && (forall c: Check :: c in recorded)
    && (forall c: Check :: c != SecurityPolicyOk ==> (Given(recorded, c) <==> Given(checks, c)))
    && (Given(recorded, SecurityPolicyOk) <==> allowed)
  }

  lemma NormalizedRecords(inp: Input)
    ensures Records(Normalized(inp), inp.checks, inp.allowed)
    ensures AllHold(Normalized(inp)) <==> Qualifies(inp.checks, inp.allowed)
  {
    forall c: Check ensures c in QUALIFIED { AllElevenListed(c); }
    AllHoldIff(Normalized(inp));
  }

  /** obj is what a commit of inp makes of the state before it. */
  predicate Describes(obj: StateFile, prior: StateFile, inp: Input) {
    var goal := Qualifies(inp.checks, inp.allowed);
    && obj.release == Some(inp.release) && obj.updatedAt == inp.stateTime && obj.allowed == inp.allowed
    && Records(obj.checks, inp.checks, inp.allowed)
    && obj.goalReached == Some(goal) && obj.generation == prior.generation + 1
    && obj.status == (if goal then ProjectGoalReached
                      else if prior.status == ProjectGoalReached then Demoted else Unqualified)
    && obj.metrics.cycles == prior.metrics.cycles + 1
    && obj.metrics.recoveries == prior.metrics.recoveries + (if "recovered:" <= inp.detail then 1 else 0)
    && obj.metrics.demotions == prior.metrics.demotions
                                + (if prior.status == ProjectGoalReached && !goal then 1 else 0)
  }

  /** e is the ledger event of that commit. */
  predicate Logs(e: Event, obj: StateFile, inp: Input) {
    && e.eventId == inp.eventId && e.time == inp.eventTime && e.release == inp.release && e.worker == inp.worker
    && e.inputs == inp.inputs && e.detail == inp.detail && e.allowed == inp.allowed
    && e.checks == obj.checks && e.status == obj.status
  }

  /** lines is log with one more line, the event of this commit, linked to the line before it. */
  predicate Extended(d: Digests, log: Ledger, lines: Ledger, obj: StateFile, inp: Input) {
    && |lines| == |log| + 1 && lines[..|log|] == log
    && var last := lines[|log|];
    && last.previous == (if log == [] then None else Some(log[|log| - 1].hash))
    && Logs(last.body, obj, inp) && last.hash == d.event(last.previous, last.body)
    && obj.lastEventHash == Some(last.hash)
  }

  /** The files after a completed commit: one more ledger line, the state and its digest, and the marker exactly when
      all eleven checks hold. */
  predicate Committed(d: Digests, before: Files, inp: Input, after: Files) {
    && after.state.Some? && after.ledger.Some?
    && var obj := after.state.value;
    && Describes(obj, if before.state.Some? then before.state.value else DefaultState(), inp)
    && Extended(d, if before.ledger.Some? then before.ledger.value else [], after.ledger.value, obj, inp)
    && after.sidecar == Some(d.state(obj))
    && after.marker == (if Qualifies(inp.checks, inp.allowed)
                        then Some(inp.release + " " + inp.stateTime + " " + obj.lastEventHash.value) else None)
  }

  lemma NewStateDescribes(d: Digests, f: Files, inp: Input)
    ensures Describes(NewState(d, f, inp), Load(f), inp) && Logs(NewEvent(f, inp), NewState(d, f, inp), inp)
  {
    NormalizedRecords(inp);
  }

  /** The state before the first commit: nothing holds, nothing has been counted. */
  lemma DefaultIsUnqualified()
    ensures var s := DefaultState();
            && s.release == None && s.status == Unqualified && s.goalReached == None && s.generation == 0
            && (forall c: Check :: c in s.checks && !s.checks[c]) && !s.allowed && s.lastEventHash == None
            && s.metrics.cycles == 0 && s.metrics.recoveries == 0 && s.metrics.demotions == 0
  {
    forall c: Check ensures c in QUALIFIED { AllElevenListed(c); }
  }

  lemma NewLedgerExtends(d: Digests, f: Files, inp: Input)
    ensures Extended(d, Lines(f), NewLedger(d, f, inp), NewState(d, f, inp), inp)
  {
    NewStateDescribes(d, f, inp);
    assert NewLedger(d, f, inp)[..|Lines(f)|] == Lines(f);
  }

  lemma AllWritesCommit(d: Digests, f: Files, inp: Input)
    ensures Committed(d, f, inp, AfterWrites(d, f, inp, 4))
  {
    NewStateDescribes(d, f, inp);
    NewLedgerExtends(d, f, inp);
    NormalizedRecords(inp);
  }

  // ---- verify ----

  function BrokenLine(chain: bool, hash: bool, line: nat): seq<Problem> {
    When(chain, LedgerChain(line)) + When(hash, LedgerHash(line))
  }

  function LineProblems(d: Digests, log: Ledger, i: nat): seq<Problem>
    requires i < |log|
  {
    BrokenLine(log[i].previous != Head(None, log[..i]), d.event(log[i].previous, log[i].body) != log[i].hash, i + 1)
  }

  function LineReport(d: Digests, log: Ledger): nat -> seq<Problem> {
    (i: nat) => if i < |log| then LineProblems(d, log, i) else []
  }

  /** The reports of the first n lines, in order. */
  function Collect(report: nat -> seq<Problem>, n: nat): seq<Problem> {
    if n == 0 then [] else Collect(report, n - 1) + report(n - 1)
  }

  function LedgerProblems(d: Digests, log: Ledger, n: nat): seq<Problem>
    requires n <= |log|
  {
    Collect(LineReport(d, log), n)
  }

  function Report(stateHash: bool, ledger: seq<Problem>, head: bool, goal: bool, marker: bool, security: bool):
    seq<Problem>
  {
    When(stateHash, StateHash) + ledger + When(head, StateLedgerHead) + When(goal, GoalLogic) + When(marker, GoalMarker)
    + When(security, SecurityLogic)
  }

  function Problems(d: Digests, f: Files): seq<Problem> {
    var obj := Load(f);
    Report(f.state.Some? && f.sidecar != Some(d.state(obj)),
           LedgerProblems(d, Lines(f), |Lines(f)|),
           f.ledger.Some? && obj.lastEventHash != Head(None, Lines(f)),
           obj.goalReached != Some(AllHold(obj.checks)),
           obj.goalReached != Some(f.marker.Some?),
           Holds(obj.checks, SecurityPolicyOk) != obj.allowed)
  }

  /** The kernel object over its four files. */
  class Kernel {
    const digests: Digests
    var ledger: Option<Ledger>
    var state: Option<StateFile>
    var sidecar: Option<string>
    var marker: Option<string>

    function OnDisk(): Files
      reads this
    {
      Files(ledger, state, sidecar, marker)
    }

    constructor (d: Digests)
      ensures digests == d && OnDisk() == NO_FILES
    {
      digests := d;
      ledger, state, sidecar, marker := None, None, None, None;
    }

    method AppendEvent(e: Event) returns (hash: string)
      modifies this`ledger
      ensures ledger == Some(Append(digests.event, None, Lines(old(OnDisk())), e))
      ensures Some(hash) == Head(None, ledger.value)
    {
      var prev: Option<string> := None;
      if ledger.Some? && ledger.value != [] {
        prev := Some(ledger.value[|ledger.value| - 1].hash);
      }
      hash := digests.event(prev, e);
      ledger := Some((if ledger.Some? then ledger.value else []) + [Entry(prev, e, hash)]);
    }

    /** `trail` lists what is on disk before the first write and after each one: what a crash can leave behind. */
    method Commit(inp: Input) returns (obj: StateFile, ghost trail: seq<Files>)
      modifies this
      ensures Committed(digests, old(OnDisk()), inp, OnDisk()) && state == Some(obj)
      ensures |trail| == 5 && forall n :: 0 <= n < 5 ==> trail[n] == AfterWrites(digests, old(OnDisk()), inp, n)
    {
      AllWritesCommit(digests, OnDisk(), inp);
      obj, trail := WriteAll(inp);
    }

    /** The four writes of a commit. */
    method WriteAll(inp: Input) returns (obj: StateFile, ghost trail: seq<Files>)
      modifies this
      ensures OnDisk() == AfterWrites(digests, old(OnDisk()), inp, 4)
      ensures obj == NewState(digests, old(OnDisk()), inp)
      ensures |trail| == 5 && forall n :: 0 <= n < 5 ==> trail[n] == AfterWrites(digests, old(OnDisk()), inp, n)
    {
      ghost var before := OnDisk();
      var prior := Load(OnDisk());
      var normalized := Normalized(inp);
      var goal := AllHold(normalized);
      var metrics := CountMetrics(prior, goal, inp.detail);
      var status := StatusAfter(goal, prior.status == ProjectGoalReached);
      var event := Event(inp.eventId, inp.eventTime, inp.release, inp.worker, inp.inputs, normalized,
                         inp.allowed, status, inp.detail);
      assert event == NewEvent(before, inp);
      var hash := AppendEvent(event);
      assert OnDisk() == AfterWrites(digests, before, inp, 1);
      obj := StateFile(Some(inp.release), status, Some(goal), prior.generation + 1, inp.stateTime, normalized,
                       inp.allowed, metrics, Some(hash));
      assert obj == NewState(digests, before, inp) by {
        assert Some(hash) == Head(None, NewLedger(digests, before, inp));
      }
      var rest := WriteState(obj, goal, inp.release + " " + inp.stateTime + " " + hash);
      trail := [before, AfterWrites(digests, before, inp, 1)] + rest;
    }

    /** The writes after the ledger append: state, sidecar, marker. */
    method WriteState(obj: StateFile, goal: bool, text: string) returns (ghost trail: seq<Files>)
      modifies this`state, this`sidecar, this`marker
      ensures state == Some(obj) && sidecar == Some(digests.state(obj)) && marker == if goal then Some(text) else None
      ensures trail == [Files(ledger, Some(obj), old(sidecar), old(marker)),
                        Files(ledger, Some(obj), Some(digests.state(obj)), old(marker)), OnDisk()]
    {
      state := Some(obj);
      trail := [OnDisk()];
      sidecar := Some(digests.state(obj));
      trail := trail + [OnDisk()];
      UpdateMarker(goal, text);
      trail := trail + [OnDisk()];
    }

    method CountMetrics(prior: StateFile, goal: bool, detail: string) returns (metrics: Metrics)
      ensures metrics == NewMetrics(prior, goal, detail)
    {
      var oldGoal := prior.status == ProjectGoalReached;
      metrics := prior.metrics.(cycles := prior.metrics.cycles + 1);
      if oldGoal && !goal { metrics := metrics.(demotions := metrics.demotions + 1); }
      if RECOVERED_PREFIX <= detail { metrics := metrics.(recoveries := metrics.recoveries + 1); }
    }

    method UpdateMarker(goal: bool, text: string)
      modifies this`marker
      ensures marker == if goal then Some(text) else None
    {
      if goal {
        marker := Some(text);
      } else if marker.Some? {
        marker := None;
      }
    }

    /** The loop of verify: one pass over the lines, carrying the previous hash. */
    method VerifyLines(lines: Ledger) returns (problems: seq<Problem>, prev: Option<string>)
      ensures problems == LedgerProblems(digests, lines, |lines|)
      ensures prev == Head(None, lines)
    {
      prev := None;
      problems := [];
      for i := 0 to |lines|
        invariant prev == Head(None, lines[..i])
        invariant problems == LedgerProblems(digests, lines, i)
      {
        var event := lines[i];
        ghost var before := problems;
        if event.previous != prev { problems := problems + [LedgerChain(i + 1)]; }
        if digests.event(event.previous, event.body) != event.hash { problems := problems + [LedgerHash(i + 1)]; }
        assert problems == before + LineProblems(digests, lines, i);
        prev := Some(event.hash);
        HeadAt(None, lines, i);
      }
      assert lines[..|lines|] == lines;
    }

    method Verify() returns (problems: seq<Problem>)
      ensures problems == Problems(digests, OnDisk())
    {
      var obj := Load(OnDisk());
      problems := When(state.Some? && sidecar != Some(digests.state(obj)), StateHash);
      var found, prev := VerifyLines(Lines(OnDisk()));
      problems := problems + found;
      problems := problems + When(obj.lastEventHash != prev && ledger.Some?, StateLedgerHead);
      problems := problems + When(obj.goalReached != Some(AllHold(obj.checks)), GoalLogic);
      problems := problems + When(obj.goalReached != Some(marker.Some?), GoalMarker);
      problems := problems + When(Holds(obj.checks, SecurityPolicyOk) != obj.allowed, SecurityLogic);
    }
  }

  // ---- Runs: completed and interrupted commits ----

  /** A commit and the number of writes it got to make. */
  datatype Attempt = Attempt(inp: Input, writes: nat)

  predicate Fresh(f: Files, inp: Input) {
    forall e :: e in Lines(f) ==> e.body.eventId != inp.eventId
  }

  function Run(d: Digests, attempts: seq<Attempt>): Files {
    if attempts == [] then NO_FILES
    else
      var n := |attempts| - 1;
      AfterWrites(d, Run(d, attempts[..n]), attempts[n].inp, attempts[n].writes)
  }

  ghost predicate GoodDigests(d: Digests) {
    && Injective(d.event)
    && forall a, b {:trigger d.state(a), d.state(b)} :: d.state(a) == d.state(b) ==> a == b
  }

  predicate InLedger(log: Ledger, h: Option<string>) {
    h.Some? && exists e :: e in log && e.hash == h.value
  }

  predicate StateOk(s: StateFile) {
    && s.goalReached == Some(AllHold(s.checks))
    && Holds(s.checks, SecurityPolicyOk) == s.allowed
    && (s.status.ProjectGoalReached? <==> s.goalReached == Some(true))
    && s.metrics.cycles == s.generation
    && s.metrics.demotions <= s.generation
  }

  ghost predicate Inv(d: Digests, f: Files) {
    && Linked(d.event, None, Lines(f))
    && (f.state.Some? ==> StateOk(f.state.value) && InLedger(Lines(f), f.state.value.lastEventHash)
                          && f.state.value.generation <= |Lines(f)|)
    && (f.sidecar.Some? ==> exists s :: f.sidecar == Some(d.state(s)) && InLedger(Lines(f), s.lastEventHash))
  }

  predicate OfLedger(problems: seq<Problem>) {
    forall p :: p in problems ==> p.LedgerChain? || p.LedgerHash?
  }

  lemma BrokenLineFacts(chain: bool, hash: bool, line: nat)
    ensures BrokenLine(chain, hash, line) == [] <==> !chain && !hash
    ensures OfLedger(BrokenLine(chain, hash, line))
  {
  }

  lemma {:induction false} CollectEmpty(report: nat -> seq<Problem>, n: nat)
    ensures Collect(report, n) == [] <==> forall i: nat :: i < n ==> report(i) == []
  {
    if n == 0 {
    } else {
      CollectEmpty(report, n - 1);
      assert |Collect(report, n)| == |Collect(report, n - 1)| + |report(n - 1)|;
    }
  }

  lemma {:induction false} CollectOfLedger(report: nat -> seq<Problem>, n: nat)
    requires forall i: nat :: OfLedger(report(i))
    ensures OfLedger(Collect(report, n))
  {
    if n == 0 {
    } else {
      CollectOfLedger(report, n - 1);
      assert OfLedger(report(n - 1));
    }
  }

  /** The ledger part of verify is clean exactly when the whole chain checks. */
  lemma LedgerCleanIffLinked(d: Digests, log: Ledger)
    ensures LedgerProblems(d, log, |log|) == [] <==> Linked(d.event, None, log)
  {
    var report := LineReport(d, log);
    CollectEmpty(report, |log|);
    forall i: nat | i < |log| ensures report(i) == [] <==> EntryOk(d.event, None, log, i) {
      BrokenLineFacts(log[i].previous != Head(None, log[..i]),
                      d.event(log[i].previous, log[i].body) != log[i].hash, i + 1);
    }
  }

  lemma OnlyLineProblems(d: Digests, log: Ledger)
    ensures OfLedger(LedgerProblems(d, log, |log|))
  {
    var report := LineReport(d, log);
    forall i: nat ensures OfLedger(report(i)) {
      if i < |log| {
        BrokenLineFacts(log[i].previous != Head(None, log[..i]), d.event(log[i].previous, log[i].body) != log[i].hash,
                        i + 1);
      }
    }
    CollectOfLedger(report, |log|);
  }

  lemma NewHashUnseen(d: Digests, f: Files, inp: Input)
    requires GoodDigests(d) && Inv(d, f) && Fresh(f, inp)
    ensures !InLedger(Lines(f), Head(None, NewLedger(d, f, inp)))
  {
    var h := Head(None, NewLedger(d, f, inp));
    forall e | e in Lines(f) ensures e.hash != h.value {
      var i :| 0 <= i < |Lines(f)| && Lines(f)[i] == e;
      assert EntryOk(d.event, None, Lines(f), i);
    }
  }

  lemma GrowLedger(d: Digests, f: Files, inp: Input, h: Option<string>)
    requires InLedger(Lines(f), h)
    ensures InLedger(NewLedger(d, f, inp), h)
  {
    var e :| e in Lines(f) && e.hash == h.value;
    assert e in NewLedger(d, f, inp);
  }

  lemma NewHashInLedger(d: Digests, f: Files, inp: Input)
    ensures InLedger(NewLedger(d, f, inp), Head(None, NewLedger(d, f, inp)))
  {
    var log := NewLedger(d, f, inp);
    assert log[|log| - 1] in log;
  }

  lemma NewStateOk(d: Digests, f: Files, inp: Input)
    requires Inv(d, f)
    ensures StateOk(NewState(d, f, inp)) && NewState(d, f, inp).generation <= |NewLedger(d, f, inp)|
  {
    assert SecurityPolicyOk in QUALIFIED by { assert QUALIFIED[10] == SecurityPolicyOk; }
  }

  lemma WritesKeepInv(d: Digests, f: Files, inp: Input, n: nat)
    requires Inv(d, f)
    ensures Inv(d, AfterWrites(d, f, inp, n))
  {
    var f' := AfterWrites(d, f, inp, n);
    AppendLinked(d.event, None, Lines(f), NewEvent(f, inp));
    NewHashInLedger(d, f, inp);
    NewStateOk(d, f, inp);
    if n >= 1 {
      if f.state.Some? { GrowLedger(d, f, inp, f.state.value.lastEventHash); }
      if f.sidecar.Some? {
        var s :| f.sidecar == Some(d.state(s)) && InLedger(Lines(f), s.lastEventHash);
        GrowLedger(d, f, inp, s.lastEventHash);
      }
    }
    if n >= 3 { assert f'.sidecar == Some(d.state(NewState(d, f, inp))); }
  }

  lemma {:induction false} RunInv(d: Digests, attempts: seq<Attempt>)
    ensures Inv(d, Run(d, attempts))
  {
    if attempts == [] {
    } else {
      var n := |attempts| - 1;
      RunInv(d, attempts[..n]);
      WritesKeepInv(d, Run(d, attempts[..n]), attempts[n].inp, attempts[n].writes);
    }
  }

  /** From any state left by completed and interrupted commits, one completed commit verifies clean. */
  lemma CompletedCommitVerifies(d: Digests, attempts: seq<Attempt>, inp: Input)
    ensures Problems(d, AfterWrites(d, Run(d, attempts), inp, 4)) == []
  {
    var f := Run(d, attempts);
    RunInv(d, attempts);
    WritesKeepInv(d, f, inp, 4);
    NewStateOk(d, f, inp);
    LedgerCleanIffLinked(d, NewLedger(d, f, inp));
  }

  /** From any state left by completed and interrupted commits, a completed commit reaches the goal, in flag, status
      and marker alike, exactly when each of the ten checks is given and true and the policy allows the release. */
  lemma GoalIff(d: Digests, attempts: seq<Attempt>, inp: Input)
    ensures var f := AfterWrites(d, Run(d, attempts), inp, 4);
            && f.state.Some?
            && (f.state.value.goalReached == Some(true) <==> Qualifies(inp.checks, inp.allowed))
            && (f.state.value.status == ProjectGoalReached <==> Qualifies(inp.checks, inp.allowed))
            && (f.marker.Some? <==> Qualifies(inp.checks, inp.allowed))
  {
    AllWritesCommit(d, Run(d, attempts), inp);
  }

  /** The link that line i should carry. */
  function LinkBefore(log: Ledger, i: nat): Option<string>
    requires i < |log|
  {
    if i == 0 then None else Some(log[i - 1].hash)
  }

  lemma LineReported(d: Digests, log: Ledger, i: nat)
    requires i < |log|
    ensures LedgerChain(i + 1) in LineProblems(d, log, i) <==> log[i].previous != LinkBefore(log, i)
    ensures LedgerHash(i + 1) in LineProblems(d, log, i) <==> log[i].hash != d.event(log[i].previous, log[i].body)
    ensures forall p :: p in LineProblems(d, log, i) ==> p == LedgerChain(i + 1) || p == LedgerHash(i + 1)
  {
    if i > 0 { HeadAt(None, log, i - 1); }
  }

  lemma {:induction false} CollectMember(report: nat -> seq<Problem>, n: nat, p: Problem)
    ensures p in Collect(report, n) <==> exists i: nat :: i < n && p in report(i)
  {
    if n == 0 {
    } else {
      CollectMember(report, n - 1, p);
    }
  }

  lemma OnlyOwnLine(d: Digests, log: Ledger, i: nat, k: nat, p: Problem)
    requires k < |log| && (p == LedgerChain(i + 1) || p == LedgerHash(i + 1)) && p in LineProblems(d, log, k)
    ensures k == i
  {
    LineReported(d, log, k);
  }

  lemma OwnLine(d: Digests, log: Ledger, i: nat, p: Problem)
    requires i < |log| && (p == LedgerChain(i + 1) || p == LedgerHash(i + 1))
    ensures p in LedgerProblems(d, log, |log|) <==> p in LineProblems(d, log, i)
  {
    var report := LineReport(d, log);
    CollectMember(report, |log|, p);
    if p in LedgerProblems(d, log, |log|) {
      var k: nat :| k < |log| && p in report(k);
      OnlyOwnLine(d, log, i, k, p);
    }
    assert report(i) == LineProblems(d, log, i);
  }

  /** What verify reports, problem by problem. */
  lemma ReportMembers(stateHash: bool, ledger: seq<Problem>, head: bool, goal: bool, marker: bool, security: bool)
    requires OfLedger(ledger)
    ensures var r := Report(stateHash, ledger, head, goal, marker, security);
            && (StateHash in r <==> stateHash) && (StateLedgerHead in r <==> head) && (GoalLogic in r <==> goal)
            && (GoalMarker in r <==> marker) && (SecurityLogic in r <==> security)
  {
    var parts := When(stateHash, StateHash) + ledger + When(head, StateLedgerHead);
    assert StateHash in parts <==> stateHash;
    assert StateLedgerHead in parts <==> head;
    assert GoalLogic !in parts && GoalMarker !in parts && SecurityLogic !in parts;
  }

  lemma ReportLines(stateHash: bool, ledger: seq<Problem>, head: bool, goal: bool, marker: bool, security: bool,
                    p: Problem)
    requires p.LedgerChain? || p.LedgerHash?
    ensures p in Report(stateHash, ledger, head, goal, marker, security) <==> p in ledger
  {
  }

  /** Line by line: the chain and the hash of a line are reported exactly when they are wrong. */
  lemma LinesReported(d: Digests, f: Files, i: nat)
    requires f.ledger.Some? && i < |f.ledger.value|
    ensures var e := f.ledger.value[i];
            && (LedgerChain(i + 1) in Problems(d, f)
                <==> e.previous != if i == 0 then None else Some(f.ledger.value[i - 1].hash))
            && (LedgerHash(i + 1) in Problems(d, f) <==> e.hash != d.event(e.previous, e.body))
  {
    LineReported(d, Lines(f), i);
    forall p | p == LedgerChain(i + 1) || p == LedgerHash(i + 1)
      ensures p in Problems(d, f) <==> p in LineProblems(d, Lines(f), i)
    {
      OwnLine(d, Lines(f), i, p);
      var obj := Load(f);
      ReportLines(f.state.Some? && f.sidecar != Some(d.state(obj)), LedgerProblems(d, Lines(f), |Lines(f)|),
                  f.ledger.Some? && obj.lastEventHash != Head(None, Lines(f)),
                  obj.goalReached != Some(AllHold(obj.checks)), obj.goalReached != Some(f.marker.Some?),
                  Holds(obj.checks, SecurityPolicyOk) != obj.allowed, p);
    }
  }

  lemma ReportedFlags(d: Digests, f: Files)
    ensures var obj, r := Load(f), Problems(d, f);
            && (GoalLogic in r <==> obj.goalReached != Some(AllHold(obj.checks)))
            && (GoalMarker in r <==> obj.goalReached != Some(f.marker.Some?))
            && (SecurityLogic in r <==> Holds(obj.checks, SecurityPolicyOk) != obj.allowed)
            && (StateHash in r <==> f.state.Some? && f.sidecar != Some(d.state(obj)))
            && (StateLedgerHead in r <==> f.ledger.Some? && obj.lastEventHash != Head(None, Lines(f)))
  {
    var obj := Load(f);
    OnlyLineProblems(d, Lines(f));
    ReportMembers(f.state.Some? && f.sidecar != Some(d.state(obj)), LedgerProblems(d, Lines(f), |Lines(f)|),
                  f.ledger.Some? && obj.lastEventHash != Head(None, Lines(f)),
                  obj.goalReached != Some(AllHold(obj.checks)), obj.goalReached != Some(f.marker.Some?),
                  Holds(obj.checks, SecurityPolicyOk) != obj.allowed);
  }

  /** Every other report of verify, in terms of what is on disk: the flag against the eleven stored checks, the marker
      against the flag, the policy verdict against its check, the digest of the state, the head of the ledger. */
  lemma ReportedIff(d: Digests, f: Files)
    ensures var obj, r := (if f.state.Some? then f.state.value else DefaultState()), Problems(d, f);
            && (GoalLogic in r <==> obj.goalReached != Some(Qualifies(obj.checks, Given(obj.checks, SecurityPolicyOk))))
            && (GoalMarker in r <==> obj.goalReached != Some(f.marker.Some?))
            && (SecurityLogic in r <==> Given(obj.checks, SecurityPolicyOk) != obj.allowed)
            && (StateHash in r <==> f.state.Some? && f.sidecar != Some(d.state(obj)))
            && (StateLedgerHead in r <==> f.ledger.Some? && obj.lastEventHash != LastHash(f.ledger.value))
  {
    ReportedFlags(d, f);
    AllHoldIff(Load(f).checks);
  }

  function LastHash(log: Ledger): Option<string> {
    if log == [] then None else Some(log[|log| - 1].hash)
  }

  /** A stale sidecar and a stale ledger head are each reported exactly when they are there. */
  lemma StaleReported(d: Digests, f: Files)
    ensures StateHash in Problems(d, f) <==> f.state.Some? && f.sidecar != Some(d.state(f.state.value))
    ensures StateLedgerHead in Problems(d, f)
            <==> f.ledger.Some? && Load(f).lastEventHash != Head(None, Lines(f))
  {
    ReportedFlags(d, f);
  }

  lemma CrashAfterLedger(d: Digests, f: Files, inp: Input)
    requires GoodDigests(d) && Inv(d, f) && Fresh(f, inp)
    ensures StateLedgerHead in Problems(d, AfterWrites(d, f, inp, 1))
  {
    NewHashUnseen(d, f, inp);
    StaleReported(d, AfterWrites(d, f, inp, 1));
  }

  lemma CrashAfterState(d: Digests, f: Files, inp: Input)
    requires GoodDigests(d) && Inv(d, f) && Fresh(f, inp)
    ensures StateHash in Problems(d, AfterWrites(d, f, inp, 2))
  {
    var obj := NewState(d, f, inp);
    StaleReported(d, AfterWrites(d, f, inp, 2));
    if f.sidecar == Some(d.state(obj)) {
      var s :| f.sidecar == Some(d.state(s)) && InLedger(Lines(f), s.lastEventHash);
      assert s == obj;
      NewHashUnseen(d, f, inp);
      assert false;
    }
  }

  lemma CrashAfterSidecar(d: Digests, f: Files, inp: Input)
    requires Inv(d, f)
    ensures Problems(d, AfterWrites(d, f, inp, 3)) == When(f.marker.Some? != AllHold(Normalized(inp)), GoalMarker)
  {
    NewStateOk(d, f, inp);
    AppendLinked(d.event, None, Lines(f), NewEvent(f, inp));
    LedgerCleanIffLinked(d, NewLedger(d, f, inp));
  }

  /** A crash after the ledger append and before the sidecar write is always reported; a crash after the
      sidecar write is reported exactly when marker existence differs from the goal flag, and then only as that. */
  lemma CrashReported(d: Digests, attempts: seq<Attempt>, inp: Input, n: nat)
    requires GoodDigests(d) && 1 <= n <= 3
    requires Fresh(Run(d, attempts), inp)
    ensures n == 1 ==> StateLedgerHead in Problems(d, AfterWrites(d, Run(d, attempts), inp, n))
    ensures n == 2 ==> StateHash in Problems(d, AfterWrites(d, Run(d, attempts), inp, n))
    ensures n == 3 ==> Problems(d, AfterWrites(d, Run(d, attempts), inp, n))
                       == When(Run(d, attempts).marker.Some? != AllHold(Normalized(inp)), GoalMarker)
  {
    RunInv(d, attempts);
    match n {
      case 1 => CrashAfterLedger(d, Run(d, attempts), inp);
      case 2 => CrashAfterState(d, Run(d, attempts), inp);
      case _ => CrashAfterSidecar(d, Run(d, attempts), inp);
    }
  }

  /** After an attempt that wrote anything, verify is clean exactly when the attempt completed, or when it
      missed only the marker write and the marker already agreed with the goal flag. */
  lemma CleanIff(d: Digests, attempts: seq<Attempt>, inp: Input, n: nat)
    requires GoodDigests(d) && 1 <= n <= 4
    requires Fresh(Run(d, attempts), inp)
    ensures Problems(d, AfterWrites(d, Run(d, attempts), inp, n)) == []
            <==> n == 4 || (n == 3 && (Run(d, attempts).marker.Some? <==> AllHold(Normalized(inp))))
  {
    if n == 4 {
      CompletedCommitVerifies(d, attempts, inp);
    } else {
      CrashReported(d, attempts, inp, n);
    }
  }

  /** What a commit draws or reads off the clock. */
  datatype Stamps = Stamps(eventId: string, eventTime: string, stateTime: string)

  /** A commit in which every check agrees with the goal. */
  function Sample(release: string, goal: bool, s: Stamps): Input {
    Input(release, map c | c in QUALIFIED :: goal, "", "", "", goal, s.eventId, s.eventTime, s.stateTime)
  }

  lemma SampleGoal(release: string, goal: bool, s: Stamps)
    ensures AllHold(Normalized(Sample(release, goal, s))) <==> goal
  {
    var checks := Normalized(Sample(release, goal, s));
    assert RepoSync in QUALIFIED && SecurityPolicyOk in QUALIFIED by {
      assert QUALIFIED[0] == RepoSync && QUALIFIED[10] == SecurityPolicyOk;
    }
    assert checks[RepoSync] == goal;
  }

  /** An unnoticed crash that does no harm: the first commit of all stops before the marker write, without having
      reached the goal. */
  lemma HarmlessCrashUnnoticed(d: Digests, s: Stamps)
    ensures Problems(d, AfterWrites(d, Run(d, []), Sample("a", false, s), 3)) == []
  {
    SampleGoal("a", false, s);
    CrashAfterSidecar(d, NO_FILES, Sample("a", false, s));
  }

  /** An unnoticed crash that leaves a stale marker: the goal was reached by release a, and the commit for release b
      stops before it replaces the marker. The files verify clean, and the marker names the old release. */
  lemma StaleMarkerUnnoticed(d: Digests, s: Stamps, t: Stamps)
    ensures var f := Run(d, [Attempt(Sample("a", true, s), 4)]);
            && Problems(d, AfterWrites(d, f, Sample("b", true, t), 3)) == []
            && AfterWrites(d, f, Sample("b", true, t), 3).marker != AfterWrites(d, f, Sample("b", true, t), 4).marker
  {
    var attempts := [Attempt(Sample("a", true, s), 4)];
    var f := Run(d, attempts);
    assert attempts[..0] == [];
    SampleGoal("a", true, s);
    SampleGoal("b", true, t);
    RunInv(d, attempts);
    CrashAfterSidecar(d, f, Sample("b", true, t));
    assert f.marker.Some? && f.marker.value[0] == 'a';
    assert AfterWrites(d, f, Sample("b", true, t), 4).marker.value[0] == 'b';
  }

  /** A kernel that never committed does not verify clean: its default state has no goal flag. */
  lemma NeverCommitted(d: Digests)
    ensures Problems(d, NO_FILES) == [GoalLogic, GoalMarker]
  {
  }

  /** Metrics over any run: one cycle per state written, at most one per ledger line, and the goal status is
      the goal flag. */
  lemma MetricsConsistent(d: Digests, attempts: seq<Attempt>)
    ensures var f := Run(d, attempts);
            f.state.Some? ==> StateOk(f.state.value) && f.state.value.metrics.cycles <= |Lines(f)|
  {
    RunInv(d, attempts);
  }

  // ---- What the metrics count ----

  /** Attempts that got as far as writing the state file. */
  function Written(attempts: seq<Attempt>): seq<Input> {
    if attempts == [] then []
    else
      var n := |attempts| - 1;
      Written(attempts[..n]) + if attempts[n].writes >= 2 then [attempts[n].inp] else []
  }

  predicate ReachedGoal(inp: Input) {
    AllHold(Normalized(inp))
  }

  function CountRecovered(inputs: seq<Input>): nat {
    if inputs == [] then 0
    else
      var n := |inputs| - 1;
      CountRecovered(inputs[..n]) + if RECOVERED_PREFIX <= inputs[n].detail then 1 else 0
  }

  /** How often the goal was held by one input and lost by the next. */
  function CountLost(inputs: seq<Input>): nat {
    if |inputs| < 2 then 0
    else
      var n := |inputs| - 1;
      CountLost(inputs[..n]) + if ReachedGoal(inputs[n - 1]) && !ReachedGoal(inputs[n]) then 1 else 0
  }

  /** s is the state that the inputs, written one after the other, add up to. */
  predicate AddsUp(s: StateFile, inputs: seq<Input>) {
    && s.metrics == Metrics(|inputs|, CountRecovered(inputs), CountLost(inputs)) && s.generation == |inputs|
    && (s.status.ProjectGoalReached? <==> inputs != [] && ReachedGoal(inputs[|inputs| - 1]))
  }

  lemma CountsSnoc(inputs: seq<Input>, inp: Input)
    ensures CountRecovered(inputs + [inp]) == CountRecovered(inputs) + if RECOVERED_PREFIX <= inp.detail then 1 else 0
    ensures CountLost(inputs + [inp])
            == CountLost(inputs)
               + if inputs != [] && ReachedGoal(inputs[|inputs| - 1]) && !ReachedGoal(inp) then 1 else 0
  {
    var more := inputs + [inp];
    assert more[..|inputs|] == inputs;
    if inputs == [] {
      assert CountLost(more) == 0;
    } else {
      assert more[|inputs| - 1] == inputs[|inputs| - 1];
    }
  }

  /** The state a commit writes, in terms of the state before it. */
  lemma NewStateCounts(d: Digests, f: Files, inp: Input)
    ensures var s := NewState(d, f, inp);
            && s.metrics == NewMetrics(Load(f), ReachedGoal(inp), inp.detail) && s.generation == Load(f).generation + 1
            && (s.status.ProjectGoalReached? <==> ReachedGoal(inp))
  {
  }

  lemma AddsUpStep(d: Digests, f: Files, inputs: seq<Input>, inp: Input)
    requires AddsUp(Load(f), inputs)
    ensures AddsUp(NewState(d, f, inp), inputs + [inp])
  {
    CountsSnoc(inputs, inp);
    NewStateCounts(d, f, inp);
    NextAddsUp(Load(f), NewState(d, f, inp), inputs, inp);
  }

  lemma NextAddsUp(prior: StateFile, next: StateFile, inputs: seq<Input>, inp: Input)
    requires AddsUp(prior, inputs)
    requires next.metrics == NewMetrics(prior, ReachedGoal(inp), inp.detail) && next.generation == prior.generation + 1
    requires next.status.ProjectGoalReached? <==> ReachedGoal(inp)
    ensures AddsUp(next, inputs + [inp])
  {
    CountsSnoc(inputs, inp);
  }

  /** In every run, interrupted commits included, cycles and generation count the states written, recoveries
      those whose detail says so, and demotions exactly the times the goal was lost. */
  lemma {:induction false} MetricsCount(d: Digests, attempts: seq<Attempt>)
    ensures AddsUp(Load(Run(d, attempts)), Written(attempts))
  {
    if attempts != [] {
      var n := |attempts| - 1;
      var f, inputs, last := Run(d, attempts[..n]), Written(attempts[..n]), attempts[n];
      MetricsCount(d, attempts[..n]);
      LoadAfter(d, f, last.inp, last.writes);
      if last.writes >= 2 {
        AddsUpStep(d, f, inputs, last.inp);
      } else {
        assert inputs + [] == inputs;
      }
    } else {
      assert Load(NO_FILES).metrics == Metrics(0, 0, 0);
    }
  }

  lemma LoadAfter(d: Digests, f: Files, inp: Input, n: nat)
    ensures Load(AfterWrites(d, f, inp, n)) == if n >= 2 then NewState(d, f, inp) else Load(f)
  {
  }

  /** The head hash that the state file records pins the entire ledger. */
  lemma StatePinsLedger(d: Digests, f: Files, g: Files)
    requires GoodDigests(d) && Problems(d, f) == [] && Problems(d, g) == []
    requires f.ledger.Some? && g.ledger.Some? && f.state == g.state
    ensures f.ledger == g.ledger
  {
    LedgerCleanIffLinked(d, Lines(f));
    LedgerCleanIffLinked(d, Lines(g));
    SameHeadSameLog(d.event, None, Lines(f), Lines(g));
  }
}
