/** When a job can be executed twice. Between the two deliveries its device must remember 4096 larger nonces, all
    within the job's time to live; the controller draws nonces and task ids as 32 hexadecimal digits, so this is
    possible exactly for nonces below the 4096 largest such tokens. */
module OutboundReplay {
  import opened Common
  import opened OutboundWire
  import opened OutboundQueue
  import opened OutboundWorker
  import opened TextOrder
  import opened OutboundProtocol
  import opened OutboundSafety
  import opened OutboundTokens

  const COMMIT: string := "cccccccccccccccccccccccccccccccccccccccc"

  /** Every nonce and task id is one the controller can draw. */
  predicate OnlyTokens(w: World) {
    forall j :: j in w.enqueued ==> IsToken(j.taskId) && IsToken(j.nonce)
  }

  /** A token below the 4096 largest. */
  predicate Low(n: string) {
    IsToken(n) && Less(n, HighToken(0))
  }

  /** The job with this nonce, enqueued at time 0 for an hour. */
  function JobFor(nonce: string): Job {
    Job(Complemented(nonce), "d", "diagnostic_status", map[], 3600, nonce, COMMIT)
  }

  function RecordFor(cred: string -> Secret, nonce: string): Record {
    Sign(JobBody(JobFor(nonce)), cred("d"))
  }

  function ConfigOf(cred: string -> Secret): Config {
    Config("d", COMMIT, cred("d"))
  }

  function Start(cred: string -> Secret): World {
    World(EmptyQueue(), [], {}, map["d" := Device(ConfigOf(cred), [], Idle, [])], {}, [])
  }

  /** Everything remembered after k rounds. */
  function Log(first: string, k: nat): seq<string> {
    if k == 0 then [first] else Log(first, k - 1) + [HighToken(k - 1)]
  }

  lemma {:induction false} LogMember(first: string, k: nat, n: string)
    ensures n in Log(first, k) <==> n == first || n in HighTokens(k)
  {
    if k == 0 {
    } else {
      LogMember(first, k - 1, n);
    }
  }

  lemma HighIsNew(first: string, k: nat)
    requires k < COUNT && Low(first)
    ensures HighToken(k) !in Log(first, k)
  {
    HighTokenAbove(first, k);
    LogMember(first, k, HighToken(k));
    ValuesAre(HighToken, k, HighToken(k));
    if i: nat :| i < k && HighToken(k) == HighToken(i) { HighTokenInjective(k, i); }
  }

  /** After 4096 rounds the first nonce has been pushed out of the window. */
  lemma PushedOut(first: string, k: nat)
    requires Low(first) && k == COUNT
    ensures first !in RememberAll(Log(first, k))
  {
    var log := Log(first, k);
    forall n | n in HighTokens(k) ensures n in Above(Elements(log), first) {
      LogMember(first, k, n);
      ValuesAre(HighToken, k, n);
      var i: nat :| i < k && n == HighToken(i);
      HighTokenAbove(first, i);
    }
    HighTokensCount(k);
    SubsetSize(HighTokens(k), Above(Elements(log), first));
    LogMember(first, k, first);
    Readmitted(log, first);
  }

  /** After k rounds: every job so far has the task id that goes with its nonce, all nonces are in the log, the
      device is idle, and the first job has been executed once. */
  predicate AfterRounds(cred: string -> Secret, first: string, w: World, k: nat) {
    && "d" in w.queue.registrations && w.queue.registrations["d"].sourceCommit == COMMIT
    && (forall j :: j in w.enqueued ==> j.taskId == Complemented(j.nonce) && j.nonce in Log(first, k))
    && OnlyTokens(w)
    && JobFor(first) in w.enqueued && (cred("d"), JobBody(JobFor(first))) in w.signed
    && "d" in w.devices && w.devices["d"].config == ConfigOf(cred)
    && w.devices["d"].phase.Idle? && w.devices["d"].log == Log(first, k)
    && w.executions == [Execution("d", RecordFor(cred, first))]
  }

  lemma Then(cred: string -> Secret, w: World, run: seq<Step>, start: World, step: Step)
    requires Reachable(cred, w, run, start) && Enabled(w, step)
    ensures Reachable(cred, Apply(cred, w, step), run + [step], start)
  {
    assert (run + [step])[..|run|] == run;
  }

  lemma RecordFacts(cred: string -> Secret, nonce: string)
    ensures Body(RecordFor(cred, nonce)) == JobBody(JobFor(nonce)) && NonceOf(RecordFor(cred, nonce)) == nonce
    ensures Get(RecordFor(cred, nonce), Signature) == Mac(cred("d"), JobBody(JobFor(nonce)))
  {
    SignVerifies(JobBody(JobFor(nonce)), cred("d"), cred("d"));
    assert RecordFor(cred, nonce)[Nonce] == JobBody(JobFor(nonce))[Nonce];
  }

  lemma SeenInLog(log: seq<string>, nonce: string)
    requires nonce !in log
    ensures nonce !in Elements(RememberAll(log))
  {
    WindowHoldsLargest(log);
  }

  /** A signed job whose nonce is outside the window can be begun. */
  lemma CanBegin(cred: string -> Secret, w: World, nonce: string)
    requires "d" in w.devices && w.devices["d"].config == ConfigOf(cred) && w.devices["d"].phase.Idle?
    requires (cred("d"), JobBody(JobFor(nonce))) in w.signed
    requires nonce != "" && nonce !in Elements(w.devices["d"].nonces)
    ensures var step := DoBegin("d", RecordFor(cred, nonce), 0);
            Enabled(w, step) && Apply(cred, w, step) == AfterRemember(w, "d", RecordFor(cred, nonce))
  {
    RecordFacts(cred, nonce);
    GenuineJobAccepted(ConfigOf(cred), Elements(w.devices["d"].nonces), JobFor(nonce), cred("d"), 0);
  }

  function EnqueueOf(nonce: string): Step {
    DoEnqueue("d", "diagnostic_status", map[], 3600, 0, Complemented(nonce), nonce)
  }

  lemma EnqueueResult(cred: string -> Secret, w: World, nonce: string)
    requires "d" in w.queue.registrations && w.queue.registrations["d"].sourceCommit == COMMIT
    requires Enabled(w, EnqueueOf(nonce))
    ensures var v := Apply(cred, w, EnqueueOf(nonce));
            && v.enqueued == w.enqueued + [JobFor(nonce)]
            && v.signed == w.signed + {(cred("d"), JobBody(JobFor(nonce)))}
            && v.devices == w.devices && v.executions == w.executions && v.queue.registrations == w.queue.registrations
  {
  }

  /** A nonce that is not in the log, and the task id that goes with it, are fresh. */
  lemma FreshNonce(cred: string -> Secret, first: string, w: World, k: nat, n: string)
    requires AfterRounds(cred, first, w, k) && IsToken(n) && n !in Log(first, k)
    ensures Enabled(w, EnqueueOf(n))
  {
    forall i | 0 <= i < |w.enqueued| ensures w.enqueued[i].taskId != Complemented(n) && w.enqueued[i].nonce != n {
      assert w.enqueued[i] in w.enqueued;
      if Complemented(w.enqueued[i].nonce) == Complemented(n) { ComplementedInjective(w.enqueued[i].nonce, n); }
    }
  }

  /** One more job is enqueued, begun and abandoned. */
  lemma Round(cred: string -> Secret, first: string, w: World, run: seq<Step>, start: World, k: nat)
    returns (v: World, more: seq<Step>)
    requires k < COUNT && Low(first) && Reachable(cred, w, run, start) && AfterRounds(cred, first, w, k)
    ensures Reachable(cred, v, more, start) && AfterRounds(cred, first, v, k + 1)
  {
    var n := HighToken(k);
    HighIsNew(first, k);
    HighTokenIsToken(k);
    FreshNonce(cred, first, w, k, n);
    EnqueueResult(cred, w, n);
    Then(cred, w, run, start, EnqueueOf(n));
    var w1, r1 := Apply(cred, w, EnqueueOf(n)), run + [EnqueueOf(n)];
    ReachableInv(cred, w1, r1, start);
    assert DeviceOk(w1, "d");
    SeenInLog(Log(first, k), n);
    v, more := BeginAndStop(cred, w1, r1, start, n);
    RoundEnds(cred, first, w, v, k);
  }

  /** A job is begun, so that its nonce is remembered, and the device crashes before running it. */
  lemma BeginAndStop(cred: string -> Secret, w: World, run: seq<Step>, start: World, n: string)
    returns (v: World, more: seq<Step>)
    requires Reachable(cred, w, run, start) && "d" in w.devices && w.devices["d"].config == ConfigOf(cred)
    requires w.devices["d"].phase.Idle? && (cred("d"), JobBody(JobFor(n))) in w.signed && IsToken(n)
    requires n !in Elements(w.devices["d"].nonces)
    ensures Reachable(cred, v, more, start) && v.queue == w.queue && v.enqueued == w.enqueued && v.signed == w.signed
    ensures v.executions == w.executions
    ensures "d" in v.devices && v.devices["d"].config == ConfigOf(cred) && v.devices["d"].phase.Idle?
    ensures v.devices["d"].log == w.devices["d"].log + [n]
  {
    var begin := DoBegin("d", RecordFor(cred, n), 0);
    CanBegin(cred, w, n);
    RecordFacts(cred, n);
    Then(cred, w, run, start, begin);
    var w1, r1 := Apply(cred, w, begin), run + [begin];
    Then(cred, w1, r1, start, DoCrash("d"));
    v, more := Apply(cred, w1, DoCrash("d")), r1 + [DoCrash("d")];
  }

  lemma RoundEnds(cred: string -> Secret, first: string, w: World, v: World, k: nat)
    requires k < COUNT && AfterRounds(cred, first, w, k)
    requires v.queue.registrations == w.queue.registrations && v.enqueued == w.enqueued + [JobFor(HighToken(k))]
    requires w.signed <= v.signed && v.executions == w.executions
    requires "d" in v.devices && v.devices["d"].config == ConfigOf(cred) && v.devices["d"].phase.Idle?
    requires v.devices["d"].log == Log(first, k) + [HighToken(k)]
    ensures AfterRounds(cred, first, v, k + 1)
  {
    HighTokenIsToken(k);
    forall j | j in v.enqueued
      ensures j.taskId == Complemented(j.nonce) && j.nonce in Log(first, k + 1)
              && IsToken(j.taskId) && IsToken(j.nonce)
    {
      if j in w.enqueued { assert j.nonce in Log(first, k); }
    }
  }

  lemma CommitIsLower()
    ensures |COMMIT| == 40 && Lower(COMMIT) == COMMIT
  {
    assert forall i :: 0 <= i < |COMMIT| ==> LowerChar(COMMIT[i]) == COMMIT[i];
  }

  /** The device is registered, and nothing else has happened. */
  predicate JustRegistered(cred: string -> Secret, w: World) {
    && "d" in w.queue.registrations && w.queue.registrations["d"].sourceCommit == COMMIT
    && w.enqueued == [] && w.executions == []
    && "d" in w.devices && w.devices["d"] == Device(ConfigOf(cred), [], Idle, [])
  }

  lemma Registered(cred: string -> Secret) returns (start: World, w: World, run: seq<Step>)
    ensures Reachable(cred, w, run, start) && JustRegistered(cred, w)
  {
    start := Start(cred);
    var digest := COMMIT + "eeeeeeeeeeeeeeeeeeeeeeee";
    var register := DoRegister("d", COMMIT, digest, COMMIT, 0);
    CommitIsLower();
    assert Initial(start);
    Then(cred, start, [], start, register);
    w, run := Apply(cred, start, register), [] + [register];
    assert RegisterDevice(start.queue, "d", COMMIT, digest, COMMIT, 0).Ok?;
  }

  /** The first job is enqueued at the registered device. */
  lemma FirstEnqueued(cred: string -> Secret, first: string, w: World, run: seq<Step>, start: World)
    returns (v: World, more: seq<Step>)
    requires IsToken(first) && Reachable(cred, w, run, start) && JustRegistered(cred, w)
    ensures Reachable(cred, v, more, start) && v.queue.registrations == w.queue.registrations
    ensures v.enqueued == [JobFor(first)] && v.executions == [] && v.devices == w.devices
    ensures (cred("d"), JobBody(JobFor(first))) in v.signed
  {
    EnqueueResult(cred, w, first);
    Then(cred, w, run, start, EnqueueOf(first));
    v, more := Apply(cred, w, EnqueueOf(first)), run + [EnqueueOf(first)];
  }

  /** The first job is enqueued, begun and executed. */
  lemma FirstRound(cred: string -> Secret, first: string) returns (start: World, w: World, run: seq<Step>)
    requires IsToken(first)
    ensures Reachable(cred, w, run, start) && AfterRounds(cred, first, w, 0)
  {
    var w1, r1;
    start, w1, r1 := Registered(cred);
    var w2, r2 := FirstEnqueued(cred, first, w1, r1, start);
    w, run := BeginAndRun(cred, first, w2, r2, start);
    assert w.devices["d"].log == [first] == Log(first, 0);
  }

  /** The first job is begun and run, and its result is never sent. */
  lemma BeginAndRun(cred: string -> Secret, first: string, w: World, run: seq<Step>, start: World)
    returns (v: World, more: seq<Step>)
    requires Reachable(cred, w, run, start) && "d" in w.devices && w.devices["d"].config == ConfigOf(cred)
    requires w.devices["d"].phase.Idle? && (cred("d"), JobBody(JobFor(first))) in w.signed && IsToken(first)
    requires first !in Elements(w.devices["d"].nonces)
    ensures Reachable(cred, v, more, start) && v.queue == w.queue && v.enqueued == w.enqueued && v.signed == w.signed
    ensures v.executions == w.executions + [Execution("d", RecordFor(cred, first))]
    ensures "d" in v.devices && v.devices["d"].config == ConfigOf(cred) && v.devices["d"].phase.Idle?
    ensures v.devices["d"].log == w.devices["d"].log + [first]
  {
    var begin := DoBegin("d", RecordFor(cred, first), 0);
    CanBegin(cred, w, first);
    RecordFacts(cred, first);
    Then(cred, w, run, start, begin);
    var w1, r1 := Apply(cred, w, begin), run + [begin];
    Then(cred, w1, r1, start, DoRun("d"));
    var w2, r2 := Apply(cred, w1, DoRun("d")), r1 + [DoRun("d")];
    Then(cred, w2, r2, start, DoCrash("d"));
    v, more := Apply(cred, w2, DoCrash("d")), r2 + [DoCrash("d")];
  }

  /** w, reached by run from start, is where k rounds lead. */
  ghost predicate Attained(cred: string -> Secret, first: string, start: World, w: World, run: seq<Step>, k: nat) {
    Reachable(cred, w, run, start) && AfterRounds(cred, first, w, k)
  }

  /** Whether that many rounds can be completed. */
  ghost function Attainable(cred: string -> Secret, first: string): nat -> bool {
    (k: nat) => exists start, w, run :: Attained(cred, first, start, w, run, k)
  }

  lemma NoRound(cred: string -> Secret, first: string)
    requires Low(first)
    ensures Attainable(cred, first)(0)
  {
    var start, w, run := FirstRound(cred, first);
    assert Attained(cred, first, start, w, run, 0);
  }

  lemma NextRound(cred: string -> Secret, first: string, k: nat)
    requires k < COUNT && Low(first) && Attainable(cred, first)(k)
    ensures Attainable(cred, first)(k + 1)
  {
    var start, w, run :| Attained(cred, first, start, w, run, k);
    var v, more := Round(cred, first, w, run, start, k);
    assert Attained(cred, first, start, v, more, k + 1);
  }

  lemma {:induction false} Climb(p: nat -> bool, n: nat, top: nat)
    requires n <= top && p(0) && forall k: nat :: k < top && p(k) ==> p(k + 1)
    ensures p(n)
  {
    if n == 0 {
    } else {
      Climb(p, n - 1, top);
    }
  }

  lemma Rounds(cred: string -> Secret, first: string, n: nat)
    requires Low(first) && n <= COUNT
    ensures Attainable(cred, first)(n)
  {
    NoRound(cred, first);
    forall k: nat | k < COUNT && Attainable(cred, first)(k) ensures Attainable(cred, first)(k + 1) {
      NextRound(cred, first, k);
    }
    Climb(Attainable(cred, first), n, COUNT);
  }

  /** 4096 rounds later the device no longer remembers the first nonce. */
  lemma Forgotten(cred: string -> Secret, first: string, n: nat) returns (start: World, w: World, run: seq<Step>)
    requires Low(first) && n == COUNT
    ensures Reachable(cred, w, run, start) && AfterRounds(cred, first, w, n)
    ensures first !in Elements(w.devices["d"].nonces)
  {
    Rounds(cred, first, n);
    start, w, run :| Attained(cred, first, start, w, run, n);
    ReachableInv(cred, w, run, start);
    assert DeviceOk(w, "d");
    PushedOut(first, n);
  }

  lemma CountTwo(x: Execution)
    ensures Executed([x] + [x], x.device, NonceOf(x.job)) == 2
  {
    var two := [x] + [x];
    assert two[..1] == [x] && [x][..0] == [];
    assert Executed([x], x.device, NonceOf(x.job)) == 1;
  }

  /** Whatever low nonce the controller drew first: its job is delivered once more, unexpired, and its device runs
      it again. */
  lemma ExecutedTwice(cred: string -> Secret, first: string) returns (start: World, w: World, run: seq<Step>)
    requires Low(first)
    ensures Reachable(cred, w, run, start) && OnlyTokens(w) && JobFor(first) in w.enqueued
    ensures Executed(w.executions, JobFor(first).device, first) == 2
  {
    var n: nat :| n == COUNT;
    var v, before;
    start, v, before := Forgotten(cred, first, n);
    w, run := BeginAndRun(cred, first, v, before, start);
    RecordFacts(cred, first);
    CountTwo(Execution("d", RecordFor(cred, first)));
  }

  // ---- The nonces that are safe ----

  ghost predicate LoggedIsEnqueued(w: World) {
    forall d, n :: d in w.devices && n in w.devices[d].log ==> exists j :: j in w.enqueued && j.nonce == n
  }

  lemma GenuineNonce(enqueued: seq<Job>, c: Config, r: Record)
    requires Genuine(enqueued, c, r)
    ensures exists j :: j in enqueued && j.nonce == NonceOf(r)
  {
    var j :| j in enqueued && GenuineFor(c, r, j);
    assert Nonce in JobBody(j) && r[Nonce] == Body(r)[Nonce];
  }

  lemma KeysKept(cred: string -> Secret, w: World, step: Step)
    requires Enabled(w, step)
    ensures Apply(cred, w, step).devices.Keys == w.devices.Keys
  {
  }

  predicate Begun(w: World, step: Step)
    requires step.DoBegin? && step.device in w.devices
  {
    var dev := w.devices[step.device];
    ValidateJob(dev.config, Elements(dev.nonces), Obj(step.payload), step.now) == []
  }

  lemma JobsKept(cred: string -> Secret, w: World, step: Step)
    requires Enabled(w, step)
    ensures forall j :: j in w.enqueued ==> j in Apply(cred, w, step).enqueued
  {
  }

  lemma OtherStepsLog(cred: string -> Secret, w: World, step: Step, d: string)
    requires !step.DoBegin? && Enabled(w, step) && d in w.devices
    ensures d in Apply(cred, w, step).devices && Apply(cred, w, step).devices[d].log == w.devices[d].log
  {
  }

  lemma RefusedLog(cred: string -> Secret, w: World, step: Step)
    requires step.DoBegin? && Enabled(w, step) && !Begun(w, step)
    ensures Apply(cred, w, step).devices == w.devices
  {
  }

  lemma BegunLog(cred: string -> Secret, w: World, step: Step)
    requires step.DoBegin? && Enabled(w, step) && Begun(w, step)
    ensures Apply(cred, w, step) == AfterRemember(w, step.device, step.payload)
  {
  }

  lemma BegunIsEnqueued(cred: string -> Secret, w: World, step: Step)
    requires step.DoBegin? && Inv(cred, w) && Enabled(w, step) && Begun(w, step)
    ensures exists j :: j in w.enqueued && j.nonce == NonceOf(step.payload)
  {
    DeliveredJobIsGenuine(cred, w, step.device, step.payload, step.now);
    GenuineNonce(w.enqueued, w.devices[step.device].config, step.payload);
  }

  /** No step other than an accepted beginning changes a log. */
  lemma LoggedBefore(cred: string -> Secret, w: World, step: Step, d: string)
    requires Enabled(w, step) && d in w.devices && !(step.DoBegin? && Begun(w, step))
    ensures d in Apply(cred, w, step).devices && Apply(cred, w, step).devices[d].log == w.devices[d].log
  {
    if step.DoBegin? { RefusedLog(cred, w, step); } else { OtherStepsLog(cred, w, step, d); }
  }

  lemma LoggedOtherwise(cred: string -> Secret, w: World, step: Step)
    requires LoggedIsEnqueued(w) && Enabled(w, step) && !(step.DoBegin? && Begun(w, step))
    ensures LoggedIsEnqueued(Apply(cred, w, step))
  {
    var v := Apply(cred, w, step);
    KeysKept(cred, w, step);
    JobsKept(cred, w, step);
    forall d, n | d in v.devices && n in v.devices[d].log ensures exists j :: j in v.enqueued && j.nonce == n {
      LoggedBefore(cred, w, step, d);
    }
  }

  lemma LoggedBegun(w: World, d: string, r: Record)
    requires d in w.devices && LoggedIsEnqueued(w) && exists j :: j in w.enqueued && j.nonce == NonceOf(r)
    ensures LoggedIsEnqueued(AfterRemember(w, d, r))
  {
  }

  lemma LoggedStep(cred: string -> Secret, w: World, step: Step)
    requires Inv(cred, w) && LoggedIsEnqueued(w) && Enabled(w, step)
    ensures LoggedIsEnqueued(Apply(cred, w, step))
  {
    if step.DoBegin? && Begun(w, step) {
      BegunIsEnqueued(cred, w, step);
      LoggedBegun(w, step.device, step.payload);
      BegunLog(cred, w, step);
    } else {
      LoggedOtherwise(cred, w, step);
    }
  }

  lemma {:induction false} LoggedAlways(cred: string -> Secret, w: World, run: seq<Step>, start: World)
    requires Reachable(cred, w, run, start)
    ensures LoggedIsEnqueued(w)
    decreases |run|
  {
    if run == [] {
    } else {
      var n := |run| - 1;
      var v :| Reachable(cred, v, run[..n], start) && Enabled(v, run[n]) && w == Apply(cred, v, run[n]);
      LoggedAlways(cred, v, run[..n], start);
      ReachableInv(cred, v, run[..n], start);
      LoggedStep(cred, v, run[n]);
    }
  }

  /** A job whose nonce is one of the 4096 largest tokens is executed at most once in every run. */
  lemma HighNonceOnce(cred: string -> Secret, w: World, run: seq<Step>, start: World, j: Job)
    requires Reachable(cred, w, run, start) && OnlyTokens(w) && j in w.enqueued && Leq(HighToken(0), j.nonce)
    ensures Executed(w.executions, j.device, j.nonce) <= 1
  {
    LoggedAlways(cred, w, run, start);
    if j.device in w.devices {
      var E := Elements(w.devices[j.device].log);
      forall x | x in E ensures IsToken(x) {
        var i :| i in w.enqueued && i.nonce == x;
      }
      FewAbove(E, j.nonce);
    }
    AtMostOnce(cred, w, run, start, j);
  }

  ghost predicate RunsTwice(cred: string -> Secret, start: World, w: World, run: seq<Step>, n: string) {
    && Reachable(cred, w, run, start) && OnlyTokens(w)
    && exists j :: j in w.enqueued && j.nonce == n && Executed(w.executions, j.device, n) >= 2
  }

  /** Over all runs in which the controller draws 32 hexadecimal digits: a job can be executed twice exactly when
      its nonce is below the 4096 largest tokens. */
  lemma TwiceIff(cred: string -> Secret, n: string)
    requires IsToken(n)
    ensures (exists start, w, run :: RunsTwice(cred, start, w, run, n)) <==> Less(n, HighToken(0))
  {
    if Less(n, HighToken(0)) {
      var start, w, run := ExecutedTwice(cred, n);
      assert JobFor(n) in w.enqueued && JobFor(n).nonce == n;
      assert RunsTwice(cred, start, w, run, n);
    } else {
      LeqTotal(n, HighToken(0));
      forall start, w, run ensures !RunsTwice(cred, start, w, run, n) {
        if RunsTwice(cred, start, w, run, n) {
          var j :| j in w.enqueued && j.nonce == n && Executed(w.executions, j.device, n) >= 2;
          HighNonceOnce(cred, w, run, start, j);
        }
      }
    }
  }
}
