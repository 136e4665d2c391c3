/** Runs of the task daemon: any interleaving of any number of workers, with crashes, over one table. */
module TaskRuns {
  import opened Common
  import opened TaskDaemon

  /** How far a worker is inside `execute_one`. */
  datatype Point =
    | Leased
    | RowRead
    | FailureNoted
    | StartNoted
    | ResultNoted
    | VerdictNoted(pass: bool)
    | ErrorNoted(retry: bool, nextAt: int)

  /** `claim` is history: the attempt count this worker's own claim wrote. `row` is what the worker's copy of the
      row says: `claim` commits before it reads the row back, so both the table and the copy may be newer. */
  datatype Stage = Idle | Holding(id: string, claim: nat, row: Task, at: Point)

  /** `recoveries` and `lost` are history: lease recoveries per task, and the workers whose current claim
      has been recovered. */
  datatype System = System(tasks: Table, evidence: seq<Evidence>, workers: map<string, Stage>,
                           recoveries: map<string, nat>, lost: set<string>)

  datatype Step =
    | Enqueue(id: string, capability: string, key: string, createdAt: int)
    | RecoverLeases(w: string, now: int)
    | ClaimTask(w: string, id: string, now: int)
    | ReadRow(w: string)
    | NoteUnregistered(w: string)
    | NoteStart(w: string)
    | NoteResult(w: string)
    | NoteVerdict(w: string, pass: bool)
    | NoteError(w: string, now: int, jitter: nat)
    | FinishVerdict(w: string)
    | FinishError(w: string, msg: string)
    | FinishUnregistered(w: string)
    | Crash(w: string)

  function StageOf(s: System, w: string): Stage {
    if w in s.workers then s.workers[w] else Idle
  }

  predicate At(s: System, w: string, p: Point) {
    StageOf(s, w).Holding? && StageOf(s, w).at == p
  }

  function RecoveriesOf(s: System, id: string): nat {
    if id in s.recoveries then s.recoveries[id] else 0
  }

  /** `caps` is the set of registered capabilities. */
  predicate Enabled(caps: set<string>, s: System, step: Step) {
    match step
    case Enqueue(id, _, key, _) =>
      id !in s.tasks && forall t :: t in s.tasks ==> s.tasks[t].idempotencyKey != key
    case RecoverLeases(w, _) => StageOf(s, w).Idle?
    case ClaimTask(w, id, now) => StageOf(s, w).Idle? && Oldest(s.tasks, now, id)
    case ReadRow(w) => At(s, w, Leased) && StageOf(s, w).id in s.tasks
    case NoteUnregistered(w) => At(s, w, RowRead) && StageOf(s, w).row.capability !in caps
    case NoteStart(w) => At(s, w, RowRead) && StageOf(s, w).row.capability in caps
    case NoteResult(w) => At(s, w, StartNoted)
    case NoteVerdict(w, _) => At(s, w, ResultNoted)
    // The handler, and encoding or verifying its result, can raise what is caught; the writes after that cannot.
    case NoteError(w, _, jitter) => jitter <= 7 && (At(s, w, StartNoted) || At(s, w, ResultNoted))
    case FinishVerdict(w) => StageOf(s, w).Holding? && StageOf(s, w).at.VerdictNoted?
    case FinishError(w, _) => StageOf(s, w).Holding? && StageOf(s, w).at.ErrorNoted?
    case FinishUnregistered(w) => At(s, w, FailureNoted)
    case Crash(w) => true
  }

  function Move(s: System, w: string, stage: Stage): System {
    s.(workers := s.workers[w := stage], lost := if stage.Idle? then s.lost - {w} else s.lost)
  }

  function Note(s: System, w: string, kind: Kind, p: Point): System
    requires StageOf(s, w).Holding?
  {
    var h := StageOf(s, w);
    Move(s, w, h.(at := p)).(evidence := s.evidence + [Evidence(h.id, kind)])
  }

  function AfterRecover(s: System, now: int): System {
    s.(tasks := Recover(s.tasks, now),
       recoveries := map id | id in s.tasks :: RecoveriesOf(s, id) + if Expired(s.tasks[id], now) then 1 else 0,
       lost := s.lost + set v | v in s.workers && s.workers[v].Holding? && s.workers[v].id in s.tasks
                                && Expired(s.tasks[s.workers[v].id], now))
  }

  function Apply(caps: set<string>, s: System, step: Step): System
    requires Enabled(caps, s, step)
  {
    match step
    case Enqueue(id, capability, key, createdAt) =>
      s.(tasks := s.tasks[id := Task(capability, key, Queued, createdAt, None, None, 0, 0, None)])
    case RecoverLeases(_, now) => AfterRecover(s, now)
    case ClaimTask(w, id, now) =>
      var t := Claimed(s.tasks[id], w, now);
      Move(s, w, Holding(id, t.attempts, t, Leased)).(tasks := s.tasks[id := t])
    case ReadRow(w) =>
      var h := StageOf(s, w);
      Move(s, w, h.(row := s.tasks[h.id], at := RowRead))
    case NoteUnregistered(w) => Note(s, w, ExecutionFailed, FailureNoted)
    case NoteStart(w) => Note(s, w, ExecutionStart, StartNoted)
    case NoteResult(w) => Note(s, w, ExecutionResult, ResultNoted)
    case NoteVerdict(w, pass) => Note(s, w, Verification(pass), VerdictNoted(pass))
    case NoteError(w, now, jitter) =>
      var attempt := StageOf(s, w).row.attempts + 1;
      var retry := attempt < MAX_ATTEMPTS;
      var nextAt := if retry then now + Delay(attempt, jitter) else 0;
      Note(s, w, ExecutionError(attempt, nextAt), ErrorNoted(retry, nextAt))
    case FinishVerdict(w) => Finish(s, step)
    case FinishError(w, _) => Finish(s, step)
    case FinishUnregistered(w) => Finish(s, step)
    case Crash(w) => Move(s, w, Idle)
  }

  predicate Finishes(s: System, step: Step) {
    (step.FinishVerdict? || step.FinishError? || step.FinishUnregistered?)
    && StageOf(s, step.w).Holding?
    && (step.FinishVerdict? ==> StageOf(s, step.w).at.VerdictNoted?)
    && (step.FinishError? ==> StageOf(s, step.w).at.ErrorNoted?)
  }

  /** What the final UPDATE makes of the row, whoever owns its lease by then. */
  function FinishedRow(t: Task, step: Step, at: Point): Task
    requires step.FinishVerdict? ==> at.VerdictNoted?
    requires step.FinishError? ==> at.ErrorNoted?
  {
    match step
    case FinishVerdict(_) => Decided(t, at.pass)
    case FinishError(_, msg) => Errored(t, at.retry, at.nextAt, msg)
    case _ => Unregistered(t)
  }

  function Finish(s: System, step: Step): System
    requires Finishes(s, step)
  {
    var h := StageOf(s, step.w);
    var s' := Move(s, step.w, Idle);
    if h.id in s.tasks then s'.(tasks := s.tasks[h.id := FinishedRow(s.tasks[h.id], step, h.at)]) else s'
  }

  predicate Initial(s: System) {
    s.tasks == map[] && s.evidence == [] && s.workers == map[] && s.recoveries == map[] && s.lost == {}
  }

  /** states[i] --steps[i]--> states[i + 1], from the empty table. */
  ghost predicate IsRun(caps: set<string>, states: seq<System>, steps: seq<Step>) {
    && |states| == |steps| + 1
    && Initial(states[0])
    && forall i :: 0 <= i < |steps|
         ==> Enabled(caps, states[i], steps[i]) && states[i + 1] == Apply(caps, states[i], steps[i])
  }

  /** A task is enqueued unclaimed, without a lease, an attempt or an error, and due from the start. */
  lemma EnqueuedRow(caps: set<string>, s: System, step: Step)
    requires step.Enqueue? && Enabled(caps, s, step)
    ensures var s' := Apply(caps, s, step);
            && step.id !in s.tasks && s'.tasks.Keys == s.tasks.Keys + {step.id}
            && (forall id :: id in s.tasks ==> s'.tasks[id] == s.tasks[id])
            && var row := s'.tasks[step.id];
            && row.state == Queued && row.attempts == 0 && row.nextAttemptAt == 0
            && row.leaseOwner == None && row.leaseUntil == None && row.lastError == None
            && row.capability == step.capability && row.idempotencyKey == step.key && row.createdAt == step.createdAt
  {
  }

  // ---- Invariants of every run ----

  predicate HolderOk(s: System, w: string) {
    var h := StageOf(s, w);
    h.Holding? ==>
      && h.id in s.tasks
      && 1 <= h.claim <= h.row.attempts <= s.tasks[h.id].attempts
      && (h.at.VerdictNoted? ==> Evidence(h.id, Verification(h.at.pass)) in s.evidence)
      && (h.at.ErrorNoted? ==> h.at.retry == (h.row.attempts + 1 < MAX_ATTEMPTS))
  }

  predicate TaskOk(s: System, id: string) {
    id in s.tasks ==>
      && (s.tasks[id].state.Running? ==> s.tasks[id].leaseOwner.Some? && s.tasks[id].leaseUntil.Some?)
      && (s.tasks[id].state.Verified? ==> Evidence(id, Verification(true)) in s.evidence)
  }

  /** Every claim of a task has its own attempt number. */
  predicate ClaimsDiffer(s: System, v: string, w: string) {
    v != w && StageOf(s, v).Holding? && StageOf(s, w).Holding? && StageOf(s, v).id == StageOf(s, w).id
    ==> StageOf(s, v).claim != StageOf(s, w).claim
  }

  ghost predicate Inv(s: System) {
    && (forall w :: HolderOk(s, w))
    && (forall id :: TaskOk(s, id))
    && (forall v, w :: ClaimsDiffer(s, v, w))
  }

  lemma HolderStep(caps: set<string>, s: System, step: Step, w: string)
    requires HolderOk(s, w) && Enabled(caps, s, step)
    ensures HolderOk(Apply(caps, s, step), w)
  {
  }

  lemma TaskStep(caps: set<string>, s: System, step: Step, id: string)
    requires TaskOk(s, id) && Enabled(caps, s, step)
    requires Finishes(s, step) ==> HolderOk(s, step.w)
    ensures TaskOk(Apply(caps, s, step), id)
  {
  }

  lemma DifferStep(caps: set<string>, s: System, step: Step, v: string, w: string)
    requires ClaimsDiffer(s, v, w) && HolderOk(s, v) && HolderOk(s, w) && Enabled(caps, s, step)
    ensures ClaimsDiffer(Apply(caps, s, step), v, w)
  {
  }

  lemma StepInv(caps: set<string>, s: System, step: Step)
    requires Inv(s) && Enabled(caps, s, step)
    ensures Inv(Apply(caps, s, step))
  {
    var s' := Apply(caps, s, step);
    forall w ensures HolderOk(s', w) { HolderStep(caps, s, step, w); }
    forall id ensures TaskOk(s', id) { TaskStep(caps, s, step, id); }
    forall v, w ensures ClaimsDiffer(s', v, w) { DifferStep(caps, s, step, v, w); }
  }

  lemma {:induction false} RunInv(caps: set<string>, states: seq<System>, steps: seq<Step>, n: nat)
    requires IsRun(caps, states, steps) && n <= |steps|
    ensures Inv(states[n])
  {
    if n == 0 {
    } else {
      RunInv(caps, states, steps, n - 1);
      StepInv(caps, states[n - 1], steps[n - 1]);
    }
  }

  /** In every state of every run, RUNNING carries a lease and VERIFIED has a recorded PASS verification. */
  lemma LeasesAndVerdicts(caps: set<string>, states: seq<System>, steps: seq<Step>, n: nat, id: string)
    requires IsRun(caps, states, steps) && n <= |steps| && id in states[n].tasks
    ensures states[n].tasks[id].state.Running?
            ==> states[n].tasks[id].leaseOwner.Some? && states[n].tasks[id].leaseUntil.Some?
    ensures states[n].tasks[id].state.Verified? ==> Evidence(id, Verification(true)) in states[n].evidence
  {
    RunInv(caps, states, steps, n);
    assert TaskOk(states[n], id);
  }

  // ---- Attempts are bounded by the lease recoveries ----

  /** Claim number c of the task may still end in a retry: it has not happened yet, or it is being held. */
  ghost predicate Open(s: System, id: string, c: nat) {
    id !in s.tasks || s.tasks[id].attempts < c || exists w :: HoldsClaim(s, w, id, c)
  }

  predicate HoldsClaim(s: System, w: string, id: string, c: nat) {
    StageOf(s, w).Holding? && StageOf(s, w).id == id && StageOf(s, w).claim == c
  }

  ghost function Bit(b: bool): nat { if b then 1 else 0 }

  /** Claims made, plus the claim the task is ready for, plus the retries still possible. */
  ghost function Potential(s: System, id: string): nat
    requires id in s.tasks
  {
    s.tasks[id].attempts + Bit(Claimable(s.tasks[id])) + Bit(Open(s, id, 1)) + Bit(Open(s, id, 2)) + Bit(Open(s, id, 3))
  }

  ghost predicate Bounded(s: System, id: string) {
    id in s.tasks ==> Potential(s, id) <= 4 + RecoveriesOf(s, id)
  }

  /** A step that neither claims nor finishes opens nothing. */
  lemma OpenKept(s: System, s': System, id: string, c: nat)
    requires id in s.tasks && id in s'.tasks && s'.tasks[id].attempts == s.tasks[id].attempts
    requires forall w :: HoldsClaim(s', w, id, c) ==> HoldsClaim(s, w, id, c)
    ensures Open(s', id, c) ==> Open(s, id, c)
  {
    if Open(s', id, c) && s'.tasks[id].attempts >= c {
      var w :| HoldsClaim(s', w, id, c);
      assert HoldsClaim(s, w, id, c);
    }
  }

  lemma ClaimBounded(caps: set<string>, s: System, step: Step, id: string)
    requires Inv(s) && Enabled(caps, s, step) && step.ClaimTask? && Bounded(s, id)
    ensures Bounded(Apply(caps, s, step), id)
  {
    var s' := Apply(caps, s, step);
    if id in s.tasks {
      forall c: nat | 1 <= c <= 3 ensures Open(s', id, c) ==> Open(s, id, c) {
        if Open(s', id, c) && s'.tasks[id].attempts >= c && s.tasks[id].attempts >= c {
          var w :| HoldsClaim(s', w, id, c);
          assert HoldsClaim(s, w, id, c);
        }
      }
    }
  }

  lemma FinishBounded(caps: set<string>, s: System, step: Step, id: string)
    requires Inv(s) && Enabled(caps, s, step) && Finishes(s, step) && Bounded(s, id)
    ensures Bounded(Apply(caps, s, step), id)
  {
    var s' := Apply(caps, s, step);
    var h := StageOf(s, step.w);
    assert HolderOk(s, step.w);
    if id in s.tasks {
      forall c: nat | 1 <= c <= 3 ensures Open(s', id, c) ==> Open(s, id, c) { OpenKept(s, s', id, c); }
      if id == h.id && h.at.ErrorNoted? && h.at.retry {
        var c := h.claim;
        assert HoldsClaim(s, step.w, id, c);
        assert Open(s, id, c);
        forall w ensures !HoldsClaim(s', w, id, c) { assert ClaimsDiffer(s, w, step.w); }
      }
    }
  }

  lemma OtherBounded(caps: set<string>, s: System, step: Step, id: string)
    requires Inv(s) && Enabled(caps, s, step) && !step.ClaimTask? && !Finishes(s, step) && Bounded(s, id)
    ensures Bounded(Apply(caps, s, step), id)
  {
    var s' := Apply(caps, s, step);
    if id in s.tasks {
      forall c: nat | 1 <= c <= 3 ensures Open(s', id, c) ==> Open(s, id, c) { OpenKept(s, s', id, c); }
    }
  }

  lemma {:induction false} RunBounded(caps: set<string>, states: seq<System>, steps: seq<Step>, n: nat, id: string)
    requires IsRun(caps, states, steps) && n <= |steps|
    ensures Bounded(states[n], id)
  {
    if n == 0 {
    } else {
      RunBounded(caps, states, steps, n - 1, id);
      RunInv(caps, states, steps, n - 1);
      var s, step := states[n - 1], steps[n - 1];
      if step.ClaimTask? { ClaimBounded(caps, s, step, id); }
      else if Finishes(s, step) { FinishBounded(caps, s, step, id); }
      else { OtherBounded(caps, s, step, id); }
    }
  }

  /** The step resets this task, which is RUNNING on a lease that has run out. */
  predicate Resets(s: System, step: Step, id: string) {
    && step.RecoverLeases? && id in s.tasks
    && var row := s.tasks[id];
    && row.state == Running && row.leaseUntil.Some? && row.leaseUntil.value < step.now
  }

  ghost function RecoveryMoments(states: seq<System>, steps: seq<Step>, id: string, n: nat): set<nat>
    requires n <= |states| && n <= |steps|
  {
    set i: nat | i < n && Resets(states[i], steps[i], id)
  }

  lemma OneMoment(states: seq<System>, steps: seq<Step>, id: string, i: nat)
    requires i < |states| && i < |steps|
    ensures |RecoveryMoments(states, steps, id, i + 1)|
            == |RecoveryMoments(states, steps, id, i)| + if Resets(states[i], steps[i], id) then 1 else 0
  {
    var before, after := RecoveryMoments(states, steps, id, i), RecoveryMoments(states, steps, id, i + 1);
    assert i !in before;
    forall k: nat ensures k in after <==> k in before || (k == i && Resets(states[i], steps[i], id)) {
      assert k < i + 1 <==> k < i || k == i;
    }
    if Resets(states[i], steps[i], id) {
      assert after == before + {i};
    } else {
      assert after == before;
    }
  }

  lemma RecoveryStep(caps: set<string>, s: System, step: Step, id: string)
    requires Enabled(caps, s, step) && (id !in s.tasks ==> RecoveriesOf(s, id) == 0)
    ensures var s' := Apply(caps, s, step);
            && (id !in s'.tasks ==> RecoveriesOf(s', id) == 0)
            && RecoveriesOf(s', id) == RecoveriesOf(s, id) + if Resets(s, step, id) then 1 else 0
  {
  }

  lemma {:induction false} RecoveriesCounted(caps: set<string>, states: seq<System>, steps: seq<Step>, n: nat,
                                             id: string)
    requires IsRun(caps, states, steps) && n <= |steps|
    ensures RecoveriesOf(states[n], id) == |RecoveryMoments(states, steps, id, n)|
    ensures id !in states[n].tasks ==> RecoveriesOf(states[n], id) == 0
  {
    if n == 0 {
      assert RecoveryMoments(states, steps, id, 0) == {};
    } else {
      var i := n - 1;
      RecoveriesCounted(caps, states, steps, i, id);
      RecoveryStep(caps, states[i], steps[i], id);
      OneMoment(states, steps, id, i);
    }
  }

  /** In every interleaving, late finishes included, a task is claimed at most four times plus once for
      each recovery of its lease, that is for each moment at which its expired lease was reset. */
  lemma AttemptsBounded(caps: set<string>, states: seq<System>, steps: seq<Step>, n: nat, id: string)
    requires IsRun(caps, states, steps) && n <= |steps| && id in states[n].tasks
    ensures RecoveriesOf(states[n], id) == |RecoveryMoments(states, steps, id, n)|
    ensures states[n].tasks[id].attempts <= 4 + RecoveriesOf(states[n], id)
    ensures Claimable(states[n].tasks[id]) ==> states[n].tasks[id].attempts <= 3 + RecoveriesOf(states[n], id)
  {
    RunBounded(caps, states, steps, n, id);
    RecoveriesCounted(caps, states, steps, n, id);
  }

  // ---- Backoff ----

  /** After claim number c (1 to 3) the backoff is 5 * 2^(c+1) plus a jitter of at most 7 seconds: the cap of
      900 s is never reached, and every window lies strictly below the next one. */
  lemma BackoffWindow(c: nat, jitter: nat)
    requires 1 <= c && c + 1 < MAX_ATTEMPTS && jitter <= 7
    ensures 5 * Pow2(c + 1) <= Delay(c + 1, jitter) <= 5 * Pow2(c + 1) + 7 < 900
    ensures Delay(c + 1, jitter) == 5 * Pow2(c + 1) + jitter
    ensures 5 * Pow2(c + 1) + 7 < 5 * Pow2(c + 2)
  {
    assert Pow2(2) == 4;
    assert Pow2(3) == 8;
    assert Pow2(4) == 16;
    assert Pow2(5) == 32;
  }

  /** A caught exception schedules a retry exactly when the worker read an attempt count of one to three, inside
      that count's window. The count is the worker's own claim number, or a later one if the row was claimed
      again before the worker read it back. */
  lemma ErrorSchedule(caps: set<string>, states: seq<System>, steps: seq<Step>, n: nat)
    requires IsRun(caps, states, steps) && n < |steps| && steps[n].NoteError?
    ensures var c := StageOf(states[n], steps[n].w).row.attempts;
            var at := StageOf(states[n + 1], steps[n].w).at;
            && 1 <= StageOf(states[n], steps[n].w).claim <= c
            && at.ErrorNoted? && (at.retry <==> c <= 3)
            && (at.retry ==> steps[n].now + 5 * Pow2(c + 1) <= at.nextAt <= steps[n].now + 5 * Pow2(c + 1) + 7)
  {
    RunInv(caps, states, steps, n);
    assert HolderOk(states[n], steps[n].w);
    var c := StageOf(states[n], steps[n].w).row.attempts;
    if c <= 3 { BackoffWindow(c, steps[n].jitter); }
  }

  // ---- The backoff is waited for ----

  /** The seconds that must pass after the c-th failed attempt. */
  function Wait(c: nat): nat {
    if c == 1 then 20 else if c == 2 then 40 else 80
  }

  /** This is no step of the worker's own. */
  predicate Rests(step: Step, w: string) {
    step.Enqueue? || step.w != w
  }

  lemma StaysStep(caps: set<string>, s: System, step: Step, w: string)
    requires Enabled(caps, s, step) && Rests(step, w)
    ensures StageOf(Apply(caps, s, step), w) == StageOf(s, w)
  {
  }

  /** From step e to step f the worker takes no step of its own, so it stays where it is. */
  lemma {:induction false} StaysPut(caps: set<string>, states: seq<System>, steps: seq<Step>, w: string, e: nat, f: nat)
    requires IsRun(caps, states, steps) && e <= f <= |steps|
    requires forall k :: e <= k < f ==> Rests(steps[k], w)
    ensures StageOf(states[f], w) == StageOf(states[e], w)
  {
    if e == f {
    } else {
      StaysPut(caps, states, steps, w, e, f - 1);
      StaysStep(caps, states[f - 1], steps[f - 1], w);
    }
  }

  /** This step claims the task or finishes it. */
  predicate Writes(s: System, step: Step, id: string) {
    (step.ClaimTask? && step.id == id) || (Finishes(s, step) && StageOf(s, step.w).id == id)
  }

  lemma WaitingStep(caps: set<string>, s: System, step: Step, id: string)
    requires Enabled(caps, s, step) && id in s.tasks && s.tasks[id].state.RetryWait? && !Writes(s, step, id)
    ensures id in Apply(caps, s, step).tasks && Apply(caps, s, step).tasks[id] == s.tasks[id]
  {
  }

  /** A row that waits for a retry is left alone until it is claimed or finished. */
  lemma {:induction false} WaitingKept(caps: set<string>, states: seq<System>, steps: seq<Step>, id: string, f: nat,
                                       j: nat)
    requires IsRun(caps, states, steps) && f <= j <= |steps|
    requires id in states[f].tasks && states[f].tasks[id].state.RetryWait?
    requires forall k :: f <= k < j ==> !Writes(states[k], steps[k], id)
    ensures id in states[j].tasks && states[j].tasks[id] == states[f].tasks[id]
  {
    if f == j {
    } else {
      WaitingKept(caps, states, steps, id, f, j - 1);
      WaitingStep(caps, states[j - 1], steps[j - 1], id);
    }
  }

  /** What a worker that noted an error at time `at`, after reading count c, writes at its next own step. */
  lemma RetryWritten(caps: set<string>, states: seq<System>, steps: seq<Step>, e: nat, f: nat)
    requires IsRun(caps, states, steps) && e < f < |steps| && steps[e].NoteError? && steps[f].FinishError?
    requires steps[f].w == steps[e].w && forall k :: e < k < f ==> Rests(steps[k], steps[e].w)
    ensures var h := StageOf(states[e], steps[e].w);
            h.Holding? && h.id in states[f].tasks && (h.row.attempts <= 3 ==>
              && 1 <= h.row.attempts && states[f + 1].tasks[h.id].state.RetryWait?
              && states[f + 1].tasks[h.id].nextAttemptAt >= steps[e].now + Wait(h.row.attempts))
  {
    var w := steps[e].w;
    var c := StageOf(states[e], w).row.attempts;
    StaysPut(caps, states, steps, w, e + 1, f);
    RunInv(caps, states, steps, e);
    RunInv(caps, states, steps, f);
    assert HolderOk(states[e], w) && HolderOk(states[f], w);
    DelaySeconds(steps[e].jitter);
  }

  /** A scheduled retry is waited for: after a worker noted an exception at some time, having read attempt count c,
      and wrote the retry, whoever claims the task next does so at least 20, 40 or 80 seconds after that time, for c
      equal to one, two or three. */
  lemma BackoffWaited(caps: set<string>, states: seq<System>, steps: seq<Step>, e: nat, f: nat, j: nat)
    requires IsRun(caps, states, steps) && e < f < j < |steps| && steps[e].NoteError? && steps[f].FinishError?
    requires steps[f].w == steps[e].w && forall k :: e < k < f ==> Rests(steps[k], steps[e].w)
    requires var h := StageOf(states[e], steps[e].w);
             && h.Holding? && h.row.attempts <= 3 && steps[j].ClaimTask? && steps[j].id == h.id
             && forall k :: f < k < j ==> !Writes(states[k], steps[k], h.id)
    ensures var c := StageOf(states[e], steps[e].w).row.attempts;
            1 <= c && steps[j].now >= steps[e].now + (if c == 1 then 20 else if c == 2 then 40 else 80)
  {
    var id := StageOf(states[e], steps[e].w).id;
    RetryWritten(caps, states, steps, e, f);
    WaitingKept(caps, states, steps, id, f + 1, j);
    assert Oldest(states[j].tasks, steps[j].now, id);
  }

  // ---- Claims of one task are separated ----

  /** This step recovers the expired lease of the task, or finishes it. */
  predicate Releases(s: System, step: Step, id: string) {
    || (step.RecoverLeases? && id in s.tasks && Expired(s.tasks[id], step.now))
    || (Finishes(s, step) && StageOf(s, step.w).id == id)
  }

  lemma RunningStep(caps: set<string>, s: System, step: Step, id: string)
    requires Enabled(caps, s, step) && id in s.tasks && s.tasks[id].state.Running? && !Releases(s, step, id)
    ensures id in Apply(caps, s, step).tasks && Apply(caps, s, step).tasks[id].state.Running?
  {
  }

  lemma {:induction false} RunningUntilReleased(caps: set<string>, states: seq<System>, steps: seq<Step>, i: nat,
                                                j: nat, id: string)
    requires IsRun(caps, states, steps) && i < j <= |steps|
    requires steps[i].ClaimTask? && steps[i].id == id
    requires forall k :: i < k < j ==> !Releases(states[k], steps[k], id)
    ensures id in states[j].tasks && states[j].tasks[id].state.Running?
  {
    if i + 1 >= j {
    } else {
      RunningUntilReleased(caps, states, steps, i, j - 1, id);
      RunningStep(caps, states[j - 1], steps[j - 1], id);
    }
  }

  /** Between any two claims of one task lies a recovery of its expired lease or a finishing write. */
  lemma ClaimsSeparated(caps: set<string>, states: seq<System>, steps: seq<Step>, i: nat, j: nat, id: string)
    requires IsRun(caps, states, steps) && i < j < |steps|
    requires steps[i].ClaimTask? && steps[i].id == id && steps[j].ClaimTask? && steps[j].id == id
    ensures exists k :: i < k < j && Releases(states[k], steps[k], id)
  {
    if forall k :: i < k < j ==> !Releases(states[k], steps[k], id) {
      assert Oldest(states[j].tasks, steps[j].now, id);
      RunningUntilReleased(caps, states, steps, i, j, id);
    }
  }

  // ---- Late finishes ----

  /** The worker's claim is still the task's current one. */
  predicate Owns(s: System, w: string) {
    var h := StageOf(s, w);
    h.Holding? && h.id in s.tasks && s.tasks[h.id].state.Running? && s.tasks[h.id].attempts == h.claim
    && s.tasks[h.id].leaseOwner == Some(w)
  }

  /** A finishing write to the task by a worker whose lease has been recovered since it claimed. */
  predicate LateFinish(s: System, step: Step, id: string) {
    Finishes(s, step) && StageOf(s, step.w).id == id && step.w in s.lost
  }

  /** Among the workers that hold the task, those whose lease was recovered are exactly those that no longer own it. */
  ghost predicate LostInv(s: System, id: string) {
    forall w :: StageOf(s, w).Holding? && StageOf(s, w).id == id ==> (Owns(s, w) <==> w !in s.lost)
  }

  /** Only workers inside a run are listed as lost. */
  ghost predicate LostHold(s: System) {
    forall w :: w in s.lost ==> StageOf(s, w).Holding?
  }

  lemma LostStep(caps: set<string>, s: System, step: Step, id: string)
    requires Inv(s) && LostInv(s, id) && LostHold(s) && Enabled(caps, s, step) && !LateFinish(s, step, id)
    ensures LostInv(Apply(caps, s, step), id) && LostHold(Apply(caps, s, step))
  {
    var s' := Apply(caps, s, step);
    forall w | StageOf(s', w).Holding? && StageOf(s', w).id == id ensures Owns(s', w) <==> w !in s'.lost {
      assert HolderOk(s, w);
      if Finishes(s, step) && StageOf(s, step.w).id == id {
        assert ClaimsDiffer(s, w, step.w);
        assert Owns(s, step.w);
      }
    }
  }

  ghost predicate NoLateFinish(states: seq<System>, steps: seq<Step>, n: nat, id: string)
    requires n <= |steps| && |states| == |steps| + 1
  {
    forall k :: 0 <= k < n ==> !LateFinish(states[k], steps[k], id)
  }

  /** As long as no worker has finished this task late, a worker's claim on it is still current exactly when its
      lease has not been recovered, whatever happens to other tasks. */
  lemma {:induction false} CurrentIffNotRecovered(caps: set<string>, states: seq<System>, steps: seq<Step>, n: nat,
                                                  id: string)
    requires IsRun(caps, states, steps) && n <= |steps| && NoLateFinish(states, steps, n, id)
    ensures LostInv(states[n], id) && LostHold(states[n])
  {
    if n == 0 {
    } else {
      CurrentIffNotRecovered(caps, states, steps, n - 1, id);
      RunInv(caps, states, steps, n - 1);
      LostStep(caps, states[n - 1], steps[n - 1], id);
    }
  }

  predicate Terminal(t: TaskState) {
    t.Verified? || t.Failed?
  }

  /** Only a finishing write to the task itself moves it out of VERIFIED or FAILED. */
  lemma TerminalStep(caps: set<string>, s: System, step: Step, id: string)
    requires Enabled(caps, s, step) && id in s.tasks && Terminal(s.tasks[id].state)
    ensures id in Apply(caps, s, step).tasks
    ensures Apply(caps, s, step).tasks[id] != s.tasks[id] ==> Finishes(s, step) && StageOf(s, step.w).id == id
  {
  }

  /** In every multi-worker run without a late finish of the task, VERIFIED and FAILED are absorbing for it. */
  lemma {:induction false} TerminalAbsorbing(caps: set<string>, states: seq<System>, steps: seq<Step>, m: nat, n: nat,
                                             id: string)
    requires IsRun(caps, states, steps) && m <= n <= |steps| && NoLateFinish(states, steps, n, id)
    requires id in states[m].tasks && Terminal(states[m].tasks[id].state)
    ensures id in states[n].tasks && states[n].tasks[id].state == states[m].tasks[id].state
  {
    if m >= n {
    } else {
      TerminalAbsorbing(caps, states, steps, m, n - 1, id);
      CurrentIffNotRecovered(caps, states, steps, n - 1, id);
      assert !LateFinish(states[n - 1], steps[n - 1], id);
      TerminalStep(caps, states[n - 1], steps[n - 1], id);
    }
  }

  /** At most one process is inside `execute_one` at any time, and only that one acts. */
  ghost predicate SingleWorker(states: seq<System>, steps: seq<Step>)
    requires |states| == |steps| + 1
  {
    forall i :: 0 <= i < |steps| && !steps[i].Enqueue? ==> forall v :: v != steps[i].w ==> StageOf(states[i], v).Idle?
  }

  lemma {:induction false} SingleWorkerNeverLate(caps: set<string>, states: seq<System>, steps: seq<Step>, n: nat,
                                                 id: string)
    requires IsRun(caps, states, steps) && n <= |steps| && SingleWorker(states, steps)
    ensures states[n].lost == {} && NoLateFinish(states, steps, n, id)
  {
    if n == 0 {
    } else {
      SingleWorkerNeverLate(caps, states, steps, n - 1, id);
      var s, step := states[n - 1], steps[n - 1];
      if step.RecoverLeases? {
        assert forall v :: v in s.workers && s.workers[v].Holding? ==> StageOf(s, v).Holding?;
      }
    }
  }

  /** With one worker, restarted any number of times under any names, VERIFIED and FAILED are absorbing. */
  lemma SingleWorkerAbsorbing(caps: set<string>, states: seq<System>, steps: seq<Step>, m: nat, n: nat, id: string)
    requires IsRun(caps, states, steps) && m <= n <= |steps| && SingleWorker(states, steps)
    requires id in states[m].tasks && Terminal(states[m].tasks[id].state)
    ensures id in states[n].tasks && states[n].tasks[id].state == states[m].tasks[id].state
  {
    SingleWorkerNeverLate(caps, states, steps, n, id);
    TerminalAbsorbing(caps, states, steps, m, n, id);
  }

  ghost predicate RunTo(caps: set<string>, states: seq<System>, steps: seq<Step>, last: System) {
    IsRun(caps, states, steps) && last == states[|steps|]
  }

  /** Adds one enabled step to a run. */
  lemma Extend(caps: set<string>, states: seq<System>, steps: seq<Step>, last: System, step: Step)
    returns (more: seq<System>, all: seq<Step>, next: System)
    requires RunTo(caps, states, steps, last) && Enabled(caps, last, step)
    ensures next == Apply(caps, last, step)
    ensures more == states + [next] && all == steps + [step]
    ensures RunTo(caps, more, all, next)
  {
    next := Apply(caps, last, step);
    more, all := states + [next], steps + [step];
    forall i | 0 <= i < |all| ensures Enabled(caps, more[i], all[i]) && more[i + 1] == Apply(caps, more[i], all[i]) {
      if i < |steps| { assert all[i] == steps[i] && more[i] == states[i] && more[i + 1] == states[i + 1]; }
    }
  }

  /** Worker a claims task t and starts it ... */
  lemma StartedWorker() returns (states: seq<System>, steps: seq<Step>, s: System)
    ensures RunTo({"c"}, states, steps, s) && |steps| == 4
    ensures s.tasks == map["t" := Task("c", "k", Running, 0, Some("a"), Some(300), 1, 0, None)]
    ensures s.workers == map["a" := Holding("t", 1, s.tasks["t"], StartNoted)]
  {
    var caps := {"c"};
    s := System(map[], [], map[], map[], {});
    states, steps := [s], [];
    states, steps, s := Extend(caps, states, steps, s, Enqueue("t", "c", "k", 0));
    states, steps, s := Extend(caps, states, steps, s, ClaimTask("a", "t", 0));
    states, steps, s := Extend(caps, states, steps, s, ReadRow("a"));
    states, steps, s := Extend(caps, states, steps, s, NoteStart("a"));
  }

  /** ... and its lease expires and is recovered while its handler runs; ... */
  lemma StalledWorker() returns (states: seq<System>, steps: seq<Step>, s: System)
    ensures RunTo({"c"}, states, steps, s) && |steps| == 5
    ensures s.tasks == map["t" := Task("c", "k", RetryWait, 0, None, None, 1, 301, None)]
    ensures At(s, "a", StartNoted) && StageOf(s, "a").id == "t" && StageOf(s, "a").row.attempts == 1 && "a" in s.lost
    ensures StageOf(s, "b").Idle?
  {
    states, steps, s := StartedWorker();
    assert Expired(s.tasks["t"], 301);
    states, steps, s := Extend({"c"}, states, steps, s, RecoverLeases("b", 301));
  }

  predicate Stalled(s: System) {
    At(s, "a", StartNoted) && StageOf(s, "a").id == "t" && StageOf(s, "a").row.attempts == 1 && "a" in s.lost
  }

  predicate BothHold(s: System, p: Point) {
    "t" in s.tasks && Stalled(s) && At(s, "b", p) && StageOf(s, "b").id == "t"
  }

  /** ... then worker b claims the task ... */
  lemma ClaimedAgain() returns (states: seq<System>, steps: seq<Step>, s: System)
    ensures RunTo({"c"}, states, steps, s) && |steps| == 8 && BothHold(s, StartNoted)
  {
    states, steps, s := StalledWorker();
    states, steps, s := Extend({"c"}, states, steps, s, ClaimTask("b", "t", 301));
    assert BothHold(s, Leased);
    states, steps, s := Extend({"c"}, states, steps, s, ReadRow("b"));
    assert BothHold(s, RowRead) && StageOf(s, "b").row.capability == "c";
    states, steps, s := Extend({"c"}, states, steps, s, NoteStart("b"));
  }

  /** ... and verifies it. */
  lemma VerifiedElsewhere() returns (states: seq<System>, steps: seq<Step>, s: System)
    ensures RunTo({"c"}, states, steps, s) && |steps| == 11
    ensures "t" in s.tasks && s.tasks["t"].state.Verified? && Stalled(s)
  {
    states, steps, s := ClaimedAgain();
    states, steps, s := Extend({"c"}, states, steps, s, NoteResult("b"));
    assert BothHold(s, ResultNoted);
    states, steps, s := Extend({"c"}, states, steps, s, NoteVerdict("b", true));
    assert BothHold(s, VerdictNoted(true));
    states, steps, s := Extend({"c"}, states, steps, s, FinishVerdict("b"));
  }

  /** Two workers are enough for a late finish to undo a verdict: the UPDATE that follows a's exception
      reopens the task that b verified. */
  lemma LateFinishReopens() returns (states: seq<System>, steps: seq<Step>)
    ensures IsRun({"c"}, states, steps) && |steps| == 13
    ensures "t" in states[12].tasks && states[12].tasks["t"].state.Verified?
    ensures "t" in states[13].tasks && states[13].tasks["t"].state.RetryWait?
    ensures LateFinish(states[12], steps[12], "t")
  {
    var s: System;
    states, steps, s := VerifiedElsewhere();
    states, steps, s := Extend({"c"}, states, steps, s, NoteError("a", 302, 0));
    states, steps, s := Extend({"c"}, states, steps, s, FinishError("a", "timeout"));
  }
}
