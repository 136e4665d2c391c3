/** Which verdicts of the task daemon are final: a task can leave VERIFIED or FAILED exactly when some worker
    still holds it at a point from which it can write something else. */
module TaskReopening {
  import opened Common
  import opened TaskDaemon
  import opened TaskRuns

  /** The states a worker at this point may still write, by what it knows of the row. Before the row is read back
      that is the row in the table; afterwards it is the worker's copy. */
  predicate MayWrite(caps: set<string>, row: Task, at: Point, x: TaskState) {
    match at
    case Leased => if row.capability in caps then MayDecide(row, x) else x.Failed?
    case RowRead => if row.capability in caps then MayDecide(row, x) else x.Failed?
    case FailureNoted => x.Failed?
    case StartNoted => MayDecide(row, x)
    case ResultNoted => MayDecide(row, x)
    case VerdictNoted(pass) => if pass then x.Verified? else x.Failed?
    case ErrorNoted(retry, _) => if retry then x.RetryWait? else x.Failed?
  }

  /** Either verdict, and a retry while the copy of the row counts at most three attempts. */
  predicate MayDecide(row: Task, x: TaskState) {
    x.Verified? || x.Failed? || (x.RetryWait? && row.attempts + 1 < MAX_ATTEMPTS)
  }

  function RowSeen(s: System, h: Stage): Task
    requires h.Holding? && h.id in s.tasks
  {
    if h.at.Leased? then s.tasks[h.id] else h.row
  }

  /** Worker w holds the task and may still write x to it. */
  predicate Threatens(caps: set<string>, s: System, w: string, id: string, x: TaskState) {
    var h := StageOf(s, w);
    h.Holding? && h.id == id && id in s.tasks && MayWrite(caps, RowSeen(s, h), h.at, x)
  }

  ghost predicate Reopenable(caps: set<string>, s: System, id: string) {
    id in s.tasks && exists w, x :: Threatens(caps, s, w, id, x) && x != s.tasks[id].state
  }

  /** A continuation from s. */
  ghost predicate Continues(caps: set<string>, s: System, states: seq<System>, steps: seq<Step>) {
    && |states| == |steps| + 1 && states[0] == s
    && forall i :: 0 <= i < |steps| ==>
         Enabled(caps, states[i], steps[i]) && states[i + 1] == Apply(caps, states[i], steps[i])
  }

  /** Some continuation from s takes the task to another state. */
  ghost predicate Leaves(caps: set<string>, s: System, id: string) {
    exists states, steps, n: nat {:trigger ReachesAnother(caps, s, id, states, steps, n)} ::
      ReachesAnother(caps, s, id, states, steps, n)
  }

  ghost predicate ReachesAnother(caps: set<string>, s: System, id: string, states: seq<System>, steps: seq<Step>,
                                 n: nat) {
    && id in s.tasks && Continues(caps, s, states, steps) && n <= |steps|
    && (id in states[n].tasks ==> states[n].tasks[id].state != s.tasks[id].state)
  }

  // ---- Without a threat the verdict is final ----

  /** What a worker threatens after a step that leaves the task's row alone, it threatened before. */
  lemma ThreatBefore(caps: set<string>, s: System, step: Step, w: string, id: string, x: TaskState)
    requires Enabled(caps, s, step) && id in s.tasks && Terminal(s.tasks[id].state)
    requires id in Apply(caps, s, step).tasks && Apply(caps, s, step).tasks[id] == s.tasks[id]
    requires Threatens(caps, Apply(caps, s, step), w, id, x)
    ensures Threatens(caps, s, w, id, x)
  {
  }

  /** A finishing write writes only what its worker threatened to write. */
  lemma FinishWasThreat(caps: set<string>, s: System, step: Step, id: string)
    requires Enabled(caps, s, step) && id in s.tasks && Finishes(s, step) && StageOf(s, step.w).id == id
    ensures Threatens(caps, s, step.w, id, Apply(caps, s, step).tasks[id].state)
  {
  }

  lemma OtherThreatBefore(caps: set<string>, s: System, step: Step, w: string, id: string, x: TaskState)
    requires Enabled(caps, s, step) && id in s.tasks && Finishes(s, step) && StageOf(s, step.w).id == id
    requires Threatens(caps, Apply(caps, s, step), w, id, x)
    ensures Threatens(caps, s, w, id, x)
  {
  }

  lemma FinalStep(caps: set<string>, s: System, step: Step, id: string)
    requires Enabled(caps, s, step) && id in s.tasks && Terminal(s.tasks[id].state) && !Reopenable(caps, s, id)
    ensures var s' := Apply(caps, s, step);
            id in s'.tasks && s'.tasks[id].state == s.tasks[id].state && !Reopenable(caps, s', id)
  {
    var s' := Apply(caps, s, step);
    TerminalStep(caps, s, step, id);
    if s'.tasks[id] != s.tasks[id] { FinishWasThreat(caps, s, step, id); }
    assert s'.tasks[id].state == s.tasks[id].state;
    if Reopenable(caps, s', id) {
      var w, x :| Threatens(caps, s', w, id, x) && x != s'.tasks[id].state;
      if s'.tasks[id] == s.tasks[id] {
        ThreatBefore(caps, s, step, w, id, x);
      } else {
        OtherThreatBefore(caps, s, step, w, id, x);
      }
    }
  }

  lemma {:induction false} FinalForever(caps: set<string>, s: System, id: string, states: seq<System>,
                                        steps: seq<Step>, n: nat)
    requires Continues(caps, s, states, steps) && n <= |steps|
    requires id in s.tasks && Terminal(s.tasks[id].state) && !Reopenable(caps, s, id)
    ensures id in states[n].tasks && states[n].tasks[id].state == s.tasks[id].state && !Reopenable(caps, states[n], id)
  {
    if n == 0 {
    } else {
      FinalForever(caps, s, id, states, steps, n - 1);
      FinalStep(caps, states[n - 1], steps[n - 1], id);
    }
  }

  // ---- Every threat can be carried out ----

  /** How many steps a worker is away from its finishing write, at most. */
  function Distance(at: Point): nat {
    match at
    case Leased => 5
    case RowRead => 4
    case StartNoted => 3
    case ResultNoted => 2
    case _ => 1
  }

  /** The next step of worker w on its way to writing x. */
  function Toward(caps: set<string>, s: System, w: string, x: TaskState): Step
    requires StageOf(s, w).Holding?
  {
    var h := StageOf(s, w);
    match h.at
    case Leased => ReadRow(w)
    case RowRead => if h.row.capability in caps then NoteStart(w) else NoteUnregistered(w)
    case StartNoted => if x.RetryWait? then NoteError(w, 0, 0) else NoteResult(w)
    case ResultNoted => if x.RetryWait? then NoteError(w, 0, 0) else NoteVerdict(w, x.Verified?)
    case FailureNoted => FinishUnregistered(w)
    case VerdictNoted(_) => FinishVerdict(w)
    case ErrorNoted(_, _) => FinishError(w, "")
  }

  /** One such step either writes x or brings the worker closer to writing it. */
  lemma TowardStep(caps: set<string>, s: System, w: string, id: string, x: TaskState)
    requires Threatens(caps, s, w, id, x)
    ensures var step := Toward(caps, s, w, x);
            && Enabled(caps, s, step)
            && var s' := Apply(caps, s, step);
            && id in s'.tasks
            && (Distance(StageOf(s, w).at) == 1 ==> s'.tasks[id].state == x)
            && (Distance(StageOf(s, w).at) > 1 ==>
                  s'.tasks == s.tasks && Threatens(caps, s', w, id, x)
                  && Distance(StageOf(s', w).at) < Distance(StageOf(s, w).at))
  {
  }

  lemma Prepend(caps: set<string>, s: System, step: Step, states: seq<System>, steps: seq<Step>)
    requires Enabled(caps, s, step) && Continues(caps, Apply(caps, s, step), states, steps)
    ensures Continues(caps, s, [s] + states, [step] + steps)
  {
    var all, path := [s] + states, [step] + steps;
    forall i | 0 <= i < |path| ensures Enabled(caps, all[i], path[i]) && all[i + 1] == Apply(caps, all[i], path[i]) {
      if i > 0 { assert all[i] == states[i - 1] && path[i] == steps[i - 1] && all[i + 1] == states[i]; }
    }
  }

  /** The continuation in which only worker w acts, until it has written x. */
  lemma {:induction false} CarryOut(caps: set<string>, s: System, w: string, id: string, x: TaskState)
    returns (states: seq<System>, steps: seq<Step>)
    requires Threatens(caps, s, w, id, x)
    ensures Continues(caps, s, states, steps) && id in states[|steps|].tasks && states[|steps|].tasks[id].state == x
    decreases Distance(StageOf(s, w).at)
  {
    var step := Toward(caps, s, w, x);
    TowardStep(caps, s, w, id, x);
    var next := Apply(caps, s, step);
    if Distance(StageOf(s, w).at) == 1 {
      states, steps := [s, next], [step];
    } else {
      var rest, path := CarryOut(caps, next, w, id, x);
      Prepend(caps, s, step, rest, path);
      states, steps := [s] + rest, [step] + path;
    }
  }

  // ---- Main results ----

  /** A verdict can be left exactly when some worker holds the task at a point from which it can write another
      state. This holds of every system, so of every state of every run. */
  lemma TerminalLeftIff(caps: set<string>, s: System, id: string)
    requires id in s.tasks && Terminal(s.tasks[id].state)
    ensures Leaves(caps, s, id) <==> Reopenable(caps, s, id)
  {
    if Reopenable(caps, s, id) {
      var w, x :| Threatens(caps, s, w, id, x) && x != s.tasks[id].state;
      var states, steps := CarryOut(caps, s, w, id, x);
      assert ReachesAnother(caps, s, id, states, steps, |steps|);
    } else if Leaves(caps, s, id) {
      var states, steps, n: nat :| ReachesAnother(caps, s, id, states, steps, n);
      FinalForever(caps, s, id, states, steps, n);
    }
  }

  ghost predicate Unheld(s: System, id: string) {
    forall w :: !(StageOf(s, w).Holding? && StageOf(s, w).id == id)
  }

  lemma UnheldStep(caps: set<string>, s: System, step: Step, id: string)
    requires Enabled(caps, s, step) && id in s.tasks && Terminal(s.tasks[id].state) && Unheld(s, id)
    ensures Apply(caps, s, step).tasks.Keys >= s.tasks.Keys && Apply(caps, s, step).tasks[id] == s.tasks[id]
    ensures Unheld(Apply(caps, s, step), id)
  {
    var s' := Apply(caps, s, step);
    TerminalStep(caps, s, step, id);
    forall w ensures !(StageOf(s', w).Holding? && StageOf(s', w).id == id) {
      assert !(StageOf(s, w).Holding? && StageOf(s, w).id == id);
    }
  }

  /** A decided task that no worker holds keeps its whole row, and stays unheld, in every continuation. */
  lemma {:induction false} UnheldAbsorbing(caps: set<string>, s: System, id: string, states: seq<System>,
                                           steps: seq<Step>, n: nat)
    requires Continues(caps, s, states, steps) && n <= |steps|
    requires id in s.tasks && Terminal(s.tasks[id].state) && Unheld(s, id)
    ensures id in states[n].tasks && states[n].tasks[id] == s.tasks[id] && Unheld(states[n], id)
  {
    if n == 0 {
    } else {
      UnheldAbsorbing(caps, s, id, states, steps, n - 1);
      UnheldStep(caps, states[n - 1], steps[n - 1], id);
    }
  }
}
