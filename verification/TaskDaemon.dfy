/** The lease-based task daemon: one shared task table, any number of worker processes.

    Every autocommitted SQL statement is one step; a worker may crash between any two of its statements
    and then only the table and the evidence remain. */
module TaskDaemon {
  import opened Common

  datatype TaskState = Queued | Running | RetryWait | Verified | Failed

  /** A row of the task table. `idempotencyKey` is UNIQUE. */
  datatype Task = Task(capability: string, idempotencyKey: string, state: TaskState, createdAt: int,
                       leaseOwner: Option<string>, leaseUntil: Option<int>, attempts: nat,
                       nextAttemptAt: int, lastError: Option<string>)

  type Table = map<string, Task>

  datatype Kind = ExecutionFailed | ExecutionStart | ExecutionResult | Verification(pass: bool)
                | ExecutionError(attempt: nat, nextAttemptAt: int)

  datatype Evidence = Evidence(taskId: string, kind: Kind)

  const LEASE_SECONDS := 300
  const MAX_ATTEMPTS: nat := 5

  // ---- The SQL statements ----

  /** The rows `recover` resets. */
  predicate Expired(t: Task, now: int) {
    t.state.Running? && t.leaseUntil.Some? && t.leaseUntil.value < now
  }

  function Recovered(t: Task, now: int): Task {
    t.(state := RetryWait, leaseOwner := None, leaseUntil := None, nextAttemptAt := now)
  }

  function Recover(tasks: Table, now: int): Table {
    map id | id in tasks :: if Expired(tasks[id], now) then Recovered(tasks[id], now) else tasks[id]
  }

  predicate Claimable(t: Task) {
    t.state.Queued? || t.state.RetryWait?
  }

  predicate Due(t: Task, now: int) {
    Claimable(t) && t.nextAttemptAt <= now
  }

  /** id is what `ORDER BY created_at LIMIT 1` may return. */
  predicate Oldest(tasks: Table, now: int, id: string) {
    && id in tasks && Due(tasks[id], now)
    && forall other :: other in tasks && Due(tasks[other], now) ==> tasks[id].createdAt <= tasks[other].createdAt
  }

  lemma {:induction false} OldestExists(tasks: Table, due: set<string>)
    requires due != {} && due <= tasks.Keys
    ensures exists row :: row in due && forall t :: t in due ==> tasks[row].createdAt <= tasks[t].createdAt
    decreases |due|
  {
    var x :| x in due;
    if due == {x} {
      assert forall t :: t in due ==> tasks[x].createdAt <= tasks[t].createdAt;
    } else {
      OldestExists(tasks, due - {x});
      var r :| r in due - {x} && forall t :: t in due - {x} ==> tasks[r].createdAt <= tasks[t].createdAt;
      var best := if tasks[x].createdAt < tasks[r].createdAt then x else r;
      forall t | t in due ensures tasks[best].createdAt <= tasks[t].createdAt {
        if t != x { assert t in due - {x}; }
      }
    }
  }

  function Claimed(t: Task, worker: string, now: int): Task {
    t.(state := Running, leaseOwner := Some(worker), leaseUntil := Some(now + LEASE_SECONDS),
       attempts := t.attempts + 1)
  }

  /** The final UPDATE of a run that produced a verdict. It does not look at the current lease owner. */
  function Decided(t: Task, pass: bool): Task {
    t.(state := if pass then Verified else Failed, leaseOwner := None, leaseUntil := None, lastError := None)
  }

  /** The UPDATE for a capability that is not registered: the lease columns stay as they are. */
  function Unregistered(t: Task): Task {
    t.(state := Failed, lastError := Some("capability not registered"))
  }

  /** The final UPDATE after a caught exception. */
  function Errored(t: Task, retry: bool, nextAt: int, msg: string): Task {
    t.(state := if retry then RetryWait else Failed, leaseOwner := None, leaseUntil := None,
       nextAttemptAt := nextAt, lastError := Some(msg))
  }

  function Pow2(n: nat): nat {
    if n == 0 then 1 else 2 * Pow2(n - 1)
  }

  /** Backoff in seconds after an exception; `attempt` is the row's attempt count plus one. */
  function Delay(attempt: nat, jitter: nat): nat {
    if Pow2(attempt) * 5 + jitter < 900 then Pow2(attempt) * 5 + jitter else 900
  }

  /** The backoffs that can occur, in seconds. */
  lemma DelaySeconds(jitter: nat)
    requires jitter <= 7
    ensures Delay(1, jitter) == 10 + jitter && Delay(2, jitter) == 20 + jitter
    ensures Delay(3, jitter) == 40 + jitter && Delay(4, jitter) == 80 + jitter
  {
    assert Pow2(1) == 2 && Pow2(2) == 4 && Pow2(3) == 8 && Pow2(4) == 16;
  }

  /** The backoff never exceeds a quarter of an hour, and is the doubled one wherever that is less. */
  lemma DelayCapped(attempt: nat, jitter: nat)
    ensures Delay(attempt, jitter) <= 900 && Delay(attempt, jitter) <= Pow2(attempt) * 5 + jitter
    ensures Delay(attempt, jitter) == 900 || Delay(attempt, jitter) == Pow2(attempt) * 5 + jitter
  {
  }

  /** The shared database: each method is one autocommitted statement or transaction. */
  class Database {
    var tasks: Table
    var evidence: seq<Evidence>

    constructor ()
      ensures tasks == map[] && evidence == []
    {
      tasks, evidence := map[], [];
    }

    method InsertEvidence(taskId: string, kind: Kind)
      modifies this`evidence
      ensures evidence == old(evidence) + [Evidence(taskId, kind)]
    {
      evidence := evidence + [Evidence(taskId, kind)];
    }

    /** Exactly the running rows whose lease has run out wait for a retry, due at once and without a lease; of them
        nothing else changes, and no other row changes at all. */
    method RecoverLeases(now: int)
      modifies this`tasks
      ensures tasks.Keys == old(tasks).Keys
      ensures forall id :: id in tasks ==>
                var before, after := old(tasks)[id], tasks[id];
                if before.state == Running && before.leaseUntil.Some? && before.leaseUntil.value < now then
                  && after.state == RetryWait && after.leaseOwner == None && after.leaseUntil == None
                  && Due(after, now) && after.nextAttemptAt == now
                  && after.capability == before.capability && after.idempotencyKey == before.idempotencyKey
                  && after.createdAt == before.createdAt && after.attempts == before.attempts
                  && after.lastError == before.lastError
                else
                  after == before
      ensures forall id :: id in tasks ==> !Expired(tasks[id], now)
      ensures tasks == Recover(old(tasks), now)
    {
      tasks := map id | id in tasks :: if Expired(tasks[id], now) then Recovered(tasks[id], now) else tasks[id];
    }

    /** `BEGIN IMMEDIATE`: select the oldest row that is queued or waits for a retry and whose time has come, and
        lease it for 300 seconds; do nothing when there is none. */
    method Claim(worker: string, now: int) returns (id: Option<string>)
      modifies this`tasks
      ensures id.None? <==>
                forall t :: t in old(tasks) && old(tasks)[t].state in {Queued, RetryWait}
                            ==> old(tasks)[t].nextAttemptAt > now
      ensures id.None? ==> tasks == old(tasks)
      ensures id.Some? ==>
                && id.value in old(tasks)
                && var row := old(tasks)[id.value];
                && row.state in {Queued, RetryWait} && row.nextAttemptAt <= now
                && (forall t :: t in old(tasks) && old(tasks)[t].state in {Queued, RetryWait}
                                && old(tasks)[t].nextAttemptAt <= now ==>
                      row.createdAt <= old(tasks)[t].createdAt)
                && tasks == old(tasks)[id.value := row.(state := Running, leaseOwner := Some(worker),
                                                        leaseUntil := Some(now + 300), attempts := row.attempts + 1)]
      ensures id.Some? ==> Oldest(old(tasks), now, id.value)
                           && tasks == old(tasks)[id.value := Claimed(old(tasks)[id.value], worker, now)]
    {
      var due := set t | t in tasks && Due(tasks[t], now);
      if due == {} {
        forall t | t in tasks && tasks[t].state in {Queued, RetryWait} ensures tasks[t].nextAttemptAt > now {
          assert t !in due;
        }
        return None;
      }
      OldestExists(tasks, due);
      var row :| row in due && forall t :: t in due ==> tasks[row].createdAt <= tasks[t].createdAt;
      assert row in tasks && Due(tasks[row], now);
      forall t | t in tasks && tasks[t].state in {Queued, RetryWait} && tasks[t].nextAttemptAt <= now
        ensures tasks[row].createdAt <= tasks[t].createdAt
      {
        assert t in due;
      }
      tasks := tasks[row := Claimed(tasks[row], worker, now)];
      id := Some(row);
    }

    method FinishVerdict(id: string, pass: bool)
      requires id in tasks
      modifies this`tasks
      ensures tasks == old(tasks)[id := Decided(old(tasks)[id], pass)]
      ensures tasks == old(tasks)[id := old(tasks)[id].(state := if pass then Verified else Failed, leaseOwner := None,
                                                        leaseUntil := None, lastError := None)]
    {
      tasks := tasks[id := Decided(tasks[id], pass)];
    }

    method FinishError(id: string, retry: bool, nextAt: int, msg: string)
      requires id in tasks
      modifies this`tasks
      ensures tasks == old(tasks)[id := Errored(old(tasks)[id], retry, nextAt, msg)]
      ensures tasks == old(tasks)[id := old(tasks)[id].(state := if retry then RetryWait else Failed,
                                                        leaseOwner := None, leaseUntil := None,
                                                        nextAttemptAt := nextAt, lastError := Some(msg))]
    {
      tasks := tasks[id := Errored(tasks[id], retry, nextAt, msg)];
    }

    method FinishUnregistered(id: string)
      requires id in tasks
      modifies this`tasks
      ensures tasks == old(tasks)[id := Unregistered(old(tasks)[id])]
      ensures tasks == old(tasks)[id := old(tasks)[id].(state := Failed,
                                                        lastError := Some("capability not registered"))]
    {
      tasks := tasks[id := Unregistered(tasks[id])];
    }

    /** `execute_one` without interference: the row as it was when claimed, the handler's outcome (None for a
        caught exception, else the verdict), the clock and the jitter decide what is written. */
    method ExecuteOne(id: string, row: Task, registered: bool, outcome: Option<bool>, now: int, jitter: nat,
                      msg: string)
      requires id in tasks && jitter <= 7
      modifies this
      ensures tasks.Keys == old(tasks).Keys && forall t :: t in tasks && t != id ==> tasks[t] == old(tasks)[t]
      ensures !registered ==>
                && tasks[id] == old(tasks)[id].(state := Failed, lastError := Some("capability not registered"))
                && evidence == old(evidence) + [Evidence(id, ExecutionFailed)]
      ensures registered && outcome.Some? ==>
                && tasks[id] == old(tasks)[id].(state := if outcome.value then Verified else Failed,
                                                leaseOwner := None, leaseUntil := None, lastError := None)
                && evidence == old(evidence) + [Evidence(id, ExecutionStart), Evidence(id, ExecutionResult),
                                                Evidence(id, Verification(outcome.value))]
      ensures registered && outcome.None? ==>
                && tasks[id] == old(tasks)[id].(state := if row.attempts < 4 then RetryWait else Failed,
                                                leaseOwner := None, leaseUntil := None, lastError := Some(msg),
                                                nextAttemptAt := tasks[id].nextAttemptAt)
                && (row.attempts >= 4 ==> tasks[id].nextAttemptAt == 0)
                && (row.attempts == 0 ==> tasks[id].nextAttemptAt == now + 10 + jitter)
                && (row.attempts == 1 ==> tasks[id].nextAttemptAt == now + 20 + jitter)
                && (row.attempts == 2 ==> tasks[id].nextAttemptAt == now + 40 + jitter)
                && (row.attempts == 3 ==> tasks[id].nextAttemptAt == now + 80 + jitter)
                && evidence == old(evidence)
                     + [Evidence(id, ExecutionStart),
                        Evidence(id, ExecutionError(row.attempts + 1, tasks[id].nextAttemptAt))]
    {
      if !registered {
        InsertEvidence(id, ExecutionFailed);
        FinishUnregistered(id);
        return;
      }
      InsertEvidence(id, ExecutionStart);
      match outcome
      case Some(pass) =>
        InsertEvidence(id, ExecutionResult);
        InsertEvidence(id, Verification(pass));
        FinishVerdict(id, pass);
      case None =>
        var attempt := row.attempts + 1;
        var nextAt := 0;
        if attempt < MAX_ATTEMPTS {
          DelaySeconds(jitter);
          nextAt := now + Delay(attempt, jitter);
        }
        InsertEvidence(id, ExecutionError(attempt, nextAt));
        FinishError(id, attempt < MAX_ATTEMPTS, nextAt, msg);
    }
  }
}
