/** The device side: validation of a polled job, the bounded replay window, execution and the signed result. */
module OutboundWorker {
  import opened Common
  import opened OutboundWire
  import opened TextOrder
  import opened HashChain

  const REPLAY_WINDOW: nat := 4096

  datatype Config = Config(deviceId: string, sourceCommit: string, secret: Secret)

  datatype JobError =
    | JobObjectRequired | JobFieldsInvalid | DeviceTargetMismatch | CapabilityNotAllowed
    | SourceCommitMismatch | AuthorizationScopeMismatch | NonceInvalid | NonceReplay
    | JobExpired | ExpiryInvalid | SignatureInvalid | ParametersInvalid | TaskIdInvalid

  function ExpiryErrors(expiresAt: Json, now: int): seq<JobError> {
    if !expiresAt.Stamp? then [ExpiryInvalid] else When(expiresAt.at <= now, JobExpired)
  }

  function NonceErrors(nonce: Json, seen: set<string>): seq<JobError> {
    if !NonEmptyStr(nonce) then [NonceInvalid] else When(nonce.s in seen, NonceReplay)
  }

  function ValidateJob(c: Config, seen: set<string>, payload: Json, now: int): seq<JobError> {
    if !payload.Obj? then [JobObjectRequired]
    else
      var job := payload.fields;
      var capability := Get(job, Capability);
      When(job.Keys != JOB_FIELDS, JobFieldsInvalid)
      + When(Get(job, TargetDeviceId) != Str(c.deviceId), DeviceTargetMismatch)
      + When(!capability.Str? || capability.s !in ALLOWED_CAPABILITIES, CapabilityNotAllowed)
      + When(Get(job, ExpectedCommit) != Str(c.sourceCommit), SourceCommitMismatch)
      + When(Get(job, Scope) != ScopeOf(c.deviceId, capability), AuthorizationScopeMismatch)
      + NonceErrors(Get(job, Nonce), seen)
      + ExpiryErrors(Get(job, ExpiresAt), now)
      + When(!Verifies(job, c.secret), SignatureInvalid)
      + When(!Get(job, Parameters).Obj?, ParametersInvalid)
      + When(!NonEmptyStr(Get(job, TaskId)), TaskIdInvalid)
  }

  /** What the worker demands of a job before it runs it. */
  predicate Acceptable(c: Config, seen: set<string>, payload: Json, now: int) {
    && payload.Obj?
    && var job := payload.fields;
    && job.Keys == {TaskId, TargetDeviceId, Capability, Parameters, Scope, ExpiresAt, Nonce, ExpectedCommit, Signature}
    && job[TargetDeviceId] == Str(c.deviceId)
    && (job[Capability] == Str("diagnostic_status") || job[Capability] == Str("inventory_snapshot"))
    && job[ExpectedCommit] == Str(c.sourceCommit)
    && job[Scope] == Obj(map[DeviceId := Str(c.deviceId), Capability := job[Capability]])
    && job[Nonce].Str? && job[Nonce].s != "" && job[Nonce].s !in seen
    && job[ExpiresAt].Stamp? && job[ExpiresAt].at > now
    && job[Signature] == Mac(c.secret, job - {Signature})
    && job[Parameters].Obj?
    && job[TaskId].Str? && job[TaskId].s != ""
  }

  /** The error list is empty exactly when all those demands hold. */
  lemma NoErrorsIff(c: Config, seen: set<string>, payload: Json, now: int)
    ensures ValidateJob(c, seen, payload, now) == [] <==> Acceptable(c, seen, payload, now)
  {
  }

  lemma ScopeInjective(d: string, e: string, capability: Json)
    ensures ScopeOf(d, capability) == ScopeOf(e, capability) <==> d == e
  {
    assert ScopeOf(d, capability).fields[DeviceId] == Str(d);
    assert ScopeOf(e, capability).fields[DeviceId] == Str(e);
  }

  predicate Admits(c: Config, seen: set<string>, j: Job, secret: Secret, now: int) {
    j.device == c.deviceId && secret == c.secret && j.commit == c.sourceCommit && now < j.expiresAt && j.nonce !in seen
  }

  lemma GenuineAcceptable(c: Config, seen: set<string>, j: Job, secret: Secret, now: int)
    requires j.capability in ALLOWED_CAPABILITIES && j.nonce != "" && j.taskId != ""
    ensures Acceptable(c, seen, Obj(Sign(JobBody(j), secret)), now) <==> Admits(c, seen, j, secret, now)
  {
    var body := JobBody(j);
    var rec := Sign(body, secret);
    assert Verifies(rec, c.secret) <==> secret == c.secret by { SignVerifies(body, secret, c.secret); }
    ScopeInjective(j.device, c.deviceId, Str(j.capability));
    assert rec.Keys == JOB_FIELDS;
  }

  /** A job of the controller is accepted by a worker exactly when it targets that worker, is signed with
      the worker's secret, is unexpired and its nonce is outside the replay window. */
  lemma GenuineJobAccepted(c: Config, seen: set<string>, j: Job, secret: Secret, now: int)
    requires j.capability in ALLOWED_CAPABILITIES && j.nonce != "" && j.taskId != ""
    ensures ValidateJob(c, seen, Obj(Sign(JobBody(j), secret)), now) == [] <==> Admits(c, seen, j, secret, now)
  {
    var payload := Obj(Sign(JobBody(j), secret));
    NoErrorsIff(c, seen, payload, now);
    GenuineAcceptable(c, seen, j, secret, now);
  }

  /** The list persisted after remembering one more nonce. */
  function Remember(persisted: seq<string>, nonce: string): seq<string> {
    LastK(Sorted(Elements(persisted) + {nonce}), REPLAY_WINDOW)
  }

  /** The list persisted after remembering a whole history of nonces, oldest first. */
  function RememberAll(history: seq<string>): seq<string> {
    if history == [] then [] else Remember(RememberAll(history[..|history| - 1]), history[|history| - 1])
  }

  /** The persisted list is the sorted list of the 4096 largest nonces ever remembered. */
  lemma {:induction false} WindowHoldsLargest(history: seq<string>)
    ensures RememberAll(history) == LastK(Sorted(Elements(history)), REPLAY_WINDOW)
    ensures Elements(RememberAll(history)) == Top(REPLAY_WINDOW, Elements(history))
  {
    LastKIsTop(Elements(history), REPLAY_WINDOW);
    if history == [] {
      assert Elements(history) == {};
    } else {
      var before, n := history[..|history| - 1], history[|history| - 1];
      WindowHoldsLargest(before);
      ElementsSnoc(history);
      LastKInsert(REPLAY_WINDOW, RememberAll(before), Elements(before), n);
    }
  }

  /** A remembered nonce is admitted again exactly when at least 4096 larger nonces have been remembered. */
  lemma Readmitted(history: seq<string>, nonce: string)
    requires nonce in history
    ensures nonce !in RememberAll(history) <==> |Above(Elements(history), nonce)| >= REPLAY_WINDOW
  {
    WindowHoldsLargest(history);
    assert nonce in Elements(history);
    assert nonce in RememberAll(history) <==> nonce in Elements(RememberAll(history));
  }

  /** Remembering one more nonce keeps the persisted list the largest 4096. */
  lemma RememberOne(history: seq<string>, nonce: string)
    ensures RememberAll(history + [nonce]) == Remember(RememberAll(history), nonce)
    ensures Elements(Remember(RememberAll(history), nonce)) == Top(REPLAY_WINDOW, Elements(history + [nonce]))
  {
    assert (history + [nonce])[..|history|] == history;
    WindowHoldsLargest(history + [nonce]);
  }

  function RejectedBody(taskId: Json, errors: seq<JobError>): Record {
    map[TaskId := taskId, Status := Str("REJECTED"), Errors := List(seq(|errors|, i => Null))]
  }

  function ResultBody(c: Config, job: Record, output: Json, at: int, tail: Json): Record {
    map[TaskId := Get(job, TaskId),
        DeviceId := Str(c.deviceId),
        Capability := Get(job, Capability),
        Status := Str("PASS"),
        Timestamp := Stamp(at),
        SourceCommit := Str(c.sourceCommit),
        Output := output,
        PreviousEvidence := tail]
  }

  /** result is the signed report on this job: what was asked for, that it passed, what came out of it and when, the
      evidence before it, and nothing else. */
  predicate Reports(result: Record, job: Record, device: string, commit: string, secret: Secret, output: Json,
                    at: int, tail: string)
  {
    && result.Keys == {TaskId, DeviceId, Capability, Status, Timestamp, SourceCommit, Output, PreviousEvidence,
                       Signature}
    && result[TaskId] == Get(job, TaskId) && result[Capability] == Get(job, Capability)
    && result[DeviceId] == Str(device) && result[SourceCommit] == Str(commit)
    && result[Status] == Str("PASS") && result[Output] == output && result[Timestamp] == Stamp(at)
    && result[PreviousEvidence] == Str(tail)
    && result[Signature] == Mac(secret, result - {Signature})
  }

  lemma ResultReports(c: Config, job: Record, output: Json, at: int, tail: string)
    ensures Reports(Sign(ResultBody(c, job, output, at, Str(tail)), c.secret), job, c.deviceId, c.sourceCommit,
                    c.secret, output, at, tail)
  {
    SignVerifies(ResultBody(c, job, output, at, Str(tail)), c.secret, c.secret);
  }

  datatype JournalEvent = JobRejected(result: Record) | JobCompleted(result: Record)

  const GENESIS: Option<string> := Some(seq(64, i => '0'))

  /** The worker object: its secret and identity are fixed, the nonce file and the journal are updated. */
  class Worker {
    const config: Config
    const sha: (Option<string>, JournalEvent) -> string
    var nonces: seq<string>
    var journal: seq<Entry<JournalEvent>>
    ghost var history: seq<string>

    ghost predicate Valid()
      reads this
    {
      nonces == RememberAll(history) && Linked(sha, GENESIS, journal)
    }

    constructor (c: Config, digest: (Option<string>, JournalEvent) -> string)
      ensures Valid() && config == c && sha == digest && history == [] && journal == []
    {
      config := c;
      sha := digest;
      nonces, journal, history := [], [], [];
    }

    method RememberNonce(nonce: string)
      requires Valid()
      modifies this`nonces, this`history
      ensures Valid() && history == old(history) + [nonce]
      ensures Elements(nonces) == Top(REPLAY_WINDOW, Elements(history))
    {
      RememberOne(history, nonce);
      nonces := Remember(nonces, nonce);
      history := history + [nonce];
    }

    method AppendJournal(e: JournalEvent)
      requires Valid()
      modifies this`journal
      ensures Valid() && journal == Append(sha, GENESIS, old(journal), e)
    {
      AppendLinked(sha, GENESIS, journal, e);
      journal := Append(sha, GENESIS, journal, e);
    }

    /** A rejected job leaves the nonce file alone and yields an unsigned record; an accepted one is
        remembered before it runs and yields a result signed with the worker's secret. */
    method ExecuteJob(job: Record, output: Json, now: int) returns (result: Record)
      requires Valid()
      modifies this
      ensures Valid()
      ensures var accepted := ValidateJob(config, Elements(old(nonces)), Obj(job), now) == [];
              journal == Append(sha, GENESIS, old(journal),
                                if accepted then JobCompleted(result) else JobRejected(result))
      ensures var errors := ValidateJob(config, Elements(old(nonces)), Obj(job), now);
              if errors != [] then
                history == old(history) && nonces == old(nonces)
                && result == RejectedBody(Get(job, TaskId), errors)
              else
                history == old(history) + [job[Nonce].s]
                && result == Sign(ResultBody(config, job, output, now, Str(Head(GENESIS, old(journal)).value)),
                                  config.secret)
      ensures var errors := ValidateJob(config, Elements(old(nonces)), Obj(job), now);
              if errors != [] then
                Get(result, Status) == Str("REJECTED") && Get(result, TaskId) == Get(job, TaskId)
                && Get(result, Errors).List? && Signature !in result
              else
                Reports(result, job, config.deviceId, config.sourceCommit, config.secret, output, now,
                        if old(journal) == [] then GENESIS.value else old(journal)[|old(journal)| - 1].hash)
    {
      var errors := ValidateJob(config, Elements(nonces), Obj(job), now);
      if errors != [] {
        result := RejectedBody(Get(job, TaskId), errors);
        AppendJournal(JobRejected(result));
        return;
      }
      NoErrorsIff(config, Elements(nonces), Obj(job), now);
      RememberNonce(job[Nonce].s);
      ResultReports(config, job, output, now, Head(GENESIS, journal).value);
      result := Sign(ResultBody(config, job, output, now, Str(Head(GENESIS, journal).value)), config.secret);
      AppendJournal(JobCompleted(result));
    }
  }
}
