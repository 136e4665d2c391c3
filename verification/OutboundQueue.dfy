/** The controller side: registrations, one FIFO queue of signed jobs per device, acknowledged results. */
module OutboundQueue {
  import opened Common
  import opened OutboundWire

  datatype Registration = Registration(deviceId: string, sourceCommit: string, fingerprint: Secret,
                                       registeredAt: int, enrollmentDigest: string)

  datatype QueueState = QueueState(registrations: map<string, Registration>,
                                   jobs: map<string, seq<Job>>,
                                   consumed: set<string>,
                                   results: map<string, Record>)

  datatype QueueError =
    | WeakCredential | InvalidRegistration | IdentityMismatch
    | NotRegistered | CapabilityNotAllowed | TtlOutOfBounds
    | UnknownDevice | InvalidTaskId | InvalidSignature | CommitMismatch
    | TaskNotOutstanding | CapabilityMismatch | NonceAlreadyConsumed

  datatype Ack = Acknowledged(taskId: string) | AlreadyAcknowledged(taskId: string)

  function EmptyQueue(): QueueState {
    QueueState(map[], map[], {}, map[])
  }

  // The fingerprint is a digest of the credential; being injective it is represented by the credential.
  function RegisterDevice(q: QueueState, device: string, commit: string, digest: string, credential: Secret,
                          now: int): Result<QueueState, QueueError> {
    if |credential| < 32 then Err(WeakCredential)
    else if device == "" || |commit| != 40 || |digest| != 64 then Err(InvalidRegistration)
    else
      var reg := Registration(device, Lower(commit), credential, now, Lower(digest));
      if device in q.registrations
         && (q.registrations[device].sourceCommit != reg.sourceCommit
             || q.registrations[device].fingerprint != reg.fingerprint
             || q.registrations[device].enrollmentDigest != reg.enrollmentDigest)
      then Err(IdentityMismatch)
      else Ok(q.(registrations := q.registrations[device := reg],
                 jobs := if device in q.jobs then q.jobs else q.jobs[device := []]))
  }

  /** The arguments spell the identity material that the device is registered with. */
  predicate SameIdentity(r: Registration, commit: string, digest: string, credential: Secret) {
    r.sourceCommit == Lower(commit) && r.enrollmentDigest == Lower(digest) && r.fingerprint == credential
  }

  /** Registering a registered device again, at any later time and with any well-formed arguments, succeeds exactly
      for the identity it has, and then changes nothing but the time of registration. */
  lemma RegisterAgain(q: QueueState, device: string, commit: string, digest: string, credential: Secret, later: int)
    requires device in q.registrations && device in q.jobs && q.registrations[device].deviceId == device
    requires device != "" && |commit| == 40 && |digest| == 64 && |credential| >= 32
    ensures var r := q.registrations[device];
            RegisterDevice(q, device, commit, digest, credential, later)
            == if SameIdentity(r, commit, digest, credential)
               then Ok(q.(registrations := q.registrations[device := r.(registeredAt := later)]))
               else Err(IdentityMismatch)
  {
    assert q.jobs == if device in q.jobs then q.jobs else q.jobs[device := []];
  }

  function QueueOf(q: QueueState, device: string): seq<Job> {
    if device in q.jobs then q.jobs[device] else []
  }

  function Enqueue(q: QueueState, device: string, capability: string, parameters: Record, ttl: int, now: int,
                   taskId: string, nonce: string): Result<(QueueState, Job), QueueError> {
    if device !in q.registrations then Err(NotRegistered)
    else if capability !in ALLOWED_CAPABILITIES then Err(CapabilityNotAllowed)
    else if ttl <= 0 || ttl > 3600 then Err(TtlOutOfBounds)
    else
      var job := Job(taskId, device, capability, parameters, now + ttl, nonce,
                     q.registrations[device].sourceCommit);
      Ok((q.(jobs := q.jobs[device := QueueOf(q, device) + [job]]), job))
  }

  /** A job put on an empty queue is what the next poll before its expiry offers, field by field as requested. */
  lemma SubmittedIsOffered(q: QueueState, secret: Secret, device: string, capability: string, parameters: Record,
                           ttl: int, now: int, taskId: string, nonce: string, later: int)
    requires device in q.registrations && QueueOf(q, device) == [] && 0 < ttl <= 3600 && later < now + ttl
    requires capability == "diagnostic_status" || capability == "inventory_snapshot"
    ensures var submitted := Enqueue(q, device, capability, parameters, ttl, now, taskId, nonce);
            && submitted.Ok?
            && var offered := NextJob(submitted.value.0, device, later).1;
            && offered.Some?
            && Asks(Sign(JobBody(offered.value), secret), device, capability, parameters, now + ttl, taskId, nonce,
                    q.registrations[device].sourceCommit, secret)
  {
    var p := Enqueue(q, device, capability, parameters, ttl, now, taskId, nonce).value;
    assert QueueOf(p.0, device) == [p.1];
    JobAsks(p.1, secret);
  }

  /** The queue left once every expired job at its head has been popped. */
  function DropExpired(s: seq<Job>, now: int): seq<Job> {
    if s != [] && s[0].expiresAt <= now then DropExpired(s[1..], now) else s
  }

  function NextJob(q: QueueState, device: string, now: int): (QueueState, Option<Job>) {
    if device !in q.registrations then (q, None)
    else
      var s := DropExpired(QueueOf(q, device), now);
      (q.(jobs := q.jobs[device := s]), if s == [] then None else Some(s[0]))
  }

  /** The first queued job with this task id. */
  function FindTask(s: seq<Job>, taskId: string): Option<Job> {
    if s == [] then None else if s[0].taskId == taskId then Some(s[0]) else FindTask(s[1..], taskId)
  }

  function WithoutTask(s: seq<Job>, taskId: string): seq<Job> {
    if s == [] then []
    else if s[0].taskId == taskId then WithoutTask(s[1..], taskId)
    else [s[0]] + WithoutTask(s[1..], taskId)
  }

  function AcceptResult(q: QueueState, credential: string -> Secret, result: Record):
    Result<(QueueState, Ack), QueueError>
  {
    var device := Get(result, DeviceId);
    if !device.Str? || device.s !in q.registrations then Err(UnknownDevice)
    else if !NonEmptyStr(Get(result, TaskId)) then Err(InvalidTaskId)
    else if !Verifies(result, credential(device.s)) then Err(InvalidSignature)
    else if Get(result, SourceCommit) != Str(q.registrations[device.s].sourceCommit) then Err(CommitMismatch)
    else
      var capability := Get(result, Capability);
      if !capability.Str? || capability.s !in ALLOWED_CAPABILITIES then Err(CapabilityNotAllowed)
      else
        var taskId := Get(result, TaskId).s;
        var queue := QueueOf(q, device.s);
        match FindTask(queue, taskId)
        case None =>
          if taskId in q.results
          then Ok((q.(jobs := q.jobs[device.s := queue]), AlreadyAcknowledged(taskId)))
          else Err(TaskNotOutstanding)
        case Some(job) =>
          if capability.s != job.capability then Err(CapabilityMismatch)
          else if job.nonce in q.consumed then Err(NonceAlreadyConsumed)
          else Ok((QueueState(q.registrations, q.jobs[device.s := WithoutTask(queue, taskId)],
                              q.consumed + {job.nonce}, q.results[taskId := result]),
                   Acknowledged(taskId)))
  }

  /** The controller object. Each method updates the fields exactly as the function of the same name says. */
  class Controller {
    const credential: string -> Secret
    var registrations: map<string, Registration>
    var jobs: map<string, seq<Job>>
    var consumed: set<string>
    var results: map<string, Record>

    function State(): QueueState
      reads this
    {
      QueueState(registrations, jobs, consumed, results)
    }

    /** Every registered device has a queue. */
    ghost predicate Valid()
      reads this
    {
      registrations.Keys <= jobs.Keys
    }

    constructor (provider: string -> Secret)
      ensures Valid() && State() == EmptyQueue() && credential == provider
    {
      credential := provider;
      registrations, jobs, consumed, results := map[], map[], {}, map[];
    }

    method Register(device: string, commit: string, digest: string, secret: Secret, now: int)
      returns (r: Result<Registration, QueueError>)
      requires Valid()
      modifies this
      ensures Valid()
      ensures match RegisterDevice(old(State()), device, commit, digest, secret, now)
              case Ok(q) => State() == q && r == Ok(q.registrations[device])
              case Err(e) => State() == old(State()) && r == Err(e)
      ensures r.Ok? <==>
                && |secret| >= 32 && device != "" && |commit| == 40 && |digest| == 64
                && (device in old(registrations) ==>
                      && old(registrations)[device].sourceCommit == Lower(commit)
                      && old(registrations)[device].fingerprint == secret
                      && old(registrations)[device].enrollmentDigest == Lower(digest))
      ensures r.Ok? ==> r.value == Registration(device, Lower(commit), secret, now, Lower(digest))
                        && registrations == old(registrations)[device := r.value]
                        && jobs == (if device in old(jobs) then old(jobs) else old(jobs)[device := []])
                        && consumed == old(consumed) && results == old(results)
      ensures r.Ok? ==> forall later ::
                var again := registrations[device := r.value.(registeredAt := later)];
                RegisterDevice(State(), device, commit, digest, secret, later) == Ok(State().(registrations := again))
    {
      if |secret| < 32 { return Err(WeakCredential); }
      if device == "" || |commit| != 40 || |digest| != 64 { return Err(InvalidRegistration); }
      var reg := Registration(device, Lower(commit), secret, now, Lower(digest));
      if device in registrations {
        var existing := registrations[device];
        if existing.sourceCommit != reg.sourceCommit || existing.fingerprint != reg.fingerprint
           || existing.enrollmentDigest != reg.enrollmentDigest {
          return Err(IdentityMismatch);
        }
      }
      registrations := registrations[device := reg];
      if device !in jobs { jobs := jobs[device := []]; }
      r := Ok(reg);
    }

    method Submit(device: string, capability: string, parameters: Record, ttl: int, now: int,
                  taskId: string, nonce: string)
      returns (r: Result<Record, QueueError>)
      requires Valid()
      modifies this
      ensures Valid()
      ensures match Enqueue(old(State()), device, capability, parameters, ttl, now, taskId, nonce)
              case Ok(p) => State() == p.0 && r == Ok(Sign(JobBody(p.1), credential(device)))
              case Err(e) => State() == old(State()) && r == Err(e)
      ensures r.Ok? <==> device in old(registrations) && 0 < ttl <= 3600
                         && (capability == "diagnostic_status" || capability == "inventory_snapshot")
      ensures r.Ok? ==>
                var commit := old(registrations)[device].sourceCommit;
                && Asks(r.value, device, capability, parameters, now + ttl, taskId, nonce, commit, credential(device))
                && jobs == old(jobs)[device := old(jobs)[device]
                                       + [Job(taskId, device, capability, parameters, now + ttl, nonce, commit)]]
                && registrations == old(registrations) && consumed == old(consumed) && results == old(results)
    {
      if device !in registrations { return Err(NotRegistered); }
      if capability !in ALLOWED_CAPABILITIES { return Err(CapabilityNotAllowed); }
      if ttl <= 0 || ttl > 3600 { return Err(TtlOutOfBounds); }
      var job := Job(taskId, device, capability, parameters, now + ttl, nonce,
                     registrations[device].sourceCommit);
      jobs := jobs[device := jobs[device] + [job]];
      JobAsks(job, credential(device));
      r := Ok(Sign(JobBody(job), credential(device)));
    }

    method Poll(device: string, now: int) returns (r: Option<Record>)
      requires Valid()
      modifies this
      ensures Valid()
      ensures State() == NextJob(old(State()), device, now).0
      ensures r == match NextJob(old(State()), device, now).1
                   case None => None
                   case Some(j) => Some(Sign(JobBody(j), credential(device)))
      ensures r.Some? ==>
                && device in registrations && jobs[device] != []
                && var j := jobs[device][0];
                && now < j.expiresAt
                && Asks(r.value, j.device, j.capability, j.parameters, j.expiresAt, j.taskId, j.nonce, j.commit,
                        credential(device))
    {
      if device !in registrations { return None; }
      jobs := jobs[device := QueueOf(State(), device)];
      ghost var before := jobs[device];
      while jobs[device] != []
        invariant device in jobs && registrations == old(registrations) && Valid()
        invariant consumed == old(consumed) && results == old(results)
        invariant jobs == old(jobs)[device := jobs[device]]
        invariant DropExpired(jobs[device], now) == DropExpired(before, now)
        decreases |jobs[device]|
      {
        var job := jobs[device][0];
        if job.expiresAt <= now {
          jobs := jobs[device := jobs[device][1..]];
        } else {
          JobAsks(job, credential(device));
          return Some(Sign(JobBody(job), credential(device)));
        }
      }
      r := None;
    }

    method Accept(result: Record) returns (r: Result<Ack, QueueError>)
      requires Valid()
      modifies this
      ensures Valid()
      ensures match AcceptResult(old(State()), credential, result)
              case Ok(p) => State() == p.0 && r == Ok(p.1)
              case Err(e) => State() == old(State()) && r == Err(e)
      ensures r.Ok? ==>
                && Get(result, TaskId) == Str(r.value.taskId) && Get(result, DeviceId).Str?
                && var d := Get(result, DeviceId).s;
                && d in old(registrations) && Get(result, Signature) == Mac(credential(d), result - {Signature})
                && Get(result, SourceCommit) == Str(old(registrations)[d].sourceCommit)
                && registrations == old(registrations)
      ensures r.Ok? && r.value.Acknowledged? ==> results == old(results)[r.value.taskId := result]
      ensures r.Ok? && r.value.AlreadyAcknowledged? ==>
                r.value.taskId in results && results == old(results) && consumed == old(consumed)
    {
      var device := Get(result, DeviceId);
      if !device.Str? || device.s !in registrations { return Err(UnknownDevice); }
      var task := Get(result, TaskId);
      if !NonEmptyStr(task) { return Err(InvalidTaskId); }
      if !Verifies(result, credential(device.s)) { return Err(InvalidSignature); }
      if Get(result, SourceCommit) != Str(registrations[device.s].sourceCommit) { return Err(CommitMismatch); }
      var capability := Get(result, Capability);
      if !capability.Str? || capability.s !in ALLOWED_CAPABILITIES { return Err(CapabilityNotAllowed); }
      jobs := jobs[device.s := QueueOf(State(), device.s)];
      var queue := jobs[device.s];
      match FindTask(queue, task.s)
      case None =>
        if task.s in results { return Ok(AlreadyAcknowledged(task.s)); }
        return Err(TaskNotOutstanding);
      case Some(job) =>
        if capability.s != job.capability { return Err(CapabilityMismatch); }
        if job.nonce in consumed { return Err(NonceAlreadyConsumed); }
        consumed := consumed + {job.nonce};
        results := results[task.s := result];
        jobs := jobs[device.s := WithoutTask(queue, task.s)];
        r := Ok(Acknowledged(task.s));
    }
  }
}
