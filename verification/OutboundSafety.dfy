/** What every run of the outbound protocol keeps: queue bookkeeping, at-most-once execution, and the
    provenance of every acknowledged result. */
module OutboundSafety {
  import opened Common
  import opened OutboundWire
  import opened OutboundQueue
  import opened OutboundWorker
  import opened TextOrder
  import opened OutboundProtocol

  // ---- Each controller action keeps the controller invariant ----

  lemma RegisterKeeps(w: World, d: string, commit: string, digest: string, secret: Secret, now: int)
    requires ControllerInv(w)
    requires RegisterDevice(w.queue, d, commit, digest, secret, now).Ok?
    ensures ControllerInv(w.(queue := RegisterDevice(w.queue, d, commit, digest, secret, now).value))
  {
    var w' := w.(queue := RegisterDevice(w.queue, d, commit, digest, secret, now).value);
    assert Gone(w') == Gone(w);
    forall e ensures QueueOf(w'.queue, e) == Outstanding(w'.enqueued, e, Gone(w')) {
      assert QueueOf(w'.queue, e) == QueueOf(w.queue, e);
    }
  }

  lemma EnqueueKeeps(w: World, d: string, capability: string, parameters: Record, ttl: int, now: int,
                     taskId: string, nonce: string)
    requires ControllerInv(w)
    requires Enabled(w, DoEnqueue(d, capability, parameters, ttl, now, taskId, nonce))
    requires Enqueue(w.queue, d, capability, parameters, ttl, now, taskId, nonce).Ok?
    ensures var p := Enqueue(w.queue, d, capability, parameters, ttl, now, taskId, nonce).value;
            ControllerInv(w.(queue := p.0, enqueued := w.enqueued + [p.1]))
  {
    var p := Enqueue(w.queue, d, capability, parameters, ttl, now, taskId, nonce).value;
    AppendJob(w, p.0, p.1);
  }

  /** Appending one fresh job for a registered device to its queue. */
  lemma AppendJob(w: World, q: QueueState, j: Job)
    requires ControllerInv(w)
    requires j.taskId != "" && j.nonce != "" && j.capability in ALLOWED_CAPABILITIES
    requires j.device in q.registrations && j.commit == q.registrations[j.device].sourceCommit
    requires forall k :: k in w.enqueued ==> k.taskId != j.taskId && k.nonce != j.nonce
    requires q == w.queue.(jobs := w.queue.jobs[j.device := QueueOf(w.queue, j.device) + [j]])
    ensures ControllerInv(w.(queue := q, enqueued := w.enqueued + [j]))
  {
    var s, s' := w.enqueued, w.enqueued + [j];
    FreshJobKeeps(s, j, w.queue, q);
    assert j.taskId !in Gone(w);
    AppendedQueues(w, q, j);
    assert Gone(w.(queue := q, enqueued := s')) == Gone(w);
    assert TaskIds(s') == TaskIds(s) + {j.taskId};
    assert AckedNonces(s', q.results.Keys) == AckedNonces(s, q.results.Keys);
  }

  lemma AppendedQueues(w: World, q: QueueState, j: Job)
    requires forall d :: QueueOf(w.queue, d) == Outstanding(w.enqueued, d, Gone(w))
    requires j.taskId !in Gone(w)
    requires q == w.queue.(jobs := w.queue.jobs[j.device := QueueOf(w.queue, j.device) + [j]])
    ensures forall d :: QueueOf(q, d) == Outstanding(w.enqueued + [j], d, Gone(w))
  {
    forall d ensures QueueOf(q, d) == Outstanding(w.enqueued + [j], d, Gone(w)) {
      OutstandingSnoc(w.enqueued, j, d, Gone(w));
    }
  }

  lemma FreshJobKeeps(s: seq<Job>, j: Job, q: QueueState, q': QueueState)
    requires DistinctJobs(s) && JobsWellFormed(q, s) && q'.registrations == q.registrations
    requires j.taskId != "" && j.nonce != "" && j.capability in ALLOWED_CAPABILITIES
    requires j.device in q.registrations && j.commit == q.registrations[j.device].sourceCommit
    requires forall k :: k in s ==> k.taskId != j.taskId && k.nonce != j.nonce
    ensures DistinctJobs(s + [j]) && JobsWellFormed(q', s + [j])
  {
  }

  lemma OutstandingSnoc(s: seq<Job>, j: Job, e: string, gone: set<string>)
    ensures Outstanding(s + [j], e, gone)
            == Outstanding(s, e, gone) + if j.device == e && j.taskId !in gone then [j] else []
  {
    assert (s + [j])[..|s|] == s;
  }

  lemma PollKeeps(w: World, d: string, now: int)
    requires ControllerInv(w)
    ensures ControllerInv(AfterPoll(w, d, now))
  {
    var q := NextJob(w.queue, d, now).0;
    var popped := TaskIds(QueueOf(w.queue, d)) - TaskIds(QueueOf(q, d));
    var w' := w.(queue := q, dropped := w.dropped + popped);
    if d in w.queue.registrations {
      OutstandingDrop(w.enqueued, d, Gone(w), now);
      assert Gone(w') == Gone(w) + popped;
      forall e ensures QueueOf(q, e) == Outstanding(w.enqueued, e, Gone(w')) {
        if e != d {
          PoppedElsewhere(w, d, e, popped);
          assert QueueOf(q, e) == QueueOf(w.queue, e);
        }
      }
      forall t | t in popped ensures t in TaskIds(w.enqueued) {
        var j :| j in QueueOf(w.queue, d) && j.taskId == t;
        OutstandingMember(w.enqueued, d, Gone(w), j);
      }
    } else {
      assert w' == w by { assert popped == {}; }
    }
  }

  lemma PoppedElsewhere(w: World, d: string, e: string, popped: set<string>)
    requires ControllerInv(w) && e != d && popped <= TaskIds(QueueOf(w.queue, d))
    ensures Outstanding(w.enqueued, e, Gone(w) + popped) == Outstanding(w.enqueued, e, Gone(w))
  {
    forall j | j in w.enqueued && j.device == e ensures j.taskId !in popped {
      if j.taskId in popped {
        var k :| k in QueueOf(w.queue, d) && k.taskId == j.taskId;
        OutstandingMember(w.enqueued, d, Gone(w), k);
        SameTask(w.enqueued, j, k);
      }
    }
    OutstandingSame(w.enqueued, e, Gone(w) + popped, Gone(w));
  }

  /** Acknowledging the outstanding job with this task id. */
  lemma AckKeeps(w: World, d: string, job: Job, result: Record)
    requires ControllerInv(w) && job in QueueOf(w.queue, d)
    ensures job.nonce !in w.queue.consumed
    ensures var q := w.queue;
            ControllerInv(w.(queue := QueueState(q.registrations,
                                                 q.jobs[d := WithoutTask(QueueOf(q, d), job.taskId)],
                                                 q.consumed + {job.nonce},
                                                 q.results[job.taskId := result])))
  {
    var q, t := w.queue, job.taskId;
    OutstandingMember(w.enqueued, d, Gone(w), job);
    forall k | k in w.enqueued && k.nonce == job.nonce ensures k == job { SameTask(w.enqueued, job, k); }
    assert job.nonce !in AckedNonces(w.enqueued, q.results.Keys);
    var q' := QueueState(q.registrations, q.jobs[d := WithoutTask(QueueOf(q, d), t)],
                         q.consumed + {job.nonce}, q.results[t := result]);
    var w' := w.(queue := q');
    assert Gone(w') == Gone(w) + {t};
    forall e ensures QueueOf(q', e) == Outstanding(w.enqueued, e, Gone(w')) {
      if e == d {
        OutstandingWithout(w.enqueued, d, Gone(w), t);
      } else {
        PoppedElsewhere(w, d, e, {t});
      }
    }
    assert AckedNonces(w.enqueued, q'.results.Keys) == AckedNonces(w.enqueued, q.results.Keys) + {job.nonce} by {
      forall k | k in w.enqueued && k.taskId == t ensures k == job { SameTask(w.enqueued, job, k); }
    }
  }

  /** In every state the controller can be in, the check for an already consumed nonce never fires. */
  lemma NonceNeverConsumedTwice(cred: string -> Secret, w: World, result: Record)
    requires ControllerInv(w)
    ensures AcceptResult(w.queue, cred, result) != Err(NonceAlreadyConsumed)
  {
    var device, task := Get(result, DeviceId), Get(result, TaskId);
    if device.Str? && task.Str? {
      FindTaskMember(QueueOf(w.queue, device.s), task.s);
      match FindTask(QueueOf(w.queue, device.s), task.s) {
        case None =>
        case Some(job) => AckKeeps(w, device.s, job, result);
      }
    }
  }

  lemma AcceptKeeps(cred: string -> Secret, w: World, result: Record)
    requires ControllerInv(w) && AcceptResult(w.queue, cred, result).Ok?
    ensures ControllerInv(w.(queue := AcceptResult(w.queue, cred, result).value.0))
  {
    var q := w.queue;
    var device, task := Get(result, DeviceId).s, Get(result, TaskId).s;
    FindTaskMember(QueueOf(q, device), task);
    match FindTask(QueueOf(q, device), task) {
      case None =>
        var w' := w.(queue := q.(jobs := q.jobs[device := QueueOf(q, device)]));
        assert Gone(w') == Gone(w);
        forall e ensures QueueOf(w'.queue, e) == Outstanding(w'.enqueued, e, Gone(w')) {
          assert QueueOf(w'.queue, e) == QueueOf(q, e);
        }
      case Some(job) => AckKeeps(w, device, job, result);
    }
  }

  // ---- What has been signed, and by whom ----

  ghost predicate JobSigned(cred: string -> Secret, enqueued: seq<Job>, s: Secret, b: Record) {
    exists j :: j in enqueued && b == JobBody(j) && s == cred(j.device)
  }

  /** b is the body of a PASS result the worker signs after running job. */
  predicate ResultFor(c: Config, job: Record, b: Record) {
    && TaskId in b && b[TaskId] == Get(job, TaskId)
    && DeviceId in b && b[DeviceId] == Str(c.deviceId)
    && Capability in b && b[Capability] == Get(job, Capability)
    && SourceCommit in b && b[SourceCommit] == Str(c.sourceCommit)
    && TargetDeviceId !in b
  }

  ghost predicate ResultSigned(w: World, b: Record) {
    exists e :: e in w.executions && e.device in w.devices && ResultFor(w.devices[e.device].config, e.job, b)
  }

  /** b is a job, a result, or a record neither side can mistake for one. */
  ghost predicate Classified(cred: string -> Secret, w: World, s: Secret, b: Record) {
    || JobSigned(cred, w.enqueued, s, b)
    || ResultSigned(w, b)
    || (TargetDeviceId !in b && (DeviceId !in b || TaskId !in b))
  }

  ghost predicate SignedInv(cred: string -> Secret, w: World) {
    forall s, b :: (s, b) in w.signed ==> Classified(cred, w, s, b)
  }

  /** r is the record of an enqueued job for this worker. */
  ghost predicate Genuine(enqueued: seq<Job>, c: Config, r: Record) {
    exists j :: j in enqueued && GenuineFor(c, r, j)
  }

  predicate GenuineFor(c: Config, r: Record, j: Job) {
    Body(r) == JobBody(j) && j.device == c.deviceId && j.commit == c.sourceCommit
  }

  /** How often device d has executed a job with nonce n. */
  function Executed(executions: seq<Execution>, d: string, n: string): nat {
    if executions == [] then 0
    else
      var e := executions[|executions| - 1];
      Executed(executions[..|executions| - 1], d, n) + if e.device == d && NonceOf(e.job) == n then 1 else 0
  }

  function Pending(dev: Device, n: string): nat {
    if dev.phase.Remembered? && NonceOf(dev.phase.job) == n then 1 else 0
  }

  /** A nonce remembered twice has been pushed out of the window in between. */
  ghost predicate WindowInv(log: seq<string>) {
    forall n :: multiset(log)[n] >= 2 ==> |Above(Elements(log), n)| >= REPLAY_WINDOW
  }

  ghost predicate DeviceOk(w: World, d: string)
    requires d in w.devices
  {
    var dev := w.devices[d];
    && dev.config.deviceId == d
    && dev.nonces == RememberAll(dev.log)
    && WindowInv(dev.log)
    && (!dev.phase.Idle? ==> Genuine(w.enqueued, dev.config, dev.phase.job))
    && (dev.phase.Ran? ==> Execution(d, dev.phase.job) in w.executions)
    && forall n :: Executed(w.executions, d, n) + Pending(dev, n) <= multiset(dev.log)[n]
  }

  ghost predicate DeviceInv(w: World) {
    && (forall d :: d in w.devices ==> DeviceOk(w, d))
    && (forall e :: e in w.executions
         ==> e.device in w.devices && Genuine(w.enqueued, w.devices[e.device].config, e.job))
  }

  /** The acknowledged result of j stems from execution e of that very job on its target device. */
  predicate StemsFrom(result: Record, j: Job, e: Execution) {
    && e.device == j.device && Body(e.job) == JobBody(j)
    && Get(result, TaskId) == Str(j.taskId) && Get(result, DeviceId) == Str(j.device)
    && Get(result, Capability) == Str(j.capability) && Get(result, SourceCommit) == Str(j.commit)
  }

  ghost predicate Backed(w: World, t: string, result: Record) {
    exists j, e :: j in w.enqueued && j.taskId == t && e in w.executions && StemsFrom(result, j, e)
  }

  ghost predicate ResultInv(w: World) {
    forall t :: t in w.queue.results ==> Backed(w, t, w.queue.results[t])
  }

  ghost predicate Inv(cred: string -> Secret, w: World) {
    ControllerInv(w) && SignedInv(cred, w) && DeviceInv(w) && ResultInv(w)
  }

  /** What validation establishes about the signature and the fields that name the target. */
  predicate Addressed(c: Config, r: Record) {
    var b := Body(r);
    && Get(r, Signature) == Mac(c.secret, b)
    && TaskId in b && TargetDeviceId in b && ExpectedCommit in b
    && b[TargetDeviceId] == Str(c.deviceId) && b[ExpectedCommit] == Str(c.sourceCommit)
  }

  lemma AcceptedIsAddressed(c: Config, seen: set<string>, r: Record, now: int)
    requires ValidateJob(c, seen, Obj(r), now) == []
    ensures Addressed(c, r)
  {
    NoErrorsIff(c, seen, Obj(r), now);
  }

  /** A signed body that names a target and a task is the body of an enqueued job. */
  lemma SignedTargetIsJob(cred: string -> Secret, w: World, s: Secret, b: Record) returns (j: Job)
    requires SignedInv(cred, w) && (s, b) in w.signed && TaskId in b && TargetDeviceId in b
    ensures j in w.enqueued && b == JobBody(j)
  {
    assert Classified(cred, w, s, b);
    assert JobSigned(cred, w.enqueued, s, b);
    j :| j in w.enqueued && b == JobBody(j) && s == cred(j.device);
  }

  lemma AddressedIsGenuine(cred: string -> Secret, w: World, c: Config, r: Record)
    requires SignedInv(cred, w) && Deliverable(w, r) && Addressed(c, r)
    ensures Genuine(w.enqueued, c, r)
  {
    var j := SignedTargetIsJob(cred, w, c.secret, Body(r));
    assert JobBody(j)[TargetDeviceId] == Str(j.device) && JobBody(j)[ExpectedCommit] == Str(j.commit);
    assert GenuineFor(c, r, j);
  }

  /** Nothing a worker can be made to run is anything but an enqueued job for it. */
  lemma DeliveredJobIsGenuine(cred: string -> Secret, w: World, d: string, r: Record, now: int)
    requires Inv(cred, w) && d in w.devices && Deliverable(w, r)
    requires ValidateJob(w.devices[d].config, Elements(w.devices[d].nonces), Obj(r), now) == []
    ensures Genuine(w.enqueued, w.devices[d].config, r)
  {
    AcceptedIsAddressed(w.devices[d].config, Elements(w.devices[d].nonces), r, now);
    AddressedIsGenuine(cred, w, w.devices[d].config, r);
  }

  /** Nothing the controller can be made to accept is anything but the result of an execution. */
  lemma AcceptedResultIsGenuine(cred: string -> Secret, w: World, r: Record)
    requires Inv(cred, w) && Deliverable(w, r) && AcceptResult(w.queue, cred, r).Ok?
    ensures ResultSigned(w, Body(r))
  {
    var b := Body(r);
    var s := cred(Get(r, DeviceId).s);
    assert (s, b) in w.signed;
    assert DeviceId in b && TaskId in b;
  }

  // ---- History only grows, so what was established stays established ----

  ghost predicate Grows(w: World, w': World) {
    && (forall j :: j in w.enqueued ==> j in w'.enqueued)
    && (forall e :: e in w.executions ==> e in w'.executions)
    && w.devices.Keys == w'.devices.Keys
    && (forall d :: d in w.devices ==> w.devices[d].config == w'.devices[d].config)
  }

  lemma ClassifiedGrows(cred: string -> Secret, w: World, w': World, s: Secret, b: Record)
    requires Classified(cred, w, s, b) && Grows(w, w')
    ensures Classified(cred, w', s, b)
  {
    if ResultSigned(w, b) {
      var e :| e in w.executions && e.device in w.devices && ResultFor(w.devices[e.device].config, e.job, b);
      assert e in w'.executions && e.device in w'.devices && ResultFor(w'.devices[e.device].config, e.job, b);
    } else if JobSigned(cred, w.enqueued, s, b) {
      var j :| j in w.enqueued && b == JobBody(j) && s == cred(j.device);
      assert j in w'.enqueued;
    }
  }

  lemma SignedGrows(cred: string -> Secret, w: World, w': World)
    requires SignedInv(cred, w) && Grows(w, w')
    requires forall s, b :: (s, b) in w'.signed ==> (s, b) in w.signed || Classified(cred, w', s, b)
    ensures SignedInv(cred, w')
  {
    forall s, b | (s, b) in w.signed ensures Classified(cred, w', s, b) { ClassifiedGrows(cred, w, w', s, b); }
  }

  lemma ResultsGrow(w: World, w': World)
    requires ResultInv(w) && Grows(w, w') && w'.queue.results == w.queue.results
    ensures ResultInv(w')
  {
    forall t | t in w'.queue.results ensures Backed(w', t, w'.queue.results[t]) {
      BackedGrows(w, w', t, w.queue.results[t]);
    }
  }

  lemma BackedGrows(w: World, w': World, t: string, r: Record)
    requires Backed(w, t, r) && Grows(w, w')
    ensures Backed(w', t, r)
  {
    var j, e :| j in w.enqueued && j.taskId == t && e in w.executions && StemsFrom(r, j, e);
    assert j in w'.enqueued && e in w'.executions;
  }

  lemma DevicesGrow(w: World, w': World)
    requires DeviceInv(w) && Grows(w, w') && w'.devices == w.devices && w'.executions == w.executions
    ensures DeviceInv(w')
  {
    forall d | d in w'.devices ensures DeviceOk(w', d) { assert DeviceOk(w, d); }
  }

  lemma SameController(w: World, w': World)
    requires ControllerInv(w) && w'.queue == w.queue && w'.enqueued == w.enqueued && w'.dropped == w.dropped
    ensures ControllerInv(w')
  {
    assert Gone(w') == Gone(w);
  }

  // ---- Each step keeps the invariant ----

  /** Steps that touch neither the workers nor what has been executed. */
  lemma QuietStep(cred: string -> Secret, w: World, w': World)
    requires Inv(cred, w) && ControllerInv(w')
    requires w'.devices == w.devices && w'.executions == w.executions && w'.queue.results == w.queue.results
    requires forall j :: j in w.enqueued ==> j in w'.enqueued
    requires forall s, b :: (s, b) in w'.signed ==> (s, b) in w.signed || Classified(cred, w', s, b)
    ensures Inv(cred, w')
  {
    SignedGrows(cred, w, w');
    DevicesGrow(w, w');
    ResultsGrow(w, w');
  }

  /** Steps of one worker that neither sign anything nor reach the controller. */
  lemma DeviceStep(cred: string -> Secret, w: World, w': World)
    requires Inv(cred, w) && Grows(w, w') && DeviceInv(w')
    requires w'.queue == w.queue && w'.enqueued == w.enqueued && w'.dropped == w.dropped && w'.signed == w.signed
    ensures Inv(cred, w')
  {
    SameController(w, w');
    SignedGrows(cred, w, w');
    ResultsGrow(w, w');
  }

  lemma SignStep(cred: string -> Secret, w: World, s: Secret, b: Record)
    requires Inv(cred, w) && Classified(cred, w, s, b)
    ensures Inv(cred, AfterSign(w, s, b))
  {
    var w' := AfterSign(w, s, b);
    SameController(w, w');
    ClassifiedGrows(cred, w, w', s, b);
    QuietStep(cred, w, w');
  }

  lemma EnqueueStep(cred: string -> Secret, w: World, step: Step)
    requires Inv(cred, w) && step.DoEnqueue? && Enabled(w, step)
    ensures Inv(cred, Apply(cred, w, step))
  {
    var w' := Apply(cred, w, step);
    match Enqueue(w.queue, step.device, step.capability, step.parameters, step.ttl, step.now, step.taskId, step.nonce) {
      case Err(_) =>
      case Ok(p) =>
        EnqueueKeeps(w, step.device, step.capability, step.parameters, step.ttl, step.now, step.taskId, step.nonce);
        SameController(w.(queue := p.0, enqueued := w.enqueued + [p.1]), w');
        assert p.1 in w'.enqueued;
        assert JobSigned(cred, w'.enqueued, cred(step.device), JobBody(p.1));
        QuietStep(cred, w, w');
    }
  }

  /** An accepted result either was known already or is the result of the outstanding job. */
  lemma AcceptOutcome(cred: string -> Secret, q: QueueState, r: Record)
    requires AcceptResult(q, cred, r).Ok?
    ensures Get(r, DeviceId).Str? && Get(r, TaskId).Str? && Verifies(r, cred(Get(r, DeviceId).s))
    ensures var (q', ack) := AcceptResult(q, cred, r).value;
            var t := Get(r, TaskId).s;
            && q'.registrations == q.registrations
            && q'.results == (if ack.AlreadyAcknowledged? then q.results else q.results[t := r])
  {
  }

  lemma AcceptStep(cred: string -> Secret, w: World, r: Record)
    requires Inv(cred, w) && Deliverable(w, r) && AcceptResult(w.queue, cred, r).Ok?
    ensures Inv(cred, w.(queue := AcceptResult(w.queue, cred, r).value.0))
  {
    var outcome := AcceptResult(w.queue, cred, r).value;
    AcceptKeeps(cred, w, r);
    AcceptOutcome(cred, w.queue, r);
    var w' := w.(queue := outcome.0);
    if outcome.1.AlreadyAcknowledged? {
      QuietStep(cred, w, w');
    } else {
      SignedGrows(cred, w, w');
      DevicesGrow(w, w');
      var t := Get(r, TaskId).s;
      var j, e := AcceptedStems(cred, w, r);
      assert Backed(w', t, r);
      forall u | u in w'.queue.results ensures Backed(w', u, w'.queue.results[u]) {
        if u != t { BackedGrows(w, w', u, w.queue.results[u]); }
      }
    }
  }

  /** The job and the execution behind a result that is being acknowledged. */
  lemma AcceptedStems(cred: string -> Secret, w: World, r: Record) returns (j: Job, e: Execution)
    requires Inv(cred, w) && Deliverable(w, r) && AcceptResult(w.queue, cred, r).Ok?
    ensures j in w.enqueued && j.taskId == Get(r, TaskId).s && e in w.executions && StemsFrom(r, j, e)
  {
    AcceptedResultIsGenuine(cred, w, r);
    AcceptOutcome(cred, w.queue, r);
    e :| e in w.executions && e.device in w.devices && ResultFor(w.devices[e.device].config, e.job, Body(r));
    assert DeviceOk(w, e.device);
    j :| j in w.enqueued && GenuineFor(w.devices[e.device].config, e.job, j);
    GenuineResult(w.devices[e.device].config, e, j, r);
  }

  lemma GenuineResult(c: Config, e: Execution, j: Job, r: Record)
    requires GenuineFor(c, e.job, j) && ResultFor(c, e.job, Body(r)) && e.device == c.deviceId
    ensures StemsFrom(r, j, e)
  {
    var b := Body(e.job);
    assert b[TaskId] == Str(j.taskId) && b[Capability] == Str(j.capability);
  }

  lemma RememberStep(cred: string -> Secret, w: World, d: string, r: Record, now: int)
    requires Inv(cred, w) && d in w.devices && w.devices[d].phase.Idle? && Deliverable(w, r)
    requires ValidateJob(w.devices[d].config, Elements(w.devices[d].nonces), Obj(r), now) == []
    ensures Inv(cred, AfterRemember(w, d, r))
  {
    DeliveredJobIsGenuine(cred, w, d, r, now);
    AcceptedNonceIsNew(w.devices[d].config, Elements(w.devices[d].nonces), r, now);
    NewNonceKeeps(cred, w, d, r);
  }

  lemma NewNonceKeeps(cred: string -> Secret, w: World, d: string, r: Record)
    requires Inv(cred, w) && d in w.devices && w.devices[d].phase.Idle?
    requires Genuine(w.enqueued, w.devices[d].config, r) && NonceOf(r) !in Elements(w.devices[d].nonces)
    ensures Inv(cred, AfterRemember(w, d, r))
  {
    RememberDevices(w, d, r);
    DeviceStep(cred, w, AfterRemember(w, d, r));
  }

  lemma AcceptedNonceIsNew(c: Config, seen: set<string>, r: Record, now: int)
    requires ValidateJob(c, seen, Obj(r), now) == []
    ensures NonceOf(r) !in seen
  {
    NoErrorsIff(c, seen, Obj(r), now);
  }

  lemma RememberDevices(w: World, d: string, r: Record)
    requires DeviceInv(w) && d in w.devices && w.devices[d].phase.Idle?
    requires Genuine(w.enqueued, w.devices[d].config, r) && NonceOf(r) !in Elements(w.devices[d].nonces)
    ensures DeviceInv(AfterRemember(w, d, r))
  {
    var w' := AfterRemember(w, d, r);
    forall x | x in w'.devices ensures DeviceOk(w', x) {
      if x == d { RememberedOk(w, d, r); } else { DeviceUntouched(w, w', x); }
    }
  }

  lemma DeviceUntouched(w: World, w': World, x: string)
    requires x in w.devices && x in w'.devices && w'.devices[x] == w.devices[x]
    requires w'.enqueued == w.enqueued && w'.executions == w.executions && DeviceOk(w, x)
    ensures DeviceOk(w', x)
  {
  }

  lemma RememberedOk(w: World, d: string, r: Record)
    requires d in w.devices && DeviceOk(w, d) && w.devices[d].phase.Idle?
    requires Genuine(w.enqueued, w.devices[d].config, r) && NonceOf(r) !in Elements(w.devices[d].nonces)
    ensures DeviceOk(AfterRemember(w, d, r), d)
  {
    RememberKeeps(w.devices[d].log, NonceOf(r));
    CountRemembered(w, AfterRemember(w, d, r), d, r);
  }

  lemma CountRemembered(w: World, w': World, d: string, r: Record)
    requires d in w.devices && DeviceOk(w, d) && w.devices[d].phase.Idle? && w' == AfterRemember(w, d, r)
    ensures forall m :: Executed(w'.executions, d, m) + Pending(w'.devices[d], m) <= multiset(w'.devices[d].log)[m]
  {
    var log, n := w.devices[d].log, NonceOf(r);
    forall m ensures Executed(w'.executions, d, m) + Pending(w'.devices[d], m) <= multiset(w'.devices[d].log)[m] {
      assert multiset(log + [n])[m] == multiset(log)[m] + if m == n then 1 else 0;
      assert Executed(w.executions, d, m) + Pending(w.devices[d], m) <= multiset(log)[m];
    }
  }

  /** Remembering a nonce that the window does not hold keeps the window invariant. */
  lemma RememberKeeps(log: seq<string>, n: string)
    requires WindowInv(log) && n !in Elements(RememberAll(log))
    ensures RememberAll(log + [n]) == Remember(RememberAll(log), n)
    ensures WindowInv(log + [n])
  {
    var log' := log + [n];
    assert log'[..|log'| - 1] == log;
    assert Elements(log') == Elements(log) + {n};
    forall m | multiset(log')[m] >= 2 ensures |Above(Elements(log'), m)| >= REPLAY_WINDOW {
      SubsetSize(Above(Elements(log), m), Above(Elements(log'), m));
      if m == n {
        assert multiset(log)[n] >= 1;
        assert n in log;
        Readmitted(log, n);
      } else {
        assert multiset(log)[m] >= 2;
      }
    }
  }

  lemma RunStep(cred: string -> Secret, w: World, d: string)
    requires Inv(cred, w) && d in w.devices && w.devices[d].phase.Remembered?
    ensures Inv(cred, AfterRun(w, d))
  {
    RunDevices(w, d);
    DeviceStep(cred, w, AfterRun(w, d));
  }

  lemma RunDevices(w: World, d: string)
    requires DeviceInv(w) && d in w.devices && w.devices[d].phase.Remembered?
    ensures DeviceInv(AfterRun(w, d))
  {
    var w' := AfterRun(w, d);
    assert DeviceOk(w, d);
    assert w'.executions[..|w'.executions| - 1] == w.executions;
    forall x | x in w'.devices ensures DeviceOk(w', x) {
      assert DeviceOk(w, x);
      CountRun(w, d, x);
    }
  }

  /** Running a job turns its pending count into an execution. */
  lemma CountRun(w: World, d: string, x: string)
    requires d in w.devices && w.devices[d].phase.Remembered? && x in w.devices && DeviceOk(w, x)
    ensures var w' := AfterRun(w, d);
            forall n :: Executed(w'.executions, x, n) + Pending(w'.devices[x], n) <= multiset(w'.devices[x].log)[n]
  {
    var w' := AfterRun(w, d);
    assert w'.executions[..|w'.executions| - 1] == w.executions;
    forall n ensures Executed(w'.executions, x, n) + Pending(w'.devices[x], n) <= multiset(w'.devices[x].log)[n] {
      assert Executed(w.executions, x, n) + Pending(w.devices[x], n) <= multiset(w.devices[x].log)[n];
    }
  }

  /** A worker that stops, by finishing or by crashing, keeps its persisted state. */
  lemma StopStep(cred: string -> Secret, w: World, d: string)
    requires Inv(cred, w) && d in w.devices
    ensures Inv(cred, AfterStop(w, d))
  {
    StopDevices(w, d);
    DeviceStep(cred, w, AfterStop(w, d));
  }

  lemma StopDevices(w: World, d: string)
    requires DeviceInv(w) && d in w.devices
    ensures DeviceInv(AfterStop(w, d))
  {
    var w' := AfterStop(w, d);
    forall x | x in w'.devices ensures DeviceOk(w', x) {
      assert DeviceOk(w, x);
      forall n ensures Executed(w'.executions, x, n) + Pending(w'.devices[x], n) <= multiset(w'.devices[x].log)[n] {
        assert Executed(w.executions, x, n) + Pending(w.devices[x], n) <= multiset(w.devices[x].log)[n];
      }
    }
  }

  lemma FinishStep(cred: string -> Secret, w: World, d: string, output: Json, now: int, tail: Json)
    requires Inv(cred, w) && d in w.devices && w.devices[d].phase.Ran?
    ensures var dev := w.devices[d];
            Inv(cred, AfterSign(AfterStop(w, d), dev.config.secret,
                ResultBody(dev.config, dev.phase.job, output, now, tail)))
  {
    var dev := w.devices[d];
    StopStep(cred, w, d);
    assert DeviceOk(w, d);
    RanResultSigned(w, d, output, now, tail);
    SignStep(cred, AfterStop(w, d), dev.config.secret, ResultBody(dev.config, dev.phase.job, output, now, tail));
  }

  lemma RanResultSigned(w: World, d: string, output: Json, now: int, tail: Json)
    requires d in w.devices && DeviceOk(w, d) && w.devices[d].phase.Ran?
    ensures ResultSigned(AfterStop(w, d), ResultBody(w.devices[d].config, w.devices[d].phase.job, output, now, tail))
  {
    var dev, v := w.devices[d], AfterStop(w, d);
    var e := Execution(d, dev.phase.job);
    ResultBodyFor(dev.config, dev.phase.job, output, now, tail);
    assert e in v.executions && e.device in v.devices && v.devices[e.device].config == dev.config;
  }

  lemma ResultBodyFor(c: Config, job: Record, output: Json, now: int, tail: Json)
    ensures ResultFor(c, job, ResultBody(c, job, output, now, tail))
  {
  }

  lemma BeginStep(cred: string -> Secret, w: World, d: string, r: Record, now: int)
    requires Inv(cred, w) && Enabled(w, DoBegin(d, r, now))
    ensures Inv(cred, Apply(cred, w, DoBegin(d, r, now)))
  {
    var dev := w.devices[d];
    var errors := ValidateJob(dev.config, Elements(dev.nonces), Obj(r), now);
    if errors == [] {
      RememberStep(cred, w, d, r, now);
    } else {
      RejectStep(cred, w, dev.config.secret, Get(r, TaskId), errors);
    }
  }

  lemma RejectStep(cred: string -> Secret, w: World, s: Secret, taskId: Json, errors: seq<JobError>)
    requires Inv(cred, w)
    ensures Inv(cred, AfterSign(w, s, RejectedBody(taskId, errors)))
  {
    var b := RejectedBody(taskId, errors);
    assert TargetDeviceId !in b && DeviceId !in b;
    SignStep(cred, w, s, b);
  }

  lemma RegisterStep(cred: string -> Secret, w: World, d: string, commit: string, digest: string, secret: Secret,
                     now: int)
    requires Inv(cred, w)
    ensures Inv(cred, Apply(cred, w, DoRegister(d, commit, digest, secret, now)))
  {
    if RegisterDevice(w.queue, d, commit, digest, secret, now).Ok? {
      RegisterKeeps(w, d, commit, digest, secret, now);
      QuietStep(cred, w, Apply(cred, w, DoRegister(d, commit, digest, secret, now)));
    }
  }

  lemma PollStep(cred: string -> Secret, w: World, d: string, now: int)
    requires Inv(cred, w)
    ensures Inv(cred, AfterPoll(w, d, now))
  {
    PollKeeps(w, d, now);
    PollFrame(w, d, now);
    QuietStep(cred, w, AfterPoll(w, d, now));
  }

  lemma PollFrame(w: World, d: string, now: int)
    ensures var w' := AfterPoll(w, d, now);
            && w'.devices == w.devices && w'.executions == w.executions && w'.signed == w.signed
            && w'.enqueued == w.enqueued && w'.queue.results == w.queue.results
  {
  }

  lemma AuthStep(cred: string -> Secret, w: World, d: string, method_: string, now: int, nonce: string)
    requires Inv(cred, w) && d in w.devices
    ensures var c := w.devices[d].config; Inv(cred, AfterSign(w, c.secret, AuthBody(c, method_, now, nonce)))
  {
    var c := w.devices[d].config;
    SignStep(cred, w, c.secret, AuthBody(c, method_, now, nonce));
  }

  lemma StepKeeps(cred: string -> Secret, w: World, step: Step)
    requires Inv(cred, w) && Enabled(w, step)
    ensures Inv(cred, Apply(cred, w, step))
  {
    match step {
      case DoRegister(d, commit, digest, secret, now) => RegisterStep(cred, w, d, commit, digest, secret, now);
      case DoEnqueue(_, _, _, _, _, _, _) => EnqueueStep(cred, w, step);
      case DoPoll(d, now) => PollStep(cred, w, d, now);
      case DoAccept(r) => if AcceptResult(w.queue, cred, r).Ok? { AcceptStep(cred, w, r); }
      case DoBegin(d, r, now) => BeginStep(cred, w, d, r, now);
      case DoRun(d) => RunStep(cred, w, d);
      case DoFinish(d, output, now, tail) => FinishStep(cred, w, d, output, now, tail);
      case DoCrash(d) => StopStep(cred, w, d);
      case DoAuthRequest(d, method_, now, nonce) => AuthStep(cred, w, d, method_, now, nonce);
    }
  }

  lemma {:induction false} ReachableInv(cred: string -> Secret, w: World, run: seq<Step>, start: World)
    requires Reachable(cred, w, run, start)
    ensures Inv(cred, w)
    decreases |run|
  {
    if run == [] {
      InitialInv(cred, w);
    } else {
      var n := |run| - 1;
      var v :| Reachable(cred, v, run[..n], start) && Enabled(v, run[n]) && w == Apply(cred, v, run[n]);
      ReachableInv(cred, v, run[..n], start);
      StepKeeps(cred, v, run[n]);
    }
  }

  lemma InitialInv(cred: string -> Secret, w: World)
    requires Initial(w)
    ensures Inv(cred, w)
  {
    assert Gone(w) == {};
    forall d | d in w.devices ensures DeviceOk(w, d) { }
    assert AckedNonces(w.enqueued, w.queue.results.Keys) == {};
  }

  // ---- Main results ----

  ghost predicate WithinWindow(w: World, j: Job) {
    j.device in w.devices ==> |Above(Elements(w.devices[j.device].log), j.nonce)| < REPLAY_WINDOW
  }

  lemma ExecutedAtMostOnce(w: World, j: Job)
    requires ControllerInv(w) && DeviceInv(w) && j in w.enqueued
    ensures forall d :: d != j.device ==> Executed(w.executions, d, j.nonce) == 0
    ensures WithinWindow(w, j) ==> Executed(w.executions, j.device, j.nonce) <= 1
  {
    forall d | d != j.device || d !in w.devices ensures Executed(w.executions, d, j.nonce) == 0 {
      OnlyTarget(w, w.executions, j, d);
    }
    if j.device in w.devices {
      assert DeviceOk(w, j.device);
      assert Executed(w.executions, j.device, j.nonce) <= multiset(w.devices[j.device].log)[j.nonce];
    }
  }

  /** At most once. In every run, a job is executed twice only if its device has meanwhile remembered at
      least 4096 larger nonces; no other device ever executes it. */
  lemma AtMostOnce(cred: string -> Secret, w: World, run: seq<Step>, start: World, j: Job)
    requires Reachable(cred, w, run, start) && j in w.enqueued
    ensures forall d :: d != j.device ==> Executed(w.executions, d, j.nonce) == 0
    ensures WithinWindow(w, j) ==> Executed(w.executions, j.device, j.nonce) <= 1
    ensures (j.device in w.devices ==> |Elements(w.devices[j.device].log)| <= REPLAY_WINDOW)
            ==> Executed(w.executions, j.device, j.nonce) <= 1
  {
    ReachableInv(cred, w, run, start);
    ExecutedAtMostOnce(w, j);
    if j.device in w.devices && |Elements(w.devices[j.device].log)| <= REPLAY_WINDOW {
      SmallLogWithin(w, j);
    }
  }

  /** A device that has remembered at most 4096 distinct nonces never overflowed its window. */
  lemma SmallLogWithin(w: World, j: Job)
    requires ControllerInv(w) && DeviceInv(w) && j in w.enqueued
    requires j.device in w.devices && |Elements(w.devices[j.device].log)| <= REPLAY_WINDOW
    ensures WithinWindow(w, j) || Executed(w.executions, j.device, j.nonce) == 0
  {
    var dev := w.devices[j.device];
    assert DeviceOk(w, j.device);
    var E := Elements(dev.log);
    if j.nonce in E {
      assert j.nonce !in Above(E, j.nonce);
      SubsetSize(Above(E, j.nonce), E - {j.nonce});
    } else {
      assert multiset(dev.log)[j.nonce] == 0;
    }
  }

  lemma {:induction false} OnlyTarget(w: World, xs: seq<Execution>, j: Job, d: string)
    requires ControllerInv(w) && DeviceInv(w) && j in w.enqueued && (d != j.device || d !in w.devices)
    requires forall e :: e in xs ==> e in w.executions
    ensures Executed(xs, d, j.nonce) == 0
  {
    if xs == [] {
    } else {
      var e := xs[|xs| - 1];
      assert forall f :: f in xs[..|xs| - 1] ==> f in xs;
      OnlyTarget(w, xs[..|xs| - 1], j, d);
      if e.device == d {
        assert e in w.executions;
        assert DeviceOk(w, d);
        var k :| k in w.enqueued && GenuineFor(w.devices[d].config, e.job, k);
        assert Body(e.job)[Nonce] == Str(k.nonce);
        assert k.device == d;
        SameTask(w.enqueued, j, k);
      }
    }
  }

  /** This step asked the controller to have the device run the job with exactly these fields. */
  predicate Requested(step: Step, device: string, job: Record) {
    && step.DoEnqueue? && step.device == device
    && 0 < step.ttl <= 3600
    && (step.capability == "diagnostic_status" || step.capability == "inventory_snapshot")
    && Get(job, TargetDeviceId) == Str(device) && Get(job, TaskId) == Str(step.taskId)
    && Get(job, Capability) == Str(step.capability) && Get(job, Parameters) == Obj(step.parameters)
    && Get(job, ExpiresAt) == Stamp(step.now + step.ttl) && Get(job, Nonce) == Str(step.nonce)
  }

  ghost predicate AllRequested(jobs: seq<Job>, run: seq<Step>) {
    forall j :: j in jobs ==> exists i :: 0 <= i < |run| && Requested(run[i], j.device, JobBody(j))
  }

  lemma RequestedJob(step: Step, j: Job)
    requires step.DoEnqueue? && 0 < step.ttl <= 3600
    requires step.capability == "diagnostic_status" || step.capability == "inventory_snapshot"
    requires j == Job(step.taskId, step.device, step.capability, step.parameters, step.now + step.ttl, step.nonce,
                      j.commit)
    ensures Requested(step, j.device, JobBody(j))
  {
  }

  /** A step enqueues nothing, or the one job it asks for. */
  lemma EnqueuedByStep(cred: string -> Secret, w: World, step: Step, j: Job)
    requires Enabled(w, step) && j in Apply(cred, w, step).enqueued && j !in w.enqueued
    ensures Requested(step, j.device, JobBody(j))
  {
    assert step.DoEnqueue?;
    RequestedJob(step, j);
  }

  lemma {:induction false} EnqueuedAsRequested(cred: string -> Secret, w: World, run: seq<Step>, start: World)
    requires Reachable(cred, w, run, start)
    ensures AllRequested(w.enqueued, run)
    decreases |run|
  {
    if run == [] {
    } else {
      var n := |run| - 1;
      var v :| Reachable(cred, v, run[..n], start) && Enabled(v, run[n]) && w == Apply(cred, v, run[n]);
      EnqueuedAsRequested(cred, v, run[..n], start);
      forall j | j in w.enqueued ensures exists i :: 0 <= i < |run| && Requested(run[i], j.device, JobBody(j)) {
        if j in v.enqueued {
          var i :| 0 <= i < n && Requested(run[..n][i], j.device, JobBody(j));
          assert run[..n][i] == run[i];
        } else {
          EnqueuedByStep(cred, v, run[n], j);
        }
      }
    }
  }

  /** Whatever any device ever executes was asked for at the controller: for that device, with that capability and
      those parameters, under that task id and nonce, for at most an hour. */
  lemma ExecutedAsRequested(cred: string -> Secret, w: World, run: seq<Step>, start: World, e: Execution)
    requires Reachable(cred, w, run, start) && e in w.executions
    ensures exists i :: 0 <= i < |run| && Requested(run[i], e.device, e.job)
  {
    EnqueuedAsRequested(cred, w, run, start);
    ReachableInv(cred, w, run, start);
    var j := JobExecuted(cred, w, e);
    var i :| 0 <= i < |run| && Requested(run[i], j.device, JobBody(j));
    SameFields(run[i], e, j);
  }

  lemma JobExecuted(cred: string -> Secret, w: World, e: Execution) returns (j: Job)
    requires Inv(cred, w) && e in w.executions
    ensures j in w.enqueued && j.device == e.device && Body(e.job) == JobBody(j)
  {
    assert DeviceOk(w, e.device);
    j :| j in w.enqueued && GenuineFor(w.devices[e.device].config, e.job, j);
  }

  lemma SameFields(step: Step, e: Execution, j: Job)
    requires Requested(step, j.device, JobBody(j)) && j.device == e.device && Body(e.job) == JobBody(j)
    ensures Requested(step, e.device, e.job)
  {
    forall f: Field | f != Signature ensures Get(e.job, f) == Get(JobBody(j), f) {
      assert f in Body(e.job) <==> f in e.job;
    }
  }

  /** Every acknowledged result stems from an execution of that same job, by its target device, with the
      job's capability and source commit; while the replay window has not overflowed, from exactly one. */
  lemma AcknowledgedOnce(cred: string -> Secret, w: World, run: seq<Step>, start: World, t: string)
    returns (j: Job, e: Execution)
    requires Reachable(cred, w, run, start) && t in w.queue.results
    ensures j in w.enqueued && j.taskId == t && e in w.executions && StemsFrom(w.queue.results[t], j, e)
    ensures Executed(w.executions, j.device, j.nonce) >= 1
    ensures WithinWindow(w, j) ==> Executed(w.executions, j.device, j.nonce) == 1
  {
    ReachableInv(cred, w, run, start);
    assert Backed(w, t, w.queue.results[t]);
    j, e :| j in w.enqueued && j.taskId == t && e in w.executions && StemsFrom(w.queue.results[t], j, e);
    ExecutedAtMostOnce(w, j);
    StemmingCounts(w, w.queue.results[t], j, e);
  }

  lemma StemmingCounts(w: World, result: Record, j: Job, e: Execution)
    requires e in w.executions && StemsFrom(result, j, e)
    ensures Executed(w.executions, j.device, j.nonce) >= 1
  {
    assert Body(e.job)[Nonce] == Str(j.nonce);
    CountsMember(w.executions, e, j.nonce);
  }

  lemma {:induction false} CountsMember(xs: seq<Execution>, e: Execution, n: string)
    requires e in xs && NonceOf(e.job) == n
    ensures Executed(xs, e.device, n) >= 1
  {
    if xs[|xs| - 1] == e {
    } else {
      assert e in xs[..|xs| - 1];
      CountsMember(xs[..|xs| - 1], e, n);
    }
  }

  /** In every run each enqueued job is in exactly one of outstanding, acknowledged, dropped; every queue
      lists its outstanding jobs in enqueue order; the consumed nonces are those of the acknowledged jobs. */
  lemma QueueBookkeeping(cred: string -> Secret, w: World, run: seq<Step>, start: World, j: Job)
    requires Reachable(cred, w, run, start) && j in w.enqueued
    ensures j in QueueOf(w.queue, j.device) <==> j.taskId !in w.queue.results && j.taskId !in w.dropped
    ensures !(j.taskId in w.queue.results && j.taskId in w.dropped)
    ensures forall d :: d != j.device ==> j !in QueueOf(w.queue, d)
    ensures forall d :: QueueOf(w.queue, d) == Outstanding(w.enqueued, d, w.dropped + w.queue.results.Keys)
    ensures j.nonce in w.queue.consumed <==> j.taskId in w.queue.results
    ensures w.queue.consumed == AckedNonces(w.enqueued, w.queue.results.Keys)
  {
    ReachableInv(cred, w, run, start);
    forall d ensures j in QueueOf(w.queue, d) <==> j.device == d && j.taskId !in Gone(w) {
      OutstandingMember(w.enqueued, d, Gone(w), j);
    }
    forall k | k in w.enqueued && k.nonce == j.nonce ensures k == j { SameTask(w.enqueued, j, k); }
  }

  /** A poll drops exactly the leading jobs that have expired: whatever it drops had expired, and the job it
      offers is the oldest outstanding one and has not. */
  lemma PollDropsOnlyExpired(cred: string -> Secret, w: World, run: seq<Step>, start: World, d: string, now: int)
    requires Reachable(cred, w, run, start)
    ensures var w' := Apply(cred, w, DoPoll(d, now));
            && (forall j :: j in w.enqueued && j.taskId in w'.dropped && j.taskId !in w.dropped
                            ==> j.device == d && j.expiresAt <= now)
            && match NextJob(w.queue, d, now).1
               case Some(j) => now < j.expiresAt && QueueOf(w'.queue, d) != [] && QueueOf(w'.queue, d)[0] == j
               case None => d in w.queue.registrations ==> QueueOf(w'.queue, d) == []
  {
    ReachableInv(cred, w, run, start);
    var w' := AfterPoll(w, d, now);
    if d in w.queue.registrations {
      OutstandingDrop(w.enqueued, d, Gone(w), now);
      HeadUnexpired(QueueOf(w.queue, d), now);
      forall j | j in w.enqueued && j.taskId in w'.dropped && j.taskId !in w.dropped
        ensures j.device == d && j.expiresAt <= now
      {
        var k :| k in QueueOf(w.queue, d) && k.taskId == j.taskId;
        OutstandingMember(w.enqueued, d, Gone(w), k);
        SameTask(w.enqueued, j, k);
        assert forall m :: m in QueueOf(w'.queue, d) ==> m.taskId in TaskIds(QueueOf(w'.queue, d));
      }
    }
  }

  lemma {:induction false} HeadUnexpired(s: seq<Job>, now: int)
    ensures DropExpired(s, now) != [] ==> now < DropExpired(s, now)[0].expiresAt
  {
    if s == [] || s[0].expiresAt > now {
    } else {
      HeadUnexpired(s[1..], now);
    }
  }

  /** Replaying an unexpired job that its device has already remembered succeeds exactly when at least 4096
      larger nonces have been remembered since: the window is the only protection before expiry. */
  lemma ReplayAcceptedIff(cred: string -> Secret, w: World, run: seq<Step>, start: World, j: Job, now: int)
    requires Reachable(cred, w, run, start) && j in w.enqueued && j.device in w.devices
    requires var dev := w.devices[j.device];
             dev.config.secret == cred(j.device) && dev.config.sourceCommit == j.commit && j.nonce in dev.log
    requires now < j.expiresAt
    ensures var dev := w.devices[j.device];
            ValidateJob(dev.config, Elements(dev.nonces), Obj(Sign(JobBody(j), cred(j.device))), now) == []
            <==> |Above(Elements(dev.log), j.nonce)| >= REPLAY_WINDOW
  {
    ReachableInv(cred, w, run, start);
    var dev := w.devices[j.device];
    assert DeviceOk(w, j.device);
    GenuineJobAccepted(dev.config, Elements(dev.nonces), j, cred(j.device), now);
    Readmitted(dev.log, j.nonce);
  }

  // ---- When the two sides accept ----

  /** r is a result for the outstanding job j, signed by j's device. */
  predicate Acknowledges(cred: string -> Secret, q: QueueState, r: Record, j: Job) {
    && j in QueueOf(q, j.device)
    && Get(r, DeviceId) == Str(j.device) && Get(r, TaskId) == Str(j.taskId) && Get(r, Capability) == Str(j.capability)
    && Get(r, SourceCommit) == Str(j.commit) && Verifies(r, cred(j.device))
  }

  predicate NewlyAcknowledged(cred: string -> Secret, q: QueueState, r: Record) {
    AcceptResult(q, cred, r).Ok? && AcceptResult(q, cred, r).value.1.Acknowledged?
  }

  /** In every run, a result is newly acknowledged exactly when it carries the task, device, capability and
      commit of one outstanding job and is signed by that device. */
  lemma AcceptIff(cred: string -> Secret, w: World, run: seq<Step>, start: World, r: Record)
    requires Reachable(cred, w, run, start)
    ensures NewlyAcknowledged(cred, w.queue, r) <==> exists j :: Acknowledges(cred, w.queue, r, j)
  {
    ReachableInv(cred, w, run, start);
    if NewlyAcknowledged(cred, w.queue, r) {
      var queue, t := QueueOf(w.queue, Get(r, DeviceId).s), Get(r, TaskId).s;
      FindTaskMember(queue, t);
      var j := FindTask(queue, t).value;
      OutstandingMember(w.enqueued, Get(r, DeviceId).s, Gone(w), j);
      assert Acknowledges(cred, w.queue, r, j);
    }
    if j :| Acknowledges(cred, w.queue, r, j) { AcknowledgedThen(cred, w, r, j); }
  }

  lemma AcknowledgedThen(cred: string -> Secret, w: World, r: Record, j: Job)
    requires ControllerInv(w) && Acknowledges(cred, w.queue, r, j)
    ensures NewlyAcknowledged(cred, w.queue, r) && AcceptResult(w.queue, cred, r).value.1 == Acknowledged(j.taskId)
  {
    var queue := QueueOf(w.queue, j.device);
    OutstandingMember(w.enqueued, j.device, Gone(w), j);
    FindTaskMember(queue, j.taskId);
    var k := FindTask(queue, j.taskId).value;
    OutstandingMember(w.enqueued, j.device, Gone(w), k);
    SameTask(w.enqueued, j, k);
    AckKeeps(w, j.device, j, r);
  }

  /** Round trip: what a device signs after running an outstanding job is acknowledged for exactly that job. */
  lemma ExecutionAcknowledged(cred: string -> Secret, w: World, run: seq<Step>, start: World, j: Job, c: Config,
                              output: Json, now: int, tail: Json)
    requires Reachable(cred, w, run, start) && j in QueueOf(w.queue, j.device)
    requires c == Config(j.device, j.commit, cred(j.device))
    ensures var r := Sign(ResultBody(c, Sign(JobBody(j), cred(j.device)), output, now, tail), c.secret);
            NewlyAcknowledged(cred, w.queue, r) && AcceptResult(w.queue, cred, r).value.1 == Acknowledged(j.taskId)
  {
    ReachableInv(cred, w, run, start);
    var r := Sign(ResultBody(c, Sign(JobBody(j), cred(j.device)), output, now, tail), c.secret);
    ResultCarries(c, j, cred(j.device), output, now, tail);
    AcknowledgedThen(cred, w, r, j);
  }

  lemma ResultCarries(c: Config, j: Job, secret: Secret, output: Json, now: int, tail: Json)
    ensures var r := Sign(ResultBody(c, Sign(JobBody(j), secret), output, now, tail), c.secret);
            && Get(r, DeviceId) == Str(c.deviceId) && Get(r, TaskId) == Str(j.taskId)
            && Get(r, Capability) == Str(j.capability) && Get(r, SourceCommit) == Str(c.sourceCommit)
            && Verifies(r, c.secret)
  {
    var job := Sign(JobBody(j), secret);
    assert Get(job, TaskId) == Str(j.taskId) && Get(job, Capability) == Str(j.capability);
    SignVerifies(ResultBody(c, job, output, now, tail), c.secret, c.secret);
  }

  /** A freshly enqueued job is accepted by its device at every moment before its time to live is over, which is
      at most an hour, and at none after. */
  lemma FreshJobAcceptedUntilExpiry(cred: string -> Secret, w: World, step: Step, c: Config, seen: set<string>,
                                    later: int)
    requires step.DoEnqueue? && Enabled(w, step)
    requires Enqueue(w.queue, step.device, step.capability, step.parameters, step.ttl, step.now, step.taskId,
                     step.nonce).Ok?
    requires c == Config(step.device, w.queue.registrations[step.device].sourceCommit, cred(step.device))
               && step.nonce !in seen
    ensures var j := Enqueue(w.queue, step.device, step.capability, step.parameters, step.ttl, step.now, step.taskId,
                             step.nonce).value.1;
            && (ValidateJob(c, seen, Obj(Sign(JobBody(j), cred(step.device))), later) == []
                <==> later < step.now + step.ttl)
            && step.now < step.now + step.ttl <= step.now + 3600
  {
    var j := Enqueue(w.queue, step.device, step.capability, step.parameters, step.ttl, step.now, step.taskId,
                     step.nonce).value.1;
    GenuineJobAccepted(c, seen, j, cred(step.device), later);
  }

  predicate KeepsIdentity(a: Registration, b: Registration) {
    a.sourceCommit == b.sourceCommit && a.fingerprint == b.fingerprint && a.enrollmentDigest == b.enrollmentDigest
  }

  /** Once registered, a device keeps its commit, credential and enrolment through every step of every party. */
  lemma IdentityNeverChanges(cred: string -> Secret, w: World, step: Step, d: string)
    requires Enabled(w, step) && d in w.queue.registrations
    ensures var w' := Apply(cred, w, step);
            d in w'.queue.registrations && KeepsIdentity(w.queue.registrations[d], w'.queue.registrations[d])
  {
    if step.DoAccept? && AcceptResult(w.queue, cred, step.result).Ok? {
      AcceptOutcome(cred, w.queue, step.result);
    }
  }
}
