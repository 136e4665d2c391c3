/** Controller and workers composed over a hostile network, as a transition system.

    One step is one atomic action of one party. The network loses, duplicates, delays, reorders and
    forges: a step may deliver any record at all, except one that verifies under a secret whose holder
    never signed that body (`Deliverable`). Workers crash between any two of their steps and keep only
    the persisted nonce list. Clock readings are arbitrary. Task ids and nonces are fresh. */
module OutboundProtocol {
  import opened Common
  import opened OutboundWire
  import opened OutboundQueue
  import opened OutboundWorker
  import opened TextOrder

  /** Where a worker stands inside `execute_job`. */
  datatype Phase = Idle | Remembered(job: Record) | Ran(job: Record)

  /** `log` lists every nonce the worker ever remembered; the worker itself only has `nonces`. */
  datatype Device = Device(config: Config, nonces: seq<string>, phase: Phase, log: seq<string>)

  datatype Execution = Execution(device: string, job: Record)

  /** `enqueued`, `dropped`, `signed` and `executions` are history, not system state. */
  datatype World = World(queue: QueueState, enqueued: seq<Job>, dropped: set<string>,
                         devices: map<string, Device>, signed: set<(Secret, Record)>,
                         executions: seq<Execution>)

  datatype Step =
    | DoRegister(device: string, commit: string, digest: string, secret: Secret, now: int)
    | DoEnqueue(device: string, capability: string, parameters: Record, ttl: int, now: int, taskId: string,
                nonce: string)
    | DoPoll(device: string, now: int)
    | DoAccept(result: Record)
    | DoBegin(device: string, payload: Record, now: int)
    | DoRun(device: string)
    | DoFinish(device: string, output: Json, now: int, tail: Json)
    | DoCrash(device: string)
    | DoAuthRequest(device: string, method_: string, now: int, nonce: string)

  /** Ideal HMAC: a record that verifies under an honest secret has a body its holder signed. */
  predicate Deliverable(w: World, r: Record) {
    var tag := Get(r, Signature);
    tag.Mac? && tag.body == Body(r) ==> (tag.secret, tag.body) in w.signed
  }

  predicate Enabled(w: World, step: Step) {
    match step
    case DoEnqueue(_, _, _, _, _, taskId, nonce) =>
      && taskId != "" && nonce != ""
      && forall i :: 0 <= i < |w.enqueued| ==> w.enqueued[i].taskId != taskId && w.enqueued[i].nonce != nonce
    case DoAccept(r) => Deliverable(w, r)
    case DoBegin(d, r, _) => d in w.devices && w.devices[d].phase.Idle? && Deliverable(w, r)
    case DoRun(d) => d in w.devices && w.devices[d].phase.Remembered?
    case DoFinish(d, _, _, _) => d in w.devices && w.devices[d].phase.Ran?
    case DoCrash(d) => d in w.devices
    case DoAuthRequest(d, _, _, _) => d in w.devices
    case _ => true
  }

  function TaskIds(s: seq<Job>): set<string> {
    set j | j in s :: j.taskId
  }

  function NonceOf(r: Record): string {
    if Get(r, Nonce).Str? then Get(r, Nonce).s else ""
  }

  function AuthBody(c: Config, method_: string, now: int, nonce: string): Record {
    map[DeviceId := Str(c.deviceId), Method := Str(method_), Timestamp := Stamp(now), Nonce := Str(nonce)]
  }

  function AfterEnqueue(cred: string -> Secret, w: World, p: (QueueState, Job)): World {
    w.(queue := p.0, enqueued := w.enqueued + [p.1], signed := w.signed + {(cred(p.1.device), JobBody(p.1))})
  }

  function AfterPoll(w: World, d: string, now: int): World {
    var q := NextJob(w.queue, d, now).0;
    w.(queue := q, dropped := w.dropped + (TaskIds(QueueOf(w.queue, d)) - TaskIds(QueueOf(q, d))))
  }

  /** The worker validated r and persisted its nonce. */
  function AfterRemember(w: World, d: string, r: Record): World
    requires d in w.devices
  {
    var dev := w.devices[d];
    var n := NonceOf(r);
    w.(devices := w.devices[d := dev.(nonces := Remember(dev.nonces, n), phase := Remembered(r), log := dev.log + [n])])
  }

  function AfterRun(w: World, d: string): World
    requires d in w.devices && w.devices[d].phase.Remembered?
  {
    var dev := w.devices[d];
    w.(devices := w.devices[d := dev.(phase := Ran(dev.phase.job))],
       executions := w.executions + [Execution(d, dev.phase.job)])
  }

  function AfterStop(w: World, d: string): World
    requires d in w.devices
  {
    w.(devices := w.devices[d := w.devices[d].(phase := Idle)])
  }

  function AfterSign(w: World, s: Secret, b: Record): World {
    w.(signed := w.signed + {(s, b)})
  }

  function Apply(cred: string -> Secret, w: World, step: Step): World
    requires Enabled(w, step)
  {
    match step
    case DoRegister(d, commit, digest, secret, now) =>
      (match RegisterDevice(w.queue, d, commit, digest, secret, now)
       case Ok(q) => w.(queue := q)
       case Err(_) => w)
    case DoEnqueue(d, capability, parameters, ttl, now, taskId, nonce) =>
      (match Enqueue(w.queue, d, capability, parameters, ttl, now, taskId, nonce)
       case Ok(p) => AfterEnqueue(cred, w, p)
       case Err(_) => w)
    case DoPoll(d, now) => AfterPoll(w, d, now)
    case DoAccept(r) =>
      (match AcceptResult(w.queue, cred, r)
       case Ok(p) => w.(queue := p.0)
       case Err(_) => w)
    case DoBegin(d, r, now) =>
      var dev := w.devices[d];
      var errors := ValidateJob(dev.config, Elements(dev.nonces), Obj(r), now);
      // A rejection is no signed record, but it is posted under a header that signs it.
      if errors == [] then AfterRemember(w, d, r)
      else AfterSign(w, dev.config.secret, RejectedBody(Get(r, TaskId), errors))
    case DoRun(d) => AfterRun(w, d)
    case DoFinish(d, output, now, tail) =>
      var dev := w.devices[d];
      AfterSign(AfterStop(w, d), dev.config.secret, ResultBody(dev.config, dev.phase.job, output, now, tail))
    case DoCrash(d) => AfterStop(w, d)
    case DoAuthRequest(d, method_, now, nonce) =>
      var c := w.devices[d].config;
      AfterSign(w, c.secret, AuthBody(c, method_, now, nonce))
  }

  predicate Initial(w: World) {
    && w.queue == EmptyQueue() && w.enqueued == [] && w.dropped == {} && w.signed == {} && w.executions == []
    && forall d :: d in w.devices ==>
         && w.devices[d].config.deviceId == d && w.devices[d].nonces == []
         && w.devices[d].phase == Idle && w.devices[d].log == []
  }

  /** The worlds a run of any length can reach. */
  ghost predicate Reachable(cred: string -> Secret, w: World, run: seq<Step>, start: World)
    decreases |run|
  {
    if run == [] then w == start && Initial(start)
    else
      var n := |run| - 1;
      exists v :: Reachable(cred, v, run[..n], start) && Enabled(v, run[n]) && w == Apply(cred, v, run[n])
  }

  // ---- Controller invariant ----

  /** The jobs of a device that are neither acknowledged nor dropped, in the order they were enqueued. */
  function Outstanding(s: seq<Job>, d: string, gone: set<string>): seq<Job> {
    if s == [] then []
    else
      var rest := Outstanding(s[..|s| - 1], d, gone);
      var j := s[|s| - 1];
      if j.device == d && j.taskId !in gone then rest + [j] else rest
  }

  predicate DistinctJobs(s: seq<Job>) {
    forall i, k :: 0 <= i < k < |s| ==> s[i].taskId != s[k].taskId && s[i].nonce != s[k].nonce
  }

  function Gone(w: World): set<string> {
    w.dropped + w.queue.results.Keys
  }

  /** Nonces of the acknowledged jobs. */
  function AckedNonces(s: seq<Job>, acked: set<string>): set<string> {
    set j | j in s && j.taskId in acked :: j.nonce
  }

  predicate JobsWellFormed(q: QueueState, s: seq<Job>) {
    forall j :: j in s ==>
      && j.device in q.registrations && j.commit == q.registrations[j.device].sourceCommit
      && j.capability in ALLOWED_CAPABILITIES && j.taskId != "" && j.nonce != ""
  }

  ghost predicate ControllerInv(w: World) {
    && DistinctJobs(w.enqueued)
    && JobsWellFormed(w.queue, w.enqueued)
    && (forall d :: QueueOf(w.queue, d) == Outstanding(w.enqueued, d, Gone(w)))
    && Gone(w) <= TaskIds(w.enqueued)
    && w.dropped !! w.queue.results.Keys
    && w.queue.consumed == AckedNonces(w.enqueued, w.queue.results.Keys)
  }

  lemma {:induction false} OutstandingMember(s: seq<Job>, d: string, gone: set<string>, j: Job)
    ensures j in Outstanding(s, d, gone) <==> j in s && j.device == d && j.taskId !in gone
  {
    if s == [] {
    } else {
      OutstandingMember(s[..|s| - 1], d, gone, j);
      assert s == s[..|s| - 1] + [s[|s| - 1]];
    }
  }

  lemma {:induction false} OutstandingDistinct(s: seq<Job>, d: string, gone: set<string>)
    requires DistinctJobs(s)
    ensures DistinctJobs(Outstanding(s, d, gone))
  {
    if s == [] {
    } else {
      var before, j := s[..|s| - 1], s[|s| - 1];
      OutstandingDistinct(before, d, gone);
      forall k | k in Outstanding(before, d, gone) ensures k.taskId != j.taskId && k.nonce != j.nonce {
        OutstandingMember(before, d, gone, k);
        var i :| 0 <= i < |before| && before[i] == k;
        assert s[i] == k;
      }
    }
  }

  lemma {:induction false} OutstandingSame(s: seq<Job>, d: string, g: set<string>, h: set<string>)
    requires forall j :: j in s && j.device == d ==> (j.taskId in g <==> j.taskId in h)
    ensures Outstanding(s, d, g) == Outstanding(s, d, h)
  {
    if s == [] {
    } else {
      assert forall j :: j in s[..|s| - 1] ==> j in s;
      OutstandingSame(s[..|s| - 1], d, g, h);
    }
  }

  lemma {:induction false} WithoutSnoc(s: seq<Job>, j: Job, t: string)
    ensures WithoutTask(s + [j], t) == if j.taskId == t then WithoutTask(s, t) else WithoutTask(s, t) + [j]
  {
    if s == [] {
      assert s + [j] == [j];
    } else {
      assert (s + [j])[1..] == s[1..] + [j];
      WithoutSnoc(s[1..], j, t);
    }
  }

  /** Marking one more task as gone is removing it from the outstanding list. */
  lemma {:induction false} OutstandingWithout(s: seq<Job>, d: string, gone: set<string>, t: string)
    ensures Outstanding(s, d, gone + {t}) == WithoutTask(Outstanding(s, d, gone), t)
  {
    if s == [] {
    } else {
      OutstandingWithout(s[..|s| - 1], d, gone, t);
      WithoutSnoc(Outstanding(s[..|s| - 1], d, gone), s[|s| - 1], t);
    }
  }

  lemma {:induction false} WithoutAbsent(s: seq<Job>, t: string)
    requires forall j :: j in s ==> j.taskId != t
    ensures WithoutTask(s, t) == s
  {
    if s == [] {
    } else {
      WithoutAbsent(s[1..], t);
    }
  }

  lemma WithoutHead(s: seq<Job>)
    requires DistinctJobs(s) && s != []
    ensures WithoutTask(s, s[0].taskId) == s[1..]
  {
    forall j | j in s[1..] ensures j.taskId != s[0].taskId {
      var i :| 0 <= i < |s[1..]| && s[1..][i] == j;
      assert s[i + 1] == j;
    }
    WithoutAbsent(s[1..], s[0].taskId);
  }

  /** Popping the expired head jobs removes exactly the popped tasks from the outstanding list. */
  lemma {:induction false} OutstandingDrop(s: seq<Job>, d: string, gone: set<string>, now: int)
    requires DistinctJobs(s)
    ensures var q := Outstanding(s, d, gone);
            var r := DropExpired(q, now);
            && r == Outstanding(s, d, gone + (TaskIds(q) - TaskIds(r)))
            && (TaskIds(q) - TaskIds(r)) !! gone
            && forall j :: j in q && j !in r ==> j.expiresAt <= now
    decreases |Outstanding(s, d, gone)|
  {
    var q := Outstanding(s, d, gone);
    OutstandingDistinct(s, d, gone);
    forall j | j in q ensures j.taskId !in gone { OutstandingMember(s, d, gone, j); }
    if q != [] && q[0].expiresAt <= now {
      var t := q[0].taskId;
      OutstandingWithout(s, d, gone, t);
      WithoutHead(q);
      assert Outstanding(s, d, gone + {t}) == q[1..];
      OutstandingDrop(s, d, gone + {t}, now);
      var r := DropExpired(q[1..], now);
      assert t !in TaskIds(r) by { DropSubset(q[1..], now); HeadDiffers(q); }
      assert TaskIds(q) == TaskIds(q[1..]) + {t} by { assert q == [q[0]] + q[1..]; }
      assert gone + {t} + (TaskIds(q[1..]) - TaskIds(r)) == gone + (TaskIds(q) - TaskIds(r));
      forall j | j in q && j !in r ensures j.expiresAt <= now {
        if j != q[0] { assert j in q[1..]; }
      }
    } else {
      assert gone + (TaskIds(q) - TaskIds(q)) == gone;
    }
  }

  lemma {:induction false} DropSubset(s: seq<Job>, now: int)
    ensures forall j :: j in DropExpired(s, now) ==> j in s
  {
    if s == [] || s[0].expiresAt > now {
    } else {
      DropSubset(s[1..], now);
    }
  }

  lemma HeadDiffers(s: seq<Job>)
    requires DistinctJobs(s) && s != []
    ensures forall j :: j in s[1..] ==> j.taskId != s[0].taskId
  {
    forall j | j in s[1..] ensures j.taskId != s[0].taskId {
      var i :| 0 <= i < |s[1..]| && s[1..][i] == j;
      assert s[i + 1] == j;
    }
  }

  lemma SameTask(s: seq<Job>, a: Job, b: Job)
    requires DistinctJobs(s) && a in s && b in s
    ensures (a.taskId == b.taskId || a.nonce == b.nonce) ==> a == b
  {
    var i :| 0 <= i < |s| && s[i] == a;
    var k :| 0 <= k < |s| && s[k] == b;
  }

  lemma {:induction false} FindTaskMember(s: seq<Job>, t: string)
    ensures match FindTask(s, t)
            case Some(j) => j in s && j.taskId == t
            case None => forall j :: j in s ==> j.taskId != t
  {
    if s == [] {
    } else {
      FindTaskMember(s[1..], t);
    }
  }
}
