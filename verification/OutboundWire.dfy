/** Records exchanged between the outbound controller and its device workers.

    Records are JSON objects, so both sides read them field by field and a record may carry any
    fields at all. The HMAC is idealised: the tag of a body under a secret is the term
    `Mac(secret, body)`, and what an attacker may deliver is limited in OutboundProtocol.Deliverable.
    Timestamps are the term `Stamp(t)`; tags and timestamps are never ordinary strings. */
module OutboundWire {

  type Secret = string

  datatype Field =
    | TaskId | TargetDeviceId | Capability | Parameters | Scope | ExpiresAt | Nonce | ExpectedCommit
    | Signature | DeviceId | Status | Timestamp | SourceCommit | Output | PreviousEvidence | Errors
    | Method | Other(name: string)

  type Record = map<Field, Json>

  datatype Json =
    | Null
    | Bool(b: bool)
    | Num(n: int)
    | Str(s: string)
    | Stamp(at: int)
    | Mac(secret: Secret, body: Record)
    | List(items: seq<Json>)
    | Obj(fields: Record)

  const ALLOWED_CAPABILITIES: set<string> := {"diagnostic_status", "inventory_snapshot"}

  function Get(r: Record, f: Field): Json {
    if f in r then r[f] else Null
  }

  /** The part of a record that its signature covers. */
  function Body(r: Record): Record {
    r - {Signature}
  }

  function Sign(body: Record, secret: Secret): Record {
    body[Signature := Mac(secret, Body(body))]
  }

  predicate Verifies(r: Record, secret: Secret) {
    Get(r, Signature) == Mac(secret, Body(r))
  }

  /** A signed record verifies under a secret exactly when that secret signed it; the body is unchanged. */
  lemma SignVerifies(body: Record, s: Secret, t: Secret)
    requires Signature !in body
    ensures Verifies(Sign(body, s), t) <==> s == t
    ensures Body(Sign(body, s)) == body
  {
    assert Body(Sign(body, s)) == body;
    assert Body(body) == body;
  }

  predicate NonEmptyStr(j: Json) {
    j.Str? && j.s != ""
  }

  /** A job as the controller created it. */
  datatype Job = Job(taskId: string, device: string, capability: string, parameters: Record,
                     expiresAt: int, nonce: string, commit: string)

  function ScopeOf(device: string, capability: Json): Json {
    Obj(map[DeviceId := Str(device), Capability := capability])
  }

  function JobBody(j: Job): Record {
    map[TaskId := Str(j.taskId),
        TargetDeviceId := Str(j.device),
        Capability := Str(j.capability),
        Parameters := Obj(j.parameters),
        Scope := ScopeOf(j.device, Str(j.capability)),
        ExpiresAt := Stamp(j.expiresAt),
        Nonce := Str(j.nonce),
        ExpectedCommit := Str(j.commit)]
  }

  const JOB_FIELDS: set<Field> := {TaskId, TargetDeviceId, Capability, Parameters, Scope, ExpiresAt,
                                   Nonce, ExpectedCommit, Signature}

  /** Two jobs with the same body are the same job: the record carries everything. */
  lemma JobBodyInjective(a: Job, b: Job)
    requires JobBody(a) == JobBody(b)
    ensures a == b
  {
    assert JobBody(a)[TaskId] == JobBody(b)[TaskId];
    assert JobBody(a)[TargetDeviceId] == JobBody(b)[TargetDeviceId];
    assert JobBody(a)[Capability] == JobBody(b)[Capability];
    assert JobBody(a)[Parameters] == JobBody(b)[Parameters];
    assert JobBody(a)[ExpiresAt] == JobBody(b)[ExpiresAt];
    assert JobBody(a)[Nonce] == JobBody(b)[Nonce];
    assert JobBody(a)[ExpectedCommit] == JobBody(b)[ExpectedCommit];
  }

  function LowerChar(c: char): char {
    if 'A' <= c <= 'Z' then ((c as int) - ('A' as int) + ('a' as int)) as char else c
  }

  /** `str.lower()` on ASCII text. */
  function Lower(s: string): string {
    seq(|s|, i requires 0 <= i < |s| => LowerChar(s[i]))
  }

  /** Character by character, a capital letter becomes its small one and anything else stays. */
  lemma LowerChars(s: string, i: nat)
    requires i < |s|
    ensures |Lower(s)| == |s|
    ensures 'A' <= s[i] <= 'Z' ==> Lower(s)[i] as int - 'a' as int == s[i] as int - 'A' as int
    ensures !('A' <= s[i] <= 'Z') ==> Lower(s)[i] == s[i]
  {
  }

  /** rec is a signed request to run this capability with these parameters: every field as asked for, nothing else,
      and a tag of the device's secret over all of them. */
  predicate Asks(rec: Record, device: string, capability: string, parameters: Record, expiresAt: int, taskId: string,
                 nonce: string, commit: string, secret: Secret)
  {
    && rec.Keys == {TaskId, TargetDeviceId, Capability, Parameters, Scope, ExpiresAt, Nonce, ExpectedCommit, Signature}
    && rec[TaskId] == Str(taskId) && rec[TargetDeviceId] == Str(device)
    && rec[Capability] == Str(capability) && rec[Parameters] == Obj(parameters)
    && rec[Scope] == Obj(map[DeviceId := Str(device), Capability := Str(capability)])
    && rec[ExpiresAt] == Stamp(expiresAt) && rec[Nonce] == Str(nonce) && rec[ExpectedCommit] == Str(commit)
    && rec[Signature] == Mac(secret, rec - {Signature})
  }

  /** The record of a job asks for exactly that job. */
  lemma JobAsks(j: Job, secret: Secret)
    ensures Asks(Sign(JobBody(j), secret), j.device, j.capability, j.parameters, j.expiresAt, j.taskId, j.nonce,
                 j.commit, secret)
  {
    SignVerifies(JobBody(j), secret, secret);
  }
}
