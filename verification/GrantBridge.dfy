/** Single-use user grants of the Hermes bridge: issue, consumption, local submission and the audit file.

    Tokens are represented by their digests, which are fresh when issued. Each method is one undisturbed call;
    what concurrent processes do to each other is the subject of GrantRuns. */
module GrantBridge {
  import opened Common
  import opened HashChain

  datatype Grant = Grant(capability: string, expiresAt: int, usedAt: Option<int>, createdAt: int)

  datatype GrantError = TtlOutOfRange | UnknownCapability | TokenNotFound | CapabilityMismatch | AlreadyUsed | Expired

  datatype AuditEvent =
    | Issued(capability: string, digest: string, expiresAt: int)
    | Consumed(capability: string, digest: string)

  type Grants = map<string, Grant>

  const AUDIT_GENESIS: Option<string> :=
    Some("0000000000000000000000000000000000000000000000000000000000000000")

  function IssueGrant(g: Grants, available: set<string>, capability: string, ttl: int, digest: string,
                      now: int): Result<Grants, GrantError> {
    if ttl < 30 || ttl > 3600 then Err(TtlOutOfRange)
    else if capability !in available then Err(UnknownCapability)
    else Ok(g[digest := Grant(capability, now + ttl, None, now)])
  }

  /** The `BEGIN IMMEDIATE` transaction of `consume_grant`. */
  function ConsumeGrant(g: Grants, capability: string, digest: string, now: int): Result<Grants, GrantError> {
    if digest !in g then Err(TokenNotFound)
    else if g[digest].capability != capability then Err(CapabilityMismatch)
    else if g[digest].usedAt.Some? then Err(AlreadyUsed)
    else if g[digest].expiresAt <= now then Err(Expired)
    else Ok(g[digest := g[digest].(usedAt := Some(now))])
  }

  /** Round trip: a grant can be issued exactly for 30 seconds to an hour and a known capability. It is then accepted
      for that capability at every moment before it expires and at none after, once, and for no other capability. */
  lemma IssuedThenConsumed(g: Grants, available: set<string>, capability: string, ttl: int, digest: string, at: int,
                           other: string, now: int, again: int)
    requires digest !in g
    ensures var issued := IssueGrant(g, available, capability, ttl, digest, at);
            && (issued.Ok? <==> 30 <= ttl <= 3600 && capability in available)
            && (issued.Ok? ==>
                  && (other != capability ==>
                        ConsumeGrant(issued.value, other, digest, now) == Err(CapabilityMismatch))
                  && var used := ConsumeGrant(issued.value, capability, digest, now);
                  && (now >= at + ttl ==> used == Err(Expired))
                  && (now < at + ttl ==>
                        && used.Ok? && ConsumeGrant(used.value, capability, digest, again) == Err(AlreadyUsed)
                        && forall d :: d in g ==> d in used.value && used.value[d] == g[d]))
  {
  }

  datatype LocalError = NotRegistered | NeedsUserApproval | TokenRequired | Refused(cause: GrantError)

  function UsedGrants(g: Grants, capability: string): set<string> {
    set d | d in g && g[d].capability == capability && g[d].usedAt.Some?
  }

  function Submitted(submissions: seq<string>, capability: string): nat {
    multiset(submissions)[capability]
  }

  /** A consumed grant is one more used grant of its capability. */
  lemma ConsumeUses(g: Grants, capability: string, digest: string, now: int, c: string)
    requires ConsumeGrant(g, capability, digest, now).Ok?
    ensures var after := UsedGrants(ConsumeGrant(g, capability, digest, now).value, c);
            && digest !in UsedGrants(g, c) && after == UsedGrants(g, c) + (if c == capability then {digest} else {})
            && |after| == |UsedGrants(g, c)| + if c == capability then 1 else 0
  {
  }

  /** The grants table, the append-only audit file, and the jobs submitted to the local runtime so far. */
  class Bridge {
    const sha: (Option<string>, AuditEvent) -> string
    const auto: set<string>
    var grants: Grants
    var auditLog: seq<Entry<AuditEvent>>
    var submitted: seq<string>

    /** The audit file checks, and every submission that was not automatic has a used grant of its own. */
    ghost predicate Valid()
      reads this
    {
      && Linked(sha, AUDIT_GENESIS, auditLog)
      && forall c :: c !in auto ==> Submitted(submitted, c) <= |UsedGrants(grants, c)|
    }

    constructor (digest: (Option<string>, AuditEvent) -> string, automatic: set<string>)
      ensures Valid() && grants == map[] && auditLog == [] && submitted == [] && sha == digest && auto == automatic
    {
      sha, auto := digest, automatic;
      grants, auditLog, submitted := map[], [], [];
    }

    method LastHash() returns (prev: Option<string>)
      ensures prev == Head(AUDIT_GENESIS, auditLog)
    {
      prev := if auditLog == [] then AUDIT_GENESIS else Some(auditLog[|auditLog| - 1].hash);
    }

    /** The append half of an audit. Whatever hash was read before: the file checks afterwards exactly when it
        checked before and its last hash is still the one that was read. */
    method AppendEntry(prev: Option<string>, e: AuditEvent)
      modifies this`auditLog
      ensures auditLog == old(auditLog) + [Entry(prev, e, sha(prev, e))]
      ensures Linked(sha, AUDIT_GENESIS, auditLog)
              <==> Linked(sha, AUDIT_GENESIS, old(auditLog)) && prev == Head(AUDIT_GENESIS, old(auditLog))
    {
      EntryLinked(sha, AUDIT_GENESIS, auditLog, prev, e);
      auditLog := auditLog + [Entry(prev, e, sha(prev, e))];
    }

    method Audit(e: AuditEvent)
      requires Valid()
      modifies this`auditLog
      ensures Valid() && auditLog == Append(sha, AUDIT_GENESIS, old(auditLog), e)
    {
      var prev := LastHash();
      AppendEntry(prev, e);
    }

    /** The digest of a freshly drawn token is not in the table. */
    method Issue(available: set<string>, capability: string, ttl: int, digest: string, now: int)
      returns (error: Option<GrantError>)
      requires Valid() && digest !in grants
      modifies this`grants, this`auditLog
      ensures Valid()
      ensures match IssueGrant(old(grants), available, capability, ttl, digest, now)
              case Ok(g) => error.None? && grants == g
                            && auditLog == Append(sha, AUDIT_GENESIS, old(auditLog),
                                 Issued(capability, digest, now + ttl))
              case Err(e) => error == Some(e) && grants == old(grants) && auditLog == old(auditLog)
      ensures error.None? <==> 30 <= ttl <= 3600 && capability in available
      ensures error.None? ==> grants == old(grants)[digest := Grant(capability, now + ttl, None, now)]
    {
      if ttl < 30 || ttl > 3600 { return Some(TtlOutOfRange); }
      if capability !in available { return Some(UnknownCapability); }
      ghost var before := grants;
      grants := grants[digest := Grant(capability, now + ttl, None, now)];
      assert forall c :: UsedGrants(grants, c) == UsedGrants(before, c);
      Audit(Issued(capability, digest, now + ttl));
      error := None;
    }

    method Consume(capability: string, digest: string, now: int) returns (error: Option<GrantError>)
      requires Valid()
      modifies this`grants, this`auditLog
      ensures Valid()
      ensures error.None? ==> |UsedGrants(grants, capability)| == |UsedGrants(old(grants), capability)| + 1
      ensures match ConsumeGrant(old(grants), capability, digest, now)
              case Ok(g) => error.None? && grants == g
                            && auditLog == Append(sha, AUDIT_GENESIS, old(auditLog), Consumed(capability, digest))
              case Err(e) => error == Some(e) && grants == old(grants) && auditLog == old(auditLog)
      ensures error.None? <==> digest in old(grants) && old(grants)[digest].capability == capability
                               && old(grants)[digest].usedAt == None && now < old(grants)[digest].expiresAt
      ensures error.None? ==> grants == old(grants)[digest := old(grants)[digest].(usedAt := Some(now))]
    {
      if digest !in grants { return Some(TokenNotFound); }
      var row := grants[digest];
      if row.capability != capability { return Some(CapabilityMismatch); }
      if row.usedAt.Some? { return Some(AlreadyUsed); }
      if row.expiresAt <= now { return Some(Expired); }
      ghost var before := grants;
      grants := grants[digest := row.(usedAt := Some(now))];
      forall c
        ensures |UsedGrants(grants, c)| == |UsedGrants(before, c)| + if c == capability then 1 else 0
      {
        ConsumeUses(before, capability, digest, now, c);
      }
      Audit(Consumed(capability, digest));
      error := None;
    }

    /** `execute_local` up to the submission: what is not automatic needs the user's approval and a grant, which
        is used up before the job is submitted. `token` is the digest of the approval token, if one is given. */
    method ExecuteLocal(registered: set<string>, capability: string, token: Option<string>, userApproved: bool,
                        now: int)
      returns (error: Option<LocalError>)
      requires Valid()
      modifies this
      ensures Valid()
      ensures submitted == if error.None? then old(submitted) + [capability] else old(submitted)
      ensures error.None? && capability in auto ==> grants == old(grants) && auditLog == old(auditLog)
      ensures error.None? && capability !in auto ==>
                userApproved && token.Some? && ConsumeGrant(old(grants), capability, token.value, now) == Ok(grants)
      ensures error.Some? ==> grants == old(grants) && auditLog == old(auditLog)
      ensures error == Some(NotRegistered) <==> capability !in registered
      ensures capability in registered && capability in auto ==> error.None?
      ensures capability in registered && capability !in auto ==>
                error == if !userApproved then Some(NeedsUserApproval)
                         else if token.None? then Some(TokenRequired)
                         else match ConsumeGrant(old(grants), capability, token.value, now)
                              case Ok(_) => None
                              case Err(e) => Some(Refused(e))
    {
      if capability !in registered { return Some(NotRegistered); }
      if capability !in auto {
        if !userApproved { return Some(NeedsUserApproval); }
        if token.None? { return Some(TokenRequired); }
        var refused := Consume(capability, token.value, now);
        if refused.Some? { return Some(Refused(refused.value)); }
      }
      submitted := submitted + [capability];
      error := None;
    }
  }

  /** `verify_audit`: one pass carrying the previous hash accepts exactly the chains whose links and hashes check. */
  method VerifyAudit<T>(sha: (Option<string>, T) -> string, genesis: Option<string>, log: seq<Entry<T>>)
    returns (ok: bool)
    ensures ok <==> Linked(sha, genesis, log)
  {
    var prev := genesis;
    for i := 0 to |log|
      invariant prev == Head(genesis, log[..i])
      invariant forall k :: 0 <= k < i ==> EntryOk(sha, genesis, log, k)
    {
      var row := log[i];
      assert EntryOk(sha, genesis, log, i) <==> row.previous == prev && sha(row.previous, row.body) == row.hash;
      if row.previous != prev { return false; }
      if sha(row.previous, row.body) != row.hash { return false; }
      prev := Some(row.hash);
      HeadAt(genesis, log, i);
    }
    ok := true;
  }
}
