/** Canonical bundles (objects, provenance events, filter decisions) and their cross-reference validator.

    A list item that is not an object, and one without an id, are both represented by an empty id: the
    validator rejects both. `rest` carries every envelope field the system does not look at, so that equal
    values are equal JSON. */
module CanonicalBundle {
  import opened Common
  import opened TextOrder

  datatype Key =
    | SubjectIds | Predicate | ObjectValue | ComparisonMode | EvidenceIds | OriginalityStatus
    | MemberIds | DuplicateType | ResolutionStatus | DeletionAuthority | ObjectValues | WinnerId
    | Kind | KeyText | Other(name: string)

  datatype Json =
    | Null
    | Bool(b: bool)
    | Num(n: int)
    | Str(s: string)
    | List(items: seq<Json>)
    | Dict(fields: map<Key, Json>)

  /** `authoritative`: true, false, or anything else. */
  datatype Flag = Yes | No | Neither

  /** provenanceIds is None when the field is not a list, payload when it is not an object. */
  datatype Obj = Obj(objectId: string, typ: string, status: string, contentHash: string, epistemic: string,
                     verification: string, authority: string, authoritative: Flag, provenanceIds: Option<seq<string>>,
                     payload: Option<map<Key, Json>>, createdAt: Option<string>, ingestedAt: Option<string>,
                     projectIds: seq<string>, rest: Json)

  datatype Event = Event(eventId: string, inputIds: seq<string>, outputIds: seq<string>, operation: string,
                         timestamp: string, rest: Json)

  /** target is empty when there is no canonical_target_id. */
  datatype Decision = Decision(decisionId: string, action: string, inputId: string, target: string, rest: Json)

  datatype Bundle = Bundle(objects: seq<Obj>, events: seq<Event>, decisions: seq<Decision>)

  datatype BundleError =
    | MissingObjectId(i: nat)
    | InvalidContentHash(id: string)
    | AuthorityMismatch(id: string)
    | ProvenanceNotAList(id: string)
    | ProvenanceRequired(id: string)
    | PayloadNotAnObject(id: string)
    | EvidenceRequired(id: string)
    | ClaimsOriginal(id: string)
    | HashReused(id: string)
    | MissingEventId(i: nat)
    | DuplicateEventId(id: string)
    | EmptyEvent(id: string)
    | UnresolvedObject(event: string, ref: string)
    | UnresolvedProvenance(object_: string, event: string)
    | NotAnOutput(object_: string, event: string)
    | IllegalDecision(i: nat)
    | UnresolvedInput(i: nat)
    | TargetRequired(i: nat)

  const ALLOWED_DECISIONS: set<string> := 
    {"RETAIN", "REJECT_FROM_PROJECTION", "MERGE", "QUARANTINE", "DEFER", "PROMOTE"}
  const DERIVED_EPISTEMIC: set<string> := {"DERIVED", "INFERENCE", "SPECULATION", "PREDICTION"}

  predicate HexDigit(c: char) {
    '0' <= c <= '9' || 'a' <= c <= 'f'
  }

  /** `^sha256:[0-9a-f]{64}$` with `re.match`: a single trailing newline is let through. */
  predicate ValidHash(h: string) {
    && "sha256:" <= h
    && (|h| == 71 || (|h| == 72 && h[71] == '\n'))
    && forall i :: 7 <= i < 71 ==> HexDigit(h[i])
  }

  /** Such a text is the prefix, sixty-four small hexadecimal digits, and possibly one line feed. */
  lemma ValidHashIff(h: string)
    ensures ValidHash(h) <==>
              exists digits: string ::
                |digits| == 64 && (forall i :: 0 <= i < 64 ==> digits[i] in "0123456789abcdef")
                && (h == "sha256:" + digits || h == "sha256:" + digits + "\n")
  {
    forall c: char { HexDigitIff(c); }
    if ValidHash(h) {
      var digits := h[7..71];
      forall i | 0 <= i < 64 ensures digits[i] in "0123456789abcdef" { assert HexDigit(h[7 + i]); }
      assert h[..7] == "sha256:";
      if |h| == 71 { assert h == h[..7] + digits; } else { assert h == h[..7] + digits + [h[71]]; }
    }
    if digits: string :| |digits| == 64 && (forall i :: 0 <= i < 64 ==> digits[i] in "0123456789abcdef")
                         && (h == "sha256:" + digits || h == "sha256:" + digits + "\n") {
      forall i | 7 <= i < 71 ensures HexDigit(h[i]) { assert h[i] == digits[i - 7]; }
    }
  }

  lemma HexDigitIff(c: char)
    ensures HexDigit(c) <==> c in "0123456789abcdef"
  {
    var d := "0123456789abcdef";
    assert d[0] == '0' && d[1] == '1' && d[2] == '2' && d[3] == '3' && d[4] == '4' && d[5] == '5' && d[6] == '6';
    assert d[7] == '7' && d[8] == '8' && d[9] == '9' && d[10] == 'a' && d[11] == 'b' && d[12] == 'c';
    assert d[13] == 'd' && d[14] == 'e' && d[15] == 'f';
  }

  function ProvenanceOf(o: Obj): seq<string> {
    match o.provenanceIds
    case Some(p) => p
    case None => []
  }

  function PayloadOf(o: Obj): map<Key, Json> {
    match o.payload
    case Some(p) => p
    case None => map[]
  }

  function Field(p: map<Key, Json>, k: Key): Json {
    if k in p then p[k] else Null
  }

  predicate NonEmptyList(j: Json) {
    j.List? && j.items != []
  }

  /** Projections and derived records deny being authoritative, authoritative records declare it. */
  predicate AuthorityOk(o: Obj) {
    && (o.authority == "PROJECTION" || o.authority == "DERIVED_RECORD" ==> o.authoritative == No)
    && (o.authority == "AUTHORITATIVE_RECORD" ==> o.authoritative == Yes)
  }

  predicate NeedsProvenance(o: Obj) {
    || o.epistemic == "DERIVED" || o.epistemic == "INFERENCE" || o.epistemic == "SPECULATION"
    || o.epistemic == "PREDICTION" || o.authority == "DERIVED_RECORD" || o.authority == "PROJECTION"
    || o.typ == "RECONSTRUCTION"
  }

  predicate ContentOk(o: Obj) {
    && o.provenanceIds.Some? && o.payload.Some?
    && (NeedsProvenance(o) ==> ProvenanceOf(o) != [])
    && (o.typ == "CLAIM" && o.verification == "VERIFIED" ==> NonEmptyList(Field(PayloadOf(o), EvidenceIds)))
    && (o.typ == "RECONSTRUCTION" ==>
          && Field(PayloadOf(o), OriginalityStatus) != Str("ORIGINAL")
          && Field(PayloadOf(o), OriginalityStatus) != Str("AUTHENTIC_ORIGINAL"))
  }

  /** The rules about one object on its own. */
  predicate ObjectOk(o: Obj) {
    ValidHash(o.contentHash) && AuthorityOk(o) && ContentOk(o)
  }

  predicate DecisionOk(ids: set<string>, d: Decision) {
    && (d.action == "RETAIN" || d.action == "REJECT_FROM_PROJECTION" || d.action == "MERGE" || d.action == "QUARANTINE"
        || d.action == "DEFER" || d.action == "PROMOTE")
    && d.inputId in ids && (d.action == "MERGE" ==> d.target != "")
  }

  function ObjectIds(objects: seq<Obj>): set<string> {
    set i | 0 <= i < |objects| :: objects[i].objectId
  }

  /** The first object with its id: the one the validator resolves the id to. */
  predicate IsFirst(objects: seq<Obj>, i: nat)
    requires i < |objects|
  {
    forall k :: 0 <= k < i ==> objects[k].objectId != objects[i].objectId
  }

  predicate EventOk(ids: set<string>, e: Event) {
    && e.eventId != "" && e.inputIds != [] && e.outputIds != []
    && (forall r :: r in e.inputIds ==> r in ids)
    && (forall r :: r in e.outputIds ==> r in ids)
  }

  /** pid is an event that names id among its outputs. */
  predicate Produces(events: seq<Event>, pid: string, id: string) {
    exists e :: e in events && e.eventId == pid && id in e.outputIds
  }

  predicate ProvenanceResolves(events: seq<Event>, o: Obj) {
    forall pid :: pid in ProvenanceOf(o) ==> Produces(events, pid, o.objectId)
  }

  predicate HashesAgree(objects: seq<Obj>) {
    forall i, k :: 0 <= i < k < |objects| && objects[i].objectId == objects[k].objectId
                   ==> objects[i].contentHash == objects[k].contentHash
  }

  predicate EventIdsDistinct(events: seq<Event>) {
    forall i, k :: 0 <= i < k < |events| ==> events[i].eventId != events[k].eventId
  }

  /** What a bundle must satisfy. */
  predicate Valid(b: Bundle) {
    && (forall o :: o in b.objects ==> o.objectId != "" && ObjectOk(o))
    && HashesAgree(b.objects)
    && EventIdsDistinct(b.events)
    && (forall e :: e in b.events ==> EventOk(ObjectIds(b.objects), e))
    && (forall i :: 0 <= i < |b.objects| && IsFirst(b.objects, i) ==> ProvenanceResolves(b.events, b.objects[i]))
    && (forall d :: d in b.decisions ==> DecisionOk(ObjectIds(b.objects), d))
  }

  // ---- The validator ----

  /** object_by_id: each id seen so far, with its first object. */
  predicate ById(objects: seq<Obj>, n: nat, byId: map<string, Obj>)
    requires n <= |objects|
  {
    && (forall i :: 0 <= i < n && objects[i].objectId != "" ==> objects[i].objectId in byId)
    && (forall id :: id in byId
         ==> exists i :: 0 <= i < n && objects[i].objectId == id && IsFirst(objects, i) && byId[id] == objects[i])
  }

  /** seen_content: each id seen so far, with the hash of its first occurrence. */
  predicate SeenContent(byId: map<string, Obj>, seen: map<string, string>) {
    seen.Keys == byId.Keys && forall id :: id in seen ==> seen[id] == byId[id].contentHash
  }

  /** Every earlier object with the same id has the same content hash. */
  predicate HashFits(objects: seq<Obj>, i: nat)
    requires i < |objects|
  {
    forall k :: 0 <= k < i && objects[k].objectId == objects[i].objectId
        ==> objects[k].contentHash == objects[i].contentHash
  }

  predicate ObjectPasses(objects: seq<Obj>, i: nat)
    requires i < |objects|
  {
    objects[i].objectId != "" && ObjectOk(objects[i]) && HashFits(objects, i)
  }

  predicate ObjectsPass(objects: seq<Obj>, n: nat)
    requires n <= |objects|
  {
    forall i :: 0 <= i < n ==> ObjectPasses(objects, i)
  }

  lemma PassMeansAgree(objects: seq<Obj>)
    ensures ObjectsPass(objects, |objects|)
            <==> (forall o :: o in objects ==> o.objectId != "" && ObjectOk(o)) && HashesAgree(objects)
  {
    if ObjectsPass(objects, |objects|) {
      forall o | o in objects ensures o.objectId != "" && ObjectOk(o) {
        var i :| 0 <= i < |objects| && objects[i] == o;
        assert ObjectPasses(objects, i);
      }
      forall i, k | 0 <= i < k < |objects| && objects[i].objectId == objects[k].objectId
        ensures objects[i].contentHash == objects[k].contentHash
      {
        assert ObjectPasses(objects, k);
      }
    }
  }

  method CheckAuthority(o: Obj) returns (errors: seq<BundleError>)
    ensures errors == [] <==> AuthorityOk(o)
  {
    errors := [];
    if o.authority == "PROJECTION" && !o.authoritative.No? { errors := errors + [AuthorityMismatch(o.objectId)]; }
    if o.authority == "AUTHORITATIVE_RECORD" && !o.authoritative.Yes? {
      errors := errors + [AuthorityMismatch(o.objectId)];
    }
    if o.authority == "DERIVED_RECORD" && !o.authoritative.No? { errors := errors + [AuthorityMismatch(o.objectId)]; }
  }

  /** Provenance and payload, where a field of the wrong type counts as empty once it has been reported. */
  method CheckContent(o: Obj) returns (errors: seq<BundleError>)
    ensures errors == [] <==> ContentOk(o)
  {
    errors := [];
    var provenance: seq<string>, payload: map<Key, Json> := [], map[];
    match o.provenanceIds {
      case Some(p) => provenance := p;
      case None => errors := errors + [ProvenanceNotAList(o.objectId)];
    }
    if (o.epistemic in DERIVED_EPISTEMIC || o.authority in {"DERIVED_RECORD", "PROJECTION"}) && provenance == [] {
      errors := errors + [ProvenanceRequired(o.objectId)];
    }
    match o.payload {
      case Some(p) => payload := p;
      case None => errors := errors + [PayloadNotAnObject(o.objectId)];
    }
    if o.typ == "CLAIM" && o.verification == "VERIFIED" {
      var evidence := if EvidenceIds in payload then payload[EvidenceIds] else List([]);
      if !evidence.List? || evidence.items == [] { errors := errors + [EvidenceRequired(o.objectId)]; }
    }
    if o.typ == "RECONSTRUCTION" {
      if OriginalityStatus in payload && payload[OriginalityStatus] in {Str("ORIGINAL"), Str("AUTHENTIC_ORIGINAL")} {
        errors := errors + [ClaimsOriginal(o.objectId)];
      }
      if provenance == [] { errors := errors + [ProvenanceRequired(o.objectId)]; }
    }
  }

  /** One object against its own rules and against the hash first seen under its id. */
  method CheckObject(o: Obj, seen: map<string, string>) returns (errors: seq<BundleError>, seen': map<string, string>)
    ensures errors == [] <==> ObjectOk(o) && (o.objectId in seen ==> seen[o.objectId] == o.contentHash)
    ensures seen' == if o.objectId in seen then seen else seen[o.objectId := o.contentHash]
  {
    errors, seen' := [], seen;
    if !ValidHash(o.contentHash) { errors := errors + [InvalidContentHash(o.objectId)]; }
    if o.objectId in seen && seen[o.objectId] != o.contentHash {
      errors := errors + [HashReused(o.objectId)];
    } else {
      seen' := seen[o.objectId := o.contentHash];
      assert o.objectId in seen ==> seen' == seen;
    }
    var authority := CheckAuthority(o);
    var content := CheckContent(o);
    errors := errors + authority + content;
  }

  method ValidateObjects(objects: seq<Obj>) returns (errors: seq<BundleError>, byId: map<string, Obj>)
    ensures errors == [] <==> ObjectsPass(objects, |objects|)
    ensures ById(objects, |objects|, byId)
  {
    errors, byId := [], map[];
    var seen: map<string, string> := map[];
    for i := 0 to |objects|
      invariant ById(objects, i, byId) && SeenContent(byId, seen)
      invariant errors == [] <==> ObjectsPass(objects, i)
    {
      var o := objects[i];
      if o.objectId == "" {
        errors := errors + [MissingObjectId(i)];
        SkipMissing(objects, i, byId);
      } else {
        PassStep(objects, i, byId);
        var found;
        found, seen := CheckObject(o, seen);
        errors := errors + found;
        ghost var before := byId;
        if o.objectId !in byId { byId := byId[o.objectId := o]; }
        ByIdStep(objects, i, before, byId);
      }
    }
  }

  lemma SkipMissing(objects: seq<Obj>, i: nat, byId: map<string, Obj>)
    requires i < |objects| && ById(objects, i, byId) && objects[i].objectId == ""
    ensures ById(objects, i + 1, byId) && !ObjectsPass(objects, i + 1)
  {
    assert !ObjectPasses(objects, i);
  }

  /** The comparison with the first occurrence decides whether the hash agrees with every earlier one. */
  lemma FirstDecides(objects: seq<Obj>, i: nat, byId: map<string, Obj>)
    requires i < |objects| && ById(objects, i, byId) && objects[i].objectId != ""
    requires forall k :: 0 <= k < i ==> HashFits(objects, k)
    ensures HashFits(objects, i)
            <==> (objects[i].objectId in byId ==> byId[objects[i].objectId].contentHash == objects[i].contentHash)
  {
    var id := objects[i].objectId;
    if id in byId {
      var f :| 0 <= f < i && objects[f].objectId == id && IsFirst(objects, f) && byId[id] == objects[f];
      FirstSpeaksForAll(objects, f, i);
    }
  }

  lemma FirstSpeaksForAll(objects: seq<Obj>, f: nat, i: nat)
    requires f < i < |objects| && IsFirst(objects, f) && objects[f].objectId == objects[i].objectId
    requires forall k :: 0 <= k < i ==> HashFits(objects, k)
    ensures HashFits(objects, i) <==> objects[f].contentHash == objects[i].contentHash
  {
    forall k | 0 <= k < i && objects[k].objectId == objects[i].objectId
      ensures objects[k].contentHash == objects[f].contentHash
    {
      assert HashFits(objects, k);
    }
  }

  lemma PassStep(objects: seq<Obj>, i: nat, byId: map<string, Obj>)
    requires i < |objects| && ById(objects, i, byId) && objects[i].objectId != ""
    ensures ObjectsPass(objects, i + 1) <==>
              ObjectsPass(objects, i) && ObjectOk(objects[i])
              && (objects[i].objectId in byId ==> byId[objects[i].objectId].contentHash == objects[i].contentHash)
  {
    if ObjectsPass(objects, i) {
      forall k | 0 <= k < i ensures HashFits(objects, k) { assert ObjectPasses(objects, k); }
      FirstDecides(objects, i, byId);
    }
    assert ObjectsPass(objects, i + 1) <==> ObjectsPass(objects, i) && ObjectPasses(objects, i);
  }

  lemma ByIdStep(objects: seq<Obj>, i: nat, before: map<string, Obj>, after: map<string, Obj>)
    requires i < |objects| && ById(objects, i, before) && objects[i].objectId != ""
    requires after == if objects[i].objectId in before then before else before[objects[i].objectId := objects[i]]
    ensures ById(objects, i + 1, after)
  {
    forall id | id in after
      ensures exists k :: 0 <= k < i + 1 && objects[k].objectId == id && IsFirst(objects, k) && after[id] == objects[k]
    {
      if id in before {
        var k :| 0 <= k < i && objects[k].objectId == id && IsFirst(objects, k) && before[id] == objects[k];
      } else {
        assert IsFirst(objects, i) && objects[i].objectId == id;
      }
    }
  }

  /** prov_by_id: each event id seen so far, with its latest event. */
  predicate ByEventId(events: seq<Event>, n: nat, prov: map<string, Event>)
    requires n <= |events|
  {
    && (forall i :: 0 <= i < n && events[i].eventId != "" ==> events[i].eventId in prov)
    && (forall id :: id in prov ==> exists i :: 0 <= i < n && events[i] == prov[id] && events[i].eventId == id)
  }

  predicate EventsPass(events: seq<Event>, n: nat, ids: set<string>)
    requires n <= |events|
  {
    && (forall i :: 0 <= i < n ==> EventOk(ids, events[i]))
    && (forall i, k :: 0 <= i < k < n ==> events[i].eventId != events[k].eventId)
  }

  method Unresolved(event: string, refs: seq<string>, ids: set<string>) returns (errors: seq<BundleError>)
    ensures errors == [] <==> forall r :: r in refs ==> r in ids
  {
    errors := [];
    for i := 0 to |refs|
      invariant errors == [] <==> forall k :: 0 <= k < i ==> refs[k] in ids
    {
      if refs[i] !in ids { errors := errors + [UnresolvedObject(event, refs[i])]; }
    }
  }

  method CheckEvent(e: Event, ids: set<string>, known: bool) returns (errors: seq<BundleError>)
    requires e.eventId != ""
    ensures errors == [] <==> EventOk(ids, e) && !known
  {
    errors := [];
    if known { errors := errors + [DuplicateEventId(e.eventId)]; }
    if e.inputIds == [] { errors := errors + [EmptyEvent(e.eventId)]; }
    if e.outputIds == [] { errors := errors + [EmptyEvent(e.eventId)]; }
    var inputs := Unresolved(e.eventId, e.inputIds, ids);
    var outputs := Unresolved(e.eventId, e.outputIds, ids);
    errors := errors + inputs + outputs;
  }

  method ValidateEvents(events: seq<Event>, ids: set<string>)
    returns (errors: seq<BundleError>, prov: map<string, Event>)
    ensures errors == [] <==> EventsPass(events, |events|, ids)
    ensures ByEventId(events, |events|, prov)
  {
    errors, prov := [], map[];
    for i := 0 to |events|
      invariant ByEventId(events, i, prov)
      invariant errors == [] <==> EventsPass(events, i, ids)
    {
      var e := events[i];
      if e.eventId == "" {
        errors := errors + [MissingEventId(i)];
        assert !EventOk(ids, events[i]);
      } else {
        var found := CheckEvent(e, ids, e.eventId in prov);
        errors := errors + found;
        EventStep(events, i, ids, prov);
        prov := prov[e.eventId := e];
      }
    }
  }

  lemma EventStep(events: seq<Event>, i: nat, ids: set<string>, prov: map<string, Event>)
    requires i < |events| && ByEventId(events, i, prov) && events[i].eventId != ""
    ensures EventsPass(events, i + 1, ids) <==>
              EventsPass(events, i, ids) && EventOk(ids, events[i]) && events[i].eventId !in prov
    ensures ByEventId(events, i + 1, prov[events[i].eventId := events[i]])
  {
    var id := events[i].eventId;
    if id in prov {
      var k :| 0 <= k < i && events[k] == prov[id] && events[k].eventId == id;
    }
    var after := prov[id := events[i]];
    forall x | x in after ensures exists k :: 0 <= k < i + 1 && events[k] == after[x] && events[k].eventId == x {
      if x == id {
        assert events[i] == after[x];
      } else {
        var k :| 0 <= k < i && events[k] == prov[x] && events[k].eventId == x;
        assert events[k] == after[x];
      }
    }
  }

  predicate NamedAsOutput(prov: map<string, Event>, pid: string, id: string) {
    pid in prov && id in prov[pid].outputIds
  }

  predicate ObjectTraced(prov: map<string, Event>, id: string, o: Obj) {
    forall pid :: pid in ProvenanceOf(o) ==> NamedAsOutput(prov, pid, id)
  }

  method CheckProvenance(id: string, o: Obj, prov: map<string, Event>) returns (errors: seq<BundleError>)
    ensures errors == [] <==> ObjectTraced(prov, id, o)
  {
    errors := [];
    var pids := ProvenanceOf(o);
    for i := 0 to |pids|
      invariant errors == [] <==> forall k :: 0 <= k < i ==> NamedAsOutput(prov, pids[k], id)
    {
      if pids[i] !in prov {
        errors := errors + [UnresolvedProvenance(id, pids[i])];
      } else if id !in prov[pids[i]].outputIds {
        errors := errors + [NotAnOutput(id, pids[i])];
      }
    }
  }

  method ValidateProvenance(byId: map<string, Obj>, prov: map<string, Event>) returns (errors: seq<BundleError>)
    ensures errors == [] <==> forall id :: id in byId ==> ObjectTraced(prov, id, byId[id])
  {
    errors := [];
    var todo := byId.Keys;
    while todo != {}
      invariant todo <= byId.Keys
      invariant errors == [] <==> forall id :: id in byId.Keys - todo ==> ObjectTraced(prov, id, byId[id])
    {
      var id :| id in todo;
      var found := CheckProvenance(id, byId[id], prov);
      errors := errors + found;
      assert byId.Keys - (todo - {id}) == (byId.Keys - todo) + {id};
      todo := todo - {id};
    }
    assert byId.Keys - todo == byId.Keys;
  }

  method CheckDecision(d: Decision, i: nat, ids: set<string>) returns (errors: seq<BundleError>)
    ensures errors == [] <==> DecisionOk(ids, d)
  {
    errors := [];
    if d.action !in ALLOWED_DECISIONS { errors := errors + [IllegalDecision(i)]; }
    if d.inputId !in ids { errors := errors + [UnresolvedInput(i)]; }
    if d.action == "MERGE" && d.target == "" { errors := errors + [TargetRequired(i)]; }
  }

  method ValidateDecisions(decisions: seq<Decision>, ids: set<string>) returns (errors: seq<BundleError>)
    ensures errors == [] <==> forall d :: d in decisions ==> DecisionOk(ids, d)
  {
    errors := [];
    for i := 0 to |decisions|
      invariant errors == [] <==> forall k :: 0 <= k < i ==> DecisionOk(ids, decisions[k])
    {
      var found := CheckDecision(decisions[i], i, ids);
      errors := errors + found;
    }
  }

  /** On well-formed objects and events, the maps the validator built agree with the declarative reading. */
  lemma MapsResolve(b: Bundle, byId: map<string, Obj>, prov: map<string, Event>)
    requires ObjectsPass(b.objects, |b.objects|) && ById(b.objects, |b.objects|, byId)
    requires EventsPass(b.events, |b.events|, byId.Keys) && ByEventId(b.events, |b.events|, prov)
    ensures byId.Keys == ObjectIds(b.objects)
    ensures (forall id :: id in byId ==> ObjectTraced(prov, id, byId[id])) <==>
            (forall i :: 0 <= i < |b.objects| && IsFirst(b.objects, i) ==> ProvenanceResolves(b.events, b.objects[i]))
  {
    KeysAreIds(b.objects, byId);
    forall pid, id ensures NamedAsOutput(prov, pid, id) <==> Produces(b.events, pid, id) {
      EventLookup(b.events, byId.Keys, prov, pid, id);
    }
    if forall id :: id in byId ==> ObjectTraced(prov, id, byId[id]) {
      forall i | 0 <= i < |b.objects| && IsFirst(b.objects, i) ensures ProvenanceResolves(b.events, b.objects[i]) {
        assert ObjectPasses(b.objects, i);
        FirstIsStored(b.objects, byId, i);
        assert ObjectTraced(prov, b.objects[i].objectId, b.objects[i]);
      }
    }
    if forall i :: 0 <= i < |b.objects| && IsFirst(b.objects, i) ==> ProvenanceResolves(b.events, b.objects[i]) {
      forall id | id in byId ensures ObjectTraced(prov, id, byId[id]) {
        var i :| 0 <= i < |b.objects| && b.objects[i].objectId == id && IsFirst(b.objects, i)
            && byId[id] == b.objects[i];
        assert ProvenanceResolves(b.events, b.objects[i]);
      }
    }
  }

  lemma KeysAreIds(objects: seq<Obj>, byId: map<string, Obj>)
    requires ObjectsPass(objects, |objects|) && ById(objects, |objects|, byId)
    ensures byId.Keys == ObjectIds(objects)
  {
    forall id | id in ObjectIds(objects) ensures id in byId {
      var i :| 0 <= i < |objects| && objects[i].objectId == id;
      assert ObjectPasses(objects, i);
    }
  }

  lemma FirstIsStored(objects: seq<Obj>, byId: map<string, Obj>, i: nat)
    requires i < |objects| && IsFirst(objects, i) && objects[i].objectId != "" && ById(objects, |objects|, byId)
    ensures objects[i].objectId in byId && byId[objects[i].objectId] == objects[i]
  {
    var id := objects[i].objectId;
    assert id in byId;
    var k :| 0 <= k < |objects| && objects[k].objectId == id && IsFirst(objects, k) && byId[id] == objects[k];
    assert k == i;
  }

  lemma EventLookup(events: seq<Event>, ids: set<string>, prov: map<string, Event>, pid: string, id: string)
    requires EventsPass(events, |events|, ids) && ByEventId(events, |events|, prov)
    ensures NamedAsOutput(prov, pid, id) <==> Produces(events, pid, id)
  {
    if NamedAsOutput(prov, pid, id) {
      var k :| 0 <= k < |events| && events[k] == prov[pid] && events[k].eventId == pid;
      assert events[k] in events;
    }
    if Produces(events, pid, id) {
      var e :| e in events && e.eventId == pid && id in e.outputIds;
      var j :| 0 <= j < |events| && events[j] == e;
      assert EventOk(ids, events[j]);
      assert pid in prov;
      var k :| 0 <= k < |events| && events[k] == prov[pid] && events[k].eventId == pid;
      assert k == j;
    }
  }

  /** The validator reports nothing exactly for the valid bundles. */
  method ValidateBundle(b: Bundle) returns (errors: seq<BundleError>)
    ensures errors == [] <==> Valid(b)
  {
    var byId, prov;
    errors, byId := ValidateObjects(b.objects);
    var eventErrors;
    eventErrors, prov := ValidateEvents(b.events, byId.Keys);
    var provenanceErrors := ValidateProvenance(byId, prov);
    var decisionErrors := ValidateDecisions(b.decisions, byId.Keys);
    PhasesDecide(b, byId, prov);
    errors := errors + eventErrors + provenanceErrors + decisionErrors;
  }

  lemma PhasesDecide(b: Bundle, byId: map<string, Obj>, prov: map<string, Event>)
    requires ById(b.objects, |b.objects|, byId) && ByEventId(b.events, |b.events|, prov)
    ensures Valid(b) <==>
              && ObjectsPass(b.objects, |b.objects|)
              && EventsPass(b.events, |b.events|, byId.Keys)
              && (forall id :: id in byId ==> ObjectTraced(prov, id, byId[id]))
              && (forall d :: d in b.decisions ==> DecisionOk(byId.Keys, d))
  {
    PassMeansAgree(b.objects);
    if ObjectsPass(b.objects, |b.objects|) {
      KeysAreIds(b.objects, byId);
      if EventsPass(b.events, |b.events|, byId.Keys) { MapsResolve(b, byId, prov); }
    }
  }
}
