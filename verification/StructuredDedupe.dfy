/** Deterministic derivation of duplicate groups and contradictions from structured claims.

    `Codec.text` is the canonical JSON rendering and `Codec.digest` its SHA-256 in hexadecimal. */
module StructuredDedupe {
  import opened Common
  import opened TextOrder
  import opened CanonicalBundle

  datatype Codec = Codec(text: Json -> string, digest: Json -> string)

  ghost predicate InjectiveText(c: Codec) {
    forall j, k {:trigger c.text(j), c.text(k)} :: c.text(j) == c.text(k) ==> j == k
  }

  ghost predicate HexDigests(c: Codec) {
    forall j {:trigger c.digest(j)} :: |c.digest(j)| == 64 && forall i :: 0 <= i < 64 ==> HexDigit(c.digest(j)[i])
  }

  // ---- Structured claims ----

  datatype Claim = Claim(subjects: seq<string>, predicate_: string, value: Json)

  predicate NonEmptyStr(j: Json) {
    j.Str? && j.s != ""
  }

  function Strings(items: seq<Json>): set<string> {
    set i | 0 <= i < |items| && items[i].Str? :: items[i].s
  }

  /** `_claim_fields`: the sorted subject set, the predicate and the value, or None for anything else. */
  function ClaimFields(o: Obj): Option<Claim> {
    if o.typ != "CLAIM" || o.payload.None? then None
    else
      var p := o.payload.value;
      var subjects, predicate_ := Field(p, SubjectIds), Field(p, Predicate);
      if !NonEmptyList(subjects) || !(forall j :: j in subjects.items ==> NonEmptyStr(j))
         || !NonEmptyStr(predicate_) || ObjectValue !in p
      then None
      else Some(Claim(Sorted(Strings(subjects.items)), predicate_.s, p[ObjectValue]))
  }

  predicate Exclusive(o: Obj) {
    Field(PayloadOf(o), ComparisonMode) == Str("EXCLUSIVE_VALUE")
  }

  function StrList(s: seq<string>): Json {
    List(seq(|s|, i requires 0 <= i < |s| => Str(s[i])))
  }

  function DuplicateJson(x: Claim): Json {
    Dict(map[SubjectIds := StrList(x.subjects), Predicate := Str(x.predicate_), ObjectValue := x.value])
  }

  function ContextJson(subjects: seq<string>, predicate_: string): Json {
    Dict(map[SubjectIds := StrList(subjects), Predicate := Str(predicate_)])
  }

  lemma StrListInjective(s: seq<string>, t: seq<string>)
    requires StrList(s) == StrList(t)
    ensures s == t
  {
    assert |StrList(s).items| == |s| && |StrList(t).items| == |t|;
    forall i | 0 <= i < |s| ensures s[i] == t[i] { assert StrList(s).items[i] == StrList(t).items[i]; }
  }

  lemma DuplicateJsonInjective(x: Claim, y: Claim)
    requires DuplicateJson(x) == DuplicateJson(y)
    ensures x == y
  {
    var f, g := DuplicateJson(x).fields, DuplicateJson(y).fields;
    assert f[SubjectIds] == g[SubjectIds] && f[Predicate] == g[Predicate] && f[ObjectValue] == g[ObjectValue];
    StrListInjective(x.subjects, y.subjects);
  }

  lemma ContextJsonInjective(s: seq<string>, p: string, t: seq<string>, q: string)
    requires ContextJson(s, p) == ContextJson(t, q)
    ensures s == t && p == q
  {
    var f, g := ContextJson(s, p).fields, ContextJson(t, q).fields;
    assert f[SubjectIds] == g[SubjectIds] && f[Predicate] == g[Predicate];
    StrListInjective(s, t);
  }

  /** The key an object is grouped under, or None if it is in no group. */
  type Keying = Obj -> Option<string>

  function DuplicateKey(c: Codec): Keying {
    (o: Obj) => match ClaimFields(o)
      case Some(x) => Some(c.text(DuplicateJson(x)))
      case None => None
  }

  function ContextKey(c: Codec): Keying {
    (o: Obj) => match ClaimFields(o)
      case Some(x) => if Exclusive(o) then Some(c.text(ContextJson(x.subjects, x.predicate_))) else None
      case None => None
  }

  // ---- Grouping ----

  /** The objects with key t, in bundle order. */
  function Members(objs: seq<Obj>, key: Keying, t: string): seq<Obj> {
    if objs == [] then []
    else
      var before := Members(objs[..|objs| - 1], key, t);
      if key(objs[|objs| - 1]) == Some(t) then before + [objs[|objs| - 1]] else before
  }

  function Keys(objs: seq<Obj>, key: Keying): set<string> {
    set o | o in objs && key(o).Some? :: key(o).value
  }

  lemma {:induction false} MembersAre(objs: seq<Obj>, key: Keying, t: string)
    ensures forall o :: o in Members(objs, key, t) <==> o in objs && key(o) == Some(t)
  {
    if objs == [] {
    } else {
      MembersAre(objs[..|objs| - 1], key, t);
      assert objs == objs[..|objs| - 1] + [objs[|objs| - 1]];
    }
  }

  predicate IdsDistinct(objs: seq<Obj>) {
    forall i, k :: 0 <= i < k < |objs| ==> objs[i].objectId != objs[k].objectId
  }

  lemma {:induction false} MembersDistinct(objs: seq<Obj>, key: Keying, t: string)
    requires IdsDistinct(objs)
    ensures IdsDistinct(Members(objs, key, t))
  {
    if objs == [] {
    } else {
      var n := |objs| - 1;
      MembersDistinct(objs[..n], key, t);
      MembersAre(objs[..n], key, t);
      forall o | o in Members(objs[..n], key, t) ensures o.objectId != objs[n].objectId {
        var i :| 0 <= i < n && objs[..n][i] == o;
        assert objs[i] == o;
      }
    }
  }

  // ---- Sorting members by id ----

  /** Stable insertion: after every member whose id is not larger. */
  function Insert(s: seq<Obj>, o: Obj): seq<Obj> {
    if s == [] || Leq(s[|s| - 1].objectId, o.objectId) then s + [o]
    else Insert(s[..|s| - 1], o) + [s[|s| - 1]]
  }

  /** `sorted(members, key=object_id)`. */
  function SortById(s: seq<Obj>): seq<Obj> {
    if s == [] then [] else Insert(SortById(s[..|s| - 1]), s[|s| - 1])
  }

  predicate OrderedById(s: seq<Obj>) {
    forall i, k :: 0 <= i < k < |s| ==> Leq(s[i].objectId, s[k].objectId)
  }

  lemma MultisetSnoc<T>(s: seq<T>)
    requires s != []
    ensures multiset(s) == multiset(s[..|s| - 1]) + multiset{s[|s| - 1]}
  {
    assert s == s[..|s| - 1] + [s[|s| - 1]];
  }

  lemma {:induction false} InsertPermutes(s: seq<Obj>, o: Obj)
    ensures multiset(Insert(s, o)) == multiset(s) + multiset{o}
  {
    if s == [] || Leq(s[|s| - 1].objectId, o.objectId) {
    } else {
      InsertPermutes(s[..|s| - 1], o);
      MultisetSnoc(s);
    }
  }

  lemma {:induction false} InsertOrdered(s: seq<Obj>, o: Obj)
    requires OrderedById(s)
    ensures OrderedById(Insert(s, o))
  {
    if s == [] {
    } else {
      var n := |s| - 1;
      if Leq(s[n].objectId, o.objectId) {
        forall i | 0 <= i < |s| ensures Leq(s[i].objectId, o.objectId) {
          if i < n { LeqTrans(s[i].objectId, s[n].objectId, o.objectId); }
        }
      } else {
        InsertOrdered(s[..n], o);
        InsertPermutes(s[..n], o);
        LeqTotal(s[n].objectId, o.objectId);
        var r := Insert(s[..n], o);
        forall x | x in r ensures Leq(x.objectId, s[n].objectId) {
          assert x in multiset(r);
          if x != o { assert x in s[..n]; }
        }
      }
    }
  }

  lemma {:induction false} SortOrders(s: seq<Obj>)
    ensures OrderedById(SortById(s))
  {
    if s == [] {
    } else {
      SortOrders(s[..|s| - 1]);
      InsertOrdered(SortById(s[..|s| - 1]), s[|s| - 1]);
    }
  }

  lemma {:induction false} SortPermutes(s: seq<Obj>)
    ensures multiset(SortById(s)) == multiset(s)
  {
    if s == [] {
    } else {
      SortPermutes(s[..|s| - 1]);
      InsertPermutes(SortById(s[..|s| - 1]), s[|s| - 1]);
      MultisetSnoc(s);
    }
  }

  /** Sorting orders by id and keeps exactly the objects given. */
  lemma SortByIdSorts(s: seq<Obj>)
    ensures OrderedById(SortById(s)) && multiset(SortById(s)) == multiset(s)
    ensures forall o :: o in SortById(s) <==> o in s
    ensures |SortById(s)| == |s|
  {
    SortOrders(s);
    SortPermutes(s);
    SameMultisetSameMembers(SortById(s), s);
  }

  lemma SameMultisetSameMembers<T>(s: seq<T>, t: seq<T>)
    requires multiset(s) == multiset(t)
    ensures (forall o :: o in s <==> o in t) && |s| == |t|
  {
    forall o ensures o in s <==> o in t {
      assert o in s <==> o in multiset(s);
      assert o in t <==> o in multiset(t);
    }
    assert |s| == |multiset(s)| && |t| == |multiset(t)|;
  }

  function IdsOf(s: seq<Obj>): seq<string> {
    seq(|s|, i requires 0 <= i < |s| => s[i].objectId)
  }

  lemma TwiceInMultiset(t: seq<Obj>, i: nat, k: nat)
    requires i < k < |t| && t[i] == t[k]
    ensures multiset(t)[t[i]] >= 2
  {
    assert t == t[..i] + [t[i]] + t[i + 1..k] + [t[k]] + t[k + 1..];
  }

  lemma SameIdSameMember(s: seq<Obj>, o: Obj, p: Obj)
    requires IdsDistinct(s) && o in s && p in s && o.objectId == p.objectId
    ensures o == p
  {
    var a :| 0 <= a < |s| && s[a] == o;
    var b :| 0 <= b < |s| && s[b] == p;
  }

  lemma DistinctCarries(s: seq<Obj>, t: seq<Obj>)
    requires IdsDistinct(s) && multiset(t) == multiset(s)
    ensures IdsDistinct(t)
  {
    SameMultisetSameMembers(s, t);
    forall i, k | 0 <= i < k < |t| ensures t[i].objectId != t[k].objectId {
      if t[i].objectId == t[k].objectId {
        assert t[i] in t && t[k] in t;
        SameIdSameMember(s, t[i], t[k]);
        TwiceInMultiset(t, i, k);
        OnceOnly(s, t[i]);
      }
    }
  }

  lemma {:induction false} OnceOnly(s: seq<Obj>, o: Obj)
    requires IdsDistinct(s)
    ensures multiset(s)[o] <= 1
  {
    if s == [] {
    } else {
      var n := |s| - 1;
      OnceOnly(s[..n], o);
      assert s == s[..n] + [s[n]];
      if s[n] == o {
        forall i | 0 <= i < n ensures s[..n][i] != o { assert s[i].objectId != s[n].objectId; }
        assert o !in s[..n];
      }
    }
  }

  /** Sorting by distinct ids depends only on which objects there are. */
  lemma SortUnique(s: seq<Obj>, t: seq<Obj>)
    requires IdsDistinct(s) && IdsDistinct(t) && forall o :: o in s <==> o in t
    ensures SortById(s) == SortById(t)
  {
    SortByIdSorts(s);
    SortByIdSorts(t);
    DistinctCarries(s, SortById(s));
    DistinctCarries(t, SortById(t));
    OrderedUnique(SortById(s), SortById(t));
  }

  lemma OrderedUnique(s: seq<Obj>, t: seq<Obj>)
    requires OrderedById(s) && OrderedById(t) && IdsDistinct(s) && IdsDistinct(t)
    requires forall o :: o in s <==> o in t
    ensures s == t
  {
    SameIds(s, t);
    IncreasingUnique(IdsOf(s), IdsOf(t));
    assert |IdsOf(s)| == |s| && |IdsOf(t)| == |t|;
    forall i | 0 <= i < |s| ensures s[i] == t[i] {
      assert IdsOf(s)[i] == IdsOf(t)[i];
      assert s[i] in t;
      var k :| 0 <= k < |t| && t[k] == s[i];
      assert t[k].objectId == t[i].objectId;
    }
  }

  lemma SameIds(s: seq<Obj>, t: seq<Obj>)
    requires forall o :: o in s <==> o in t
    ensures Elements(IdsOf(s)) == Elements(IdsOf(t))
  {
    forall id ensures id in Elements(IdsOf(s)) <==> id in Elements(IdsOf(t)) {
      IdsOfMember(s, id);
      IdsOfMember(t, id);
    }
  }

  lemma IdsOfMember(s: seq<Obj>, id: string)
    ensures id in IdsOf(s) <==> exists o :: o in s && o.objectId == id
  {
    if id in IdsOf(s) {
      var i :| 0 <= i < |IdsOf(s)| && IdsOf(s)[i] == id;
      assert s[i] in s && s[i].objectId == id;
    }
    if o :| o in s && o.objectId == id {
      var i :| 0 <= i < |s| && s[i] == o;
      assert IdsOf(s)[i] == id;
    }
  }

  // ---- Derived objects ----

  const EPOCH := "1970-01-01T00:00:00Z"

  function TimeOf(o: Obj): string {
    match (o.ingestedAt, o.createdAt)
    case (Some(t), _) => if t != "" then t else OrElse(o.createdAt)
    case (None, _) => OrElse(o.createdAt)
  }

  function OrElse(t: Option<string>): string {
    if t.Some? && t.value != "" then t.value else EPOCH
  }

  /** The latest of the members' times. */
  function StableTime(members: seq<Obj>): string
    requires members != []
  {
    var times := set i | 0 <= i < |members| :: TimeOf(members[i]);
    assert TimeOf(members[0]) in times;
    Max(times)
  }

  function ProjectIds(members: seq<Obj>): seq<string> {
    Sorted(set i, p | 0 <= i < |members| && p in members[i].projectIds && p != "" :: p)
  }

  function DerivedObject(c: Codec, typ: string, subtype: string, id: string, payload: map<Key, Json>,
                         memberIds: seq<string>, pid: string, members: seq<Obj>, identity: Json): Obj
    requires members != []
  {
    var time := StableTime(members);
    var content := Dict(map[Other("type") := Str(typ), Other("subtype") := Str(subtype),
        Other("payload") := Dict(payload)]);
    Obj(id, typ, "CANONICAL", "sha256:" + c.digest(content), "DERIVED", "UNVERIFIED", "DERIVED_RECORD", No,
        Some([pid]), Some(payload),
        Some(time), Some(time), ProjectIds(members),
        Dict(map[Other("schema_version") := Str("1.0.0"), Other("subtype") := Str(subtype),
                 Other("identity_hash") := Str("sha256:" + c.digest(identity)),
                 Other("parent_ids") := StrList(memberIds), Other("related_ids") := StrList(memberIds),
                 Other("confidence") := Num(1), Other("semantic_scope") := Str("STRUCTURED_FIELDS_ONLY"),
                 Other("free_text_inference") := Bool(false), Other("mutation_authority") := Str("NONE")]))
  }

  function ProvenanceEvent(pid: string, memberIds: seq<string>, output: string, operation: string,
                           time: string): Event {
    Event(pid, memberIds, [output], operation, time,
          Dict(map[Other("tool_id") := Str("structured_semantic_dedupe"), Other("tool_version") := Str("1"),
                   Other("rule_id") := Str("structured-claim-v1"), Other("deterministic") := Bool(true)]))
  }

  /** A derived object with the event that records its derivation. */
  datatype Candidate = Candidate(obj: Obj, event: Event)

  function ShortDigest(c: Codec, kind: string, key: string, memberIds: seq<string>): string {
    var d := c.digest(Dict(map[Kind := Str(kind), KeyText := Str(key), MemberIds := StrList(memberIds)]));
    if |d| >= 24 then d[..24] else d
  }

  function DuplicatePayload(ids: seq<string>, x: Claim): map<Key, Json> {
    map[MemberIds := StrList(ids), DuplicateType := Str("STRUCTURED_SEMANTIC"),
        SubjectIds := StrList(x.subjects), Predicate := Str(x.predicate_), ObjectValue := x.value,
        ResolutionStatus := Str("UNRESOLVED"), DeletionAuthority := Bool(false)]
  }

  function MakeDuplicate(c: Codec, key: string, members: seq<Obj>, x: Claim): Candidate
    requires members != []
  {
    var ids := IdsOf(members);
    var digest := ShortDigest(c, "duplicate", key, ids);
    var id, pid := "obj_duplicate_" + digest, "prov_duplicate_" + digest;
    Candidate(DerivedObject(c, "DUPLICATE_GROUP", "STRUCTURED_CLAIM_DUPLICATE", id, DuplicatePayload(ids, x), ids,
        pid, members,
                            Dict(map[Kind := Str("duplicate"), KeyText := Str(key)])),
              ProvenanceEvent(pid, ids, id, "DETECT_STRUCTURED_SEMANTIC_DUPLICATE", StableTime(members)))
  }

  /** The duplicate group for one key, from its members in bundle order; none for fewer than two. */
  function DuplicateCandidate(c: Codec, key: string, group: seq<Obj>): Option<Candidate> {
    var members := SortById(group);
    if |members| < 2 || ClaimFields(members[0]).None? then None
    else Some(MakeDuplicate(c, key, members, ClaimFields(members[0]).value))
  }

  /** The values claimed by the group, by their text. */
  function ValuesOf(c: Codec, group: seq<Obj>): map<string, Json> {
    if group == [] then map[]
    else
      var before := ValuesOf(c, group[..|group| - 1]);
      match ClaimFields(group[|group| - 1])
      case Some(x) => before[c.text(x.value) := x.value]
      case None => before
  }

  function Lookup(values: map<string, Json>, keys: seq<string>): seq<Json> {
    seq(|keys|, i requires 0 <= i < |keys| => if keys[i] in values then values[keys[i]] else Null)
  }

  function ContradictionPayload(ids: seq<string>, x: Claim, values: seq<Json>): map<Key, Json> {
    map[MemberIds := StrList(ids), SubjectIds := StrList(x.subjects), Predicate := Str(x.predicate_),
        ObjectValues := List(values), ComparisonMode := Str("EXCLUSIVE_VALUE"),
        ResolutionStatus := Str("UNRESOLVED"), WinnerId := Null]
  }

  function MakeContradiction(c: Codec, key: string, members: seq<Obj>, x: Claim, values: seq<Json>): Candidate
    requires members != []
  {
    var ids := IdsOf(members);
    var digest := ShortDigest(c, "contradiction", key, ids);
    var id, pid := "obj_contradiction_" + digest, "prov_contradiction_" + digest;
    Candidate(DerivedObject(c, "CONTRADICTION", "EXCLUSIVE_STRUCTURED_CLAIM_CONFLICT", id,
        ContradictionPayload(ids, x, values),
                            ids, pid, members, Dict(map[Kind := Str("contradiction"), KeyText := Str(key)])),
              ProvenanceEvent(pid, ids, id, "DETECT_EXCLUSIVE_STRUCTURED_CLAIM_CONTRADICTION", StableTime(members)))
  }

  /** The contradiction for one context; none unless two members claim different values. */
  function ContradictionCandidate(c: Codec, key: string, group: seq<Obj>): Option<Candidate> {
    var values := ValuesOf(c, group);
    var members := SortById(group);
    if |values.Keys| < 2 || members == [] || ClaimFields(members[0]).None? then None
    else Some(MakeContradiction(c, key, members, ClaimFields(members[0]).value, Lookup(values, Sorted(values.Keys))))
  }

  /** The object and the event of a candidate refer to each other and to the members. */
  predicate WellFormed(x: Candidate, typ: string, ids: seq<string>) {
    && x.obj.typ == typ && x.obj.objectId != "" && x.event.eventId != ""
    && x.obj.provenanceIds == Some([x.event.eventId]) && x.event.outputIds == [x.obj.objectId]
    && x.event.inputIds == ids && x.obj.payload.Some? && Field(x.obj.payload.value, MemberIds) == StrList(ids)
    && x.obj.authority == "DERIVED_RECORD" && x.obj.authoritative == No
  }

  predicate Describes(x: Candidate, claim: Claim) {
    && x.obj.payload.Some?
    && Field(x.obj.payload.value, SubjectIds) == StrList(claim.subjects)
    && Field(x.obj.payload.value, Predicate) == Str(claim.predicate_)
  }

  lemma DuplicateFields(ids: seq<string>, x: Claim)
    ensures var p := DuplicatePayload(ids, x);
            && Field(p, MemberIds) == StrList(ids) && Field(p, ObjectValue) == x.value
            && Field(p, SubjectIds) == StrList(x.subjects) && Field(p, Predicate) == Str(x.predicate_)
  {
  }

  lemma ContradictionFields(ids: seq<string>, x: Claim, values: seq<Json>)
    ensures var p := ContradictionPayload(ids, x, values);
            && Field(p, MemberIds) == StrList(ids)
            && Field(p, SubjectIds) == StrList(x.subjects) && Field(p, Predicate) == Str(x.predicate_)
  {
  }

  lemma DuplicateShape(c: Codec, key: string, members: seq<Obj>, x: Claim)
    requires members != []
    ensures var d := MakeDuplicate(c, key, members, x);
            WellFormed(d, "DUPLICATE_GROUP", IdsOf(members)) && Describes(d, x)
                && Field(d.obj.payload.value, ObjectValue) == x.value
  {
    DuplicateFields(IdsOf(members), x);
  }

  lemma ContradictionShape(c: Codec, key: string, members: seq<Obj>, x: Claim, values: seq<Json>)
    requires members != []
    ensures var d := MakeContradiction(c, key, members, x, values);
            WellFormed(d, "CONTRADICTION", IdsOf(members)) && Describes(d, x)
  {
    ContradictionFields(IdsOf(members), x, values);
  }

  /** One candidate per key, in the order of the key texts. */
  function DeriveAll(make: (string, seq<Obj>) -> Option<Candidate>, objs: seq<Obj>, key: Keying,
                     texts: seq<string>): seq<Candidate> {
    if texts == [] then []
    else
      var before := DeriveAll(make, objs, key, texts[..|texts| - 1]);
      var t := texts[|texts| - 1];
      match make(t, Members(objs, key, t))
      case Some(x) => before + [x]
      case None => before
  }

  function DuplicateMaker(c: Codec): (string, seq<Obj>) -> Option<Candidate> {
    (key: string, group: seq<Obj>) => DuplicateCandidate(c, key, group)
  }

  function ContradictionMaker(c: Codec): (string, seq<Obj>) -> Option<Candidate> {
    (key: string, group: seq<Obj>) => ContradictionCandidate(c, key, group)
  }

  function Duplicates(c: Codec, objs: seq<Obj>): seq<Candidate> {
    DeriveAll(DuplicateMaker(c), objs, DuplicateKey(c), Sorted(Keys(objs, DuplicateKey(c))))
  }

  function Contradictions(c: Codec, objs: seq<Obj>): seq<Candidate> {
    DeriveAll(ContradictionMaker(c), objs, ContextKey(c), Sorted(Keys(objs, ContextKey(c))))
  }

  function Candidates(c: Codec, objs: seq<Obj>): seq<Candidate> {
    Duplicates(c, objs) + Contradictions(c, objs)
  }

  lemma {:induction false} DerivedAre(make: (string, seq<Obj>) -> Option<Candidate>, objs: seq<Obj>, key: Keying,
                                      texts: seq<string>)
    ensures forall x :: x in DeriveAll(make, objs, key, texts)
                        <==> exists t :: t in texts && make(t, Members(objs, key, t)) == Some(x)
  {
    if texts == [] {
    } else {
      var n := |texts| - 1;
      DerivedAre(make, objs, key, texts[..n]);
      forall x ensures x in DeriveAll(make, objs, key, texts)
                       <==> exists t :: t in texts && make(t, Members(objs, key, t)) == Some(x) {
        if x in DeriveAll(make, objs, key, texts) {
          if x in DeriveAll(make, objs, key, texts[..n]) {
            var t :| t in texts[..n] && make(t, Members(objs, key, t)) == Some(x);
            assert t in texts;
          } else {
            assert texts[n] in texts;
          }
        }
        if t :| t in texts && make(t, Members(objs, key, t)) == Some(x) {
          if t != texts[n] { assert t in texts[..n]; }
        }
      }
    }
  }

  // ---- Which candidates there are ----

  /** o claims the value with text v. */
  predicate Claims(c: Codec, o: Obj, v: string) {
    ClaimFields(o).Some? && c.text(ClaimFields(o).value.value) == v
  }

  lemma {:induction false} ValuesAre(c: Codec, group: seq<Obj>, v: string)
    ensures v in ValuesOf(c, group) <==> exists o :: o in group && Claims(c, o, v)
  {
    if group == [] {
    } else {
      var n := |group| - 1;
      ValuesAre(c, group[..n], v);
      assert group == group[..n] + [group[n]];
      if o :| o in group[..n] && Claims(c, o, v) { assert o in group; }
      if Claims(c, group[n], v) { assert group[n] in group; }
    }
  }
}
