/** What a derived duplicate group and a derived contradiction say, field by field, in terms of the claims behind
    them. */
module DedupeContent {
  import opened Common
  import opened TextOrder
  import opened CanonicalBundle
  import opened StructuredDedupe
  import opened DedupeDerivation

  /** The time an object is known since: its ingestion, else its creation, else the epoch. */
  function KnownSince(o: Obj): string {
    if o.ingestedAt.Some? && o.ingestedAt.value != "" then o.ingestedAt.value
    else if o.createdAt.Some? && o.createdAt.value != "" then o.createdAt.value
    else "1970-01-01T00:00:00Z"
  }

  predicate Latest(members: seq<Obj>, t: string) {
    && (forall m :: m in members ==> Leq(KnownSince(m), t))
    && exists m :: m in members && KnownSince(m) == t
  }

  /** x was derived from these members: its object and its event name them and each other, it is a derived and
      unverified record without authority, as recent as its latest member, and belongs to their projects. */
  ghost predicate DerivedFrom(x: Candidate, members: seq<Obj>) {
    && x.obj.status == "CANONICAL" && x.obj.epistemic == "DERIVED" && x.obj.verification == "UNVERIFIED"
    && x.obj.authority == "DERIVED_RECORD" && x.obj.authoritative == No
    && x.obj.provenanceIds == Some([x.event.eventId]) && x.event.outputIds == [x.obj.objectId]
    && |x.event.inputIds| == |members|
    && (forall id :: id in x.event.inputIds <==> exists m :: m in members && m.objectId == id)
    && (forall i, k :: 0 <= i < k < |x.event.inputIds| ==> Leq(x.event.inputIds[i], x.event.inputIds[k]))
    && x.obj.createdAt == Some(x.event.timestamp) && x.obj.ingestedAt == Some(x.event.timestamp)
    && Latest(members, x.event.timestamp)
    && Increasing(x.obj.projectIds)
    && (forall p :: p in x.obj.projectIds <==> p != "" && exists m :: m in members && p in m.projectIds)
  }

  /** The list is the increasing list of the subjects of o. */
  ghost predicate ListsSubjects(j: Json, o: Obj)
    requires MakesClaim(o)
  {
    && j.List? && (forall i :: 0 <= i < |j.items| ==> j.items[i].Str?)
    && (forall i, k :: 0 <= i < k < |j.items| ==> Less(j.items[i].s, j.items[k].s))
    && (forall s :: Str(s) in j.items <==> About(o, s))
  }

  predicate Texts(j: Json, texts: seq<string>) {
    j.List? && |j.items| == |texts| && forall i :: 0 <= i < |texts| ==> j.items[i] == Str(texts[i])
  }

  /** x is the duplicate group of the claim that o makes. */
  ghost predicate GroupsClaim(objs: seq<Obj>, x: Candidate, o: Obj, members: seq<Obj>) {
    && MakesClaim(o) && (forall m :: m in members <==> m in objs && Agree(o, m))
    && DerivedFrom(x, members) && x.obj.typ == "DUPLICATE_GROUP"
    && x.event.operation == "DETECT_STRUCTURED_SEMANTIC_DUPLICATE"
    && x.obj.payload.Some?
    && var p := x.obj.payload.value;
    && p.Keys == {MemberIds, DuplicateType, SubjectIds, Predicate, ObjectValue, ResolutionStatus, DeletionAuthority}
    && Texts(p[MemberIds], x.event.inputIds) && p[DuplicateType] == Str("STRUCTURED_SEMANTIC")
    && ListsSubjects(p[SubjectIds], o) && p[Predicate] == o.payload.value[Predicate]
    && p[ObjectValue] == o.payload.value[ObjectValue]
    && p[ResolutionStatus] == Str("UNRESOLVED") && p[DeletionAuthority] == Bool(false)
  }

  /** x is the contradiction of the context that o is an exclusive claim of. */
  ghost predicate RecordsConflict(objs: seq<Obj>, x: Candidate, o: Obj, members: seq<Obj>, subjects: seq<string>,
                                  predicate_: string)
  {
    && InContext(o, subjects, predicate_)
    && (forall m :: m in members <==> m in objs && InContext(m, subjects, predicate_))
    && DerivedFrom(x, members) && x.obj.typ == "CONTRADICTION"
    && x.event.operation == "DETECT_EXCLUSIVE_STRUCTURED_CLAIM_CONTRADICTION"
    && x.obj.payload.Some?
    && var p := x.obj.payload.value;
    && p.Keys == {MemberIds, SubjectIds, Predicate, ObjectValues, ComparisonMode, ResolutionStatus, WinnerId}
    && Texts(p[MemberIds], x.event.inputIds) && Texts(p[SubjectIds], subjects) && p[Predicate] == Str(predicate_)
    && p[ComparisonMode] == Str("EXCLUSIVE_VALUE") && p[ResolutionStatus] == Str("UNRESOLVED") && p[WinnerId] == Null
    && p[ObjectValues].List?
    && (forall j :: j in p[ObjectValues].items <==> exists m :: m in members && ClaimedBy(m, j))
  }

  predicate ClaimedBy(m: Obj, j: Json) {
    MakesClaim(m) && m.payload.value[ObjectValue] == j
  }

  // ---- Time and projects ----

  lemma TimeIs(o: Obj)
    ensures TimeOf(o) == KnownSince(o)
  {
  }

  lemma StableTimeLatest(members: seq<Obj>)
    requires members != []
    ensures Latest(members, StableTime(members))
  {
    var times := set i | 0 <= i < |members| :: TimeOf(members[i]);
    assert TimeOf(members[0]) in times;
    var t := StableTime(members);
    assert IsMax(times, t);
    forall m | m in members ensures Leq(KnownSince(m), t) {
      var i :| 0 <= i < |members| && members[i] == m;
      assert TimeOf(members[i]) in times;
    }
    var i :| 0 <= i < |members| && TimeOf(members[i]) == t;
    assert members[i] in members && KnownSince(members[i]) == t;
  }

  lemma ProjectIdsAre(members: seq<Obj>, p: string)
    ensures Increasing(ProjectIds(members))
    ensures p in ProjectIds(members) <==> p != "" && exists m :: m in members && p in m.projectIds
  {
    var ids := set i, q | 0 <= i < |members| && q in members[i].projectIds && q != "" :: q;
    assert p in ProjectIds(members) <==> p in Elements(Sorted(ids));
    if p != "" && exists m :: m in members && p in m.projectIds {
      var m :| m in members && p in m.projectIds;
      var i :| 0 <= i < |members| && members[i] == m;
      assert p in ids;
    }
  }

  lemma SortedMembers(group: seq<Obj>)
    ensures var ids := IdsOf(SortById(group));
            && |ids| == |group|
            && (forall id :: id in ids <==> exists m :: m in group && m.objectId == id)
            && forall i, k :: 0 <= i < k < |ids| ==> Leq(ids[i], ids[k])
  {
    SortByIdSorts(group);
    forall id ensures id in IdsOf(SortById(group)) <==> exists m :: m in group && m.objectId == id {
      SortedIds(group, id);
    }
  }

  lemma SameMembers(s: seq<Obj>, t: seq<Obj>, time: string)
    requires forall m :: m in s <==> m in t
    requires Latest(s, time)
    ensures Latest(t, time)
  {
  }

  /** The fields that both kinds of derived object share. */
  predicate Stamped(x: Candidate, members: seq<Obj>)
    requires members != []
  {
    && x.obj.status == "CANONICAL" && x.obj.epistemic == "DERIVED" && x.obj.verification == "UNVERIFIED"
    && x.obj.authority == "DERIVED_RECORD" && x.obj.authoritative == No
    && x.obj.provenanceIds == Some([x.event.eventId]) && x.event.outputIds == [x.obj.objectId]
    && x.event.inputIds == IdsOf(members) && x.event.timestamp == StableTime(members)
    && x.obj.createdAt == Some(x.event.timestamp) && x.obj.ingestedAt == Some(x.event.timestamp)
    && x.obj.projectIds == ProjectIds(members)
  }

  lemma StampedDerived(x: Candidate, group: seq<Obj>)
    requires SortById(group) != [] && Stamped(x, SortById(group))
    ensures DerivedFrom(x, group)
  {
    var members := SortById(group);
    SortByIdSorts(group);
    SortedMembers(group);
    StableTimeLatest(members);
    SameMembers(members, group, x.event.timestamp);
    forall p ensures p in x.obj.projectIds <==> p != "" && exists m :: m in group && p in m.projectIds {
      ProjectIdsAre(members, p);
    }
    ProjectIdsAre(members, "");
  }

  lemma StrListTexts(s: seq<string>)
    ensures Texts(StrList(s), s)
  {
  }

  lemma SubjectsListed(o: Obj)
    requires MakesClaim(o)
    ensures ListsSubjects(StrList(ClaimFields(o).value.subjects), o)
  {
    ClaimRead(o);
    var s := ClaimFields(o).value.subjects;
    var items := StrList(s).items;
    forall x ensures Str(x) in items <==> About(o, x) {
      if x in s {
        var i :| 0 <= i < |s| && s[i] == x;
        assert items[i] == Str(x);
      }
      if Str(x) in items {
        var i :| 0 <= i < |items| && items[i] == Str(x);
        assert s[i] == x;
      }
    }
  }

  // ---- Duplicate groups ----

  lemma DuplicateStamped(c: Codec, key: string, members: seq<Obj>, x: Claim)
    requires members != []
    ensures Stamped(MakeDuplicate(c, key, members, x), members)
  {
  }

  lemma DuplicatePayloadIs(c: Codec, key: string, members: seq<Obj>, x: Claim)
    requires members != []
    ensures var d := MakeDuplicate(c, key, members, x);
            && d.obj.payload == Some(DuplicatePayload(IdsOf(members), x)) && d.obj.typ == "DUPLICATE_GROUP"
            && d.event.operation == "DETECT_STRUCTURED_SEMANTIC_DUPLICATE"
  {
  }

  lemma GroupFields(ids: seq<string>, o: Obj)
    requires MakesClaim(o)
    ensures var p := DuplicatePayload(ids, ClaimFields(o).value);
            && p.Keys == {MemberIds, DuplicateType, SubjectIds, Predicate, ObjectValue, ResolutionStatus,
                          DeletionAuthority}
            && Texts(p[MemberIds], ids) && p[DuplicateType] == Str("STRUCTURED_SEMANTIC")
            && ListsSubjects(p[SubjectIds], o) && p[Predicate] == o.payload.value[Predicate]
            && p[ObjectValue] == o.payload.value[ObjectValue]
            && p[ResolutionStatus] == Str("UNRESOLVED") && p[DeletionAuthority] == Bool(false)
  {
    ClaimRead(o);
    SubjectsListed(o);
    StrListTexts(ids);
  }

  lemma KeyMembers(c: Codec, objs: seq<Obj>, o: Obj, t: string)
    requires InjectiveText(c) && DuplicateKey(c)(o) == Some(t)
    ensures forall m :: m in Members(objs, DuplicateKey(c), t) <==> m in objs && Agree(o, m)
  {
    MembersAre(objs, DuplicateKey(c), t);
    forall m ensures DuplicateKey(c)(m) == Some(t) <==> Agree(o, m) {
      AgreeRead(o, m);
      if ClaimFields(m).Some? { SameDuplicateKey(c, o, m); }
    }
  }

  /** Every derived duplicate group says, field by field, what the claim is and who makes it. */
  lemma DuplicateContent(c: Codec, objs: seq<Obj>, x: Candidate) returns (o: Obj, members: seq<Obj>)
    requires InjectiveText(c) && x in Duplicates(c, objs)
    ensures o in objs && GroupsClaim(objs, x, o, members)
  {
    var key := DuplicateKey(c);
    DerivedAre(DuplicateMaker(c), objs, key, Sorted(Keys(objs, key)));
    var t :| DuplicateMaker(c)(t, Members(objs, key, t)) == Some(x);
    members := Members(objs, key, t);
    SortByIdSorts(members);
    var sorted := SortById(members);
    o := sorted[0];
    assert o in members;
    MembersAre(objs, key, t);
    var claim := ClaimFields(o).value;
    ClaimRead(o);
    KeyMembers(c, objs, o, t);
    DuplicateStamped(c, t, sorted, claim);
    DuplicatePayloadIs(c, t, sorted, claim);
    StampedDerived(x, members);
    GroupFields(IdsOf(sorted), o);
  }

  // ---- Contradictions ----

  lemma ContradictionStamped(c: Codec, key: string, members: seq<Obj>, x: Claim, values: seq<Json>)
    requires members != []
    ensures Stamped(MakeContradiction(c, key, members, x, values), members)
  {
  }

  lemma ContradictionPayloadIs(c: Codec, key: string, members: seq<Obj>, x: Claim, values: seq<Json>)
    requires members != []
    ensures var d := MakeContradiction(c, key, members, x, values);
            && d.obj.payload == Some(ContradictionPayload(IdsOf(members), x, values)) && d.obj.typ == "CONTRADICTION"
            && d.event.operation == "DETECT_EXCLUSIVE_STRUCTURED_CLAIM_CONTRADICTION"
  {
  }

  lemma ConflictFields(ids: seq<string>, x: Claim, values: seq<Json>)
    ensures var p := ContradictionPayload(ids, x, values);
            && p.Keys == {MemberIds, SubjectIds, Predicate, ObjectValues, ComparisonMode, ResolutionStatus, WinnerId}
            && Texts(p[MemberIds], ids) && Texts(p[SubjectIds], x.subjects) && p[Predicate] == Str(x.predicate_)
            && p[ComparisonMode] == Str("EXCLUSIVE_VALUE") && p[ResolutionStatus] == Str("UNRESOLVED")
            && p[WinnerId] == Null && p[ObjectValues] == List(values)
  {
    StrListTexts(ids);
    StrListTexts(x.subjects);
  }

  lemma {:induction false} ValuesHold(c: Codec, group: seq<Obj>, v: string)
    requires v in ValuesOf(c, group)
    ensures c.text(ValuesOf(c, group)[v]) == v && exists m :: m in group && ClaimedBy(m, ValuesOf(c, group)[v])
  {
    var n := |group| - 1;
    ClaimRead(group[n]);
    if ClaimFields(group[n]).Some? && c.text(ClaimFields(group[n]).value.value) == v {
      assert group[n] in group && ClaimedBy(group[n], ValuesOf(c, group)[v]);
    } else {
      ValuesHold(c, group[..n], v);
      var m :| m in group[..n] && ClaimedBy(m, ValuesOf(c, group[..n])[v]);
      assert m in group;
    }
  }

  lemma LookupMember(values: map<string, Json>, keys: seq<string>, j: Json)
    requires forall k :: k in keys <==> k in values
    ensures j in Lookup(values, keys) <==> exists k :: k in values && values[k] == j
  {
    var found := Lookup(values, keys);
    if j in found {
      var i :| 0 <= i < |found| && found[i] == j;
      assert keys[i] in values && values[keys[i]] == j;
    }
    if k :| k in values && values[k] == j {
      var i :| 0 <= i < |keys| && keys[i] == k;
      assert found[i] == j;
    }
  }

  /** The recorded values are exactly those that the group claims. */
  lemma ValuesListed(c: Codec, group: seq<Obj>, j: Json)
    requires InjectiveText(c)
    ensures var values := ValuesOf(c, group);
            j in Lookup(values, Sorted(values.Keys)) <==> exists m :: m in group && ClaimedBy(m, j)
  {
    var values := ValuesOf(c, group);
    forall k ensures k in Sorted(values.Keys) <==> k in values {
      assert k in Sorted(values.Keys) <==> k in Elements(Sorted(values.Keys));
    }
    LookupMember(values, Sorted(values.Keys), j);
    if k :| k in values && values[k] == j { ValuesHold(c, group, k); }
    if m :| m in group && ClaimedBy(m, j) {
      ClaimRead(m);
      ClaimedValue(c, group, m);
      ValuesHold(c, group, c.text(j));
    }
  }

  /** Every derived contradiction says, field by field, which context it is about, who speaks in it and what all the
      claimed values are, without choosing a winner. */
  lemma ContradictionContent(c: Codec, objs: seq<Obj>, x: Candidate)
    returns (o: Obj, members: seq<Obj>, subjects: seq<string>, predicate_: string)
    requires InjectiveText(c) && x in Contradictions(c, objs)
    ensures o in objs && RecordsConflict(objs, x, o, members, subjects, predicate_)
  {
    subjects, predicate_ := ContextBehind(c, objs, x);
    members := GroupOf(c, objs, subjects, predicate_);
    ContextGroup(c, objs, subjects, predicate_);
    SortByIdSorts(members);
    var sorted, values := SortById(members), ValuesOf(c, members);
    o := sorted[0];
    assert o in members;
    ContextRead(o, subjects, predicate_);
    var claim, listed := ClaimFields(o).value, Lookup(values, Sorted(values.Keys));
    var t := c.text(ContextJson(subjects, predicate_));
    ContradictionStamped(c, t, sorted, claim, listed);
    ContradictionPayloadIs(c, t, sorted, claim, listed);
    StampedDerived(x, members);
    ConflictFields(IdsOf(sorted), claim, listed);
    forall j ensures j in listed <==> exists m :: m in members && ClaimedBy(m, j) { ValuesListed(c, members, j); }
  }

  // ---- Stable ids ----

  /** The ids of x carry the first 24 digits of the digest of what it is about and who its members are. */
  predicate Identified(c: Codec, x: Candidate, kind: string, about: Json, memberIds: Json) {
    var d := c.digest(Dict(map[Kind := Str(kind), KeyText := Str(c.text(about)), MemberIds := memberIds]));
    && |d| >= 24
    && x.obj.objectId == "obj_" + kind + "_" + d[..24] && x.event.eventId == "prov_" + kind + "_" + d[..24]
  }

  lemma DuplicateIdentified(c: Codec, members: seq<Obj>, x: Claim)
    requires members != [] && HexDigests(c)
    ensures Identified(c, MakeDuplicate(c, c.text(DuplicateJson(x)), members, x), "duplicate", DuplicateJson(x),
                       StrList(IdsOf(members)))
  {
    assert "obj_" + "duplicate" + "_" == "obj_duplicate_" && "prov_" + "duplicate" + "_" == "prov_duplicate_";
    DigestLong(c, "duplicate", c.text(DuplicateJson(x)), IdsOf(members));
  }

  lemma DigestLong(c: Codec, kind: string, key: string, ids: seq<string>)
    requires HexDigests(c)
    ensures var d := c.digest(Dict(map[Kind := Str(kind), KeyText := Str(key), MemberIds := StrList(ids)]));
            |d| == 64 && ShortDigest(c, kind, key, ids) == d[..24]
  {
  }

  lemma ContradictionIdentified(c: Codec, members: seq<Obj>, x: Claim, values: seq<Json>)
    requires members != [] && HexDigests(c)
    ensures var about := ContextJson(x.subjects, x.predicate_);
            Identified(c, MakeContradiction(c, c.text(about), members, x, values), "contradiction", about,
                       StrList(IdsOf(members)))
  {
    assert "obj_" + "contradiction" + "_" == "obj_contradiction_";
    assert "prov_" + "contradiction" + "_" == "prov_contradiction_";
    DigestLong(c, "contradiction", c.text(ContextJson(x.subjects, x.predicate_)), IdsOf(members));
  }

  lemma GroupAbout(ids: seq<string>, x: Claim)
    ensures var p := DuplicatePayload(ids, x);
            && Dict(map[SubjectIds := p[SubjectIds], Predicate := p[Predicate], ObjectValue := p[ObjectValue]])
               == DuplicateJson(x)
            && p[MemberIds] == StrList(ids)
  {
  }

  lemma ConflictAbout(ids: seq<string>, x: Claim, values: seq<Json>)
    ensures var p := ContradictionPayload(ids, x, values);
            && Dict(map[SubjectIds := p[SubjectIds], Predicate := p[Predicate]])
               == ContextJson(x.subjects, x.predicate_)
            && p[MemberIds] == StrList(ids)
  {
  }

  /** The id of a duplicate group is a function of its claim and its members. */
  lemma DuplicateNamed(c: Codec, objs: seq<Obj>, x: Candidate)
    requires HexDigests(c) && x in Duplicates(c, objs)
    ensures x.obj.payload.Some?
    ensures var p := x.obj.payload.value;
            && MemberIds in p && SubjectIds in p && Predicate in p && ObjectValue in p
            && Identified(c, x, "duplicate", Dict(map[SubjectIds := p[SubjectIds], Predicate := p[Predicate],
                                                      ObjectValue := p[ObjectValue]]), p[MemberIds])
  {
    var key := DuplicateKey(c);
    DerivedAre(DuplicateMaker(c), objs, key, Sorted(Keys(objs, key)));
    var t :| DuplicateMaker(c)(t, Members(objs, key, t)) == Some(x);
    var sorted := SortById(Members(objs, key, t));
    SortByIdSorts(Members(objs, key, t));
    assert sorted[0] in Members(objs, key, t);
    MembersAre(objs, key, t);
    var claim := ClaimFields(sorted[0]).value;
    DuplicateIdentified(c, sorted, claim);
    DuplicatePayloadIs(c, t, sorted, claim);
    GroupAbout(IdsOf(sorted), claim);
  }

  /** The id of a contradiction is a function of its context and its members. */
  lemma ContradictionNamed(c: Codec, objs: seq<Obj>, x: Candidate)
    requires InjectiveText(c) && HexDigests(c) && x in Contradictions(c, objs)
    ensures x.obj.payload.Some?
    ensures var p := x.obj.payload.value;
            && MemberIds in p && SubjectIds in p && Predicate in p
            && Identified(c, x, "contradiction", Dict(map[SubjectIds := p[SubjectIds], Predicate := p[Predicate]]),
                          p[MemberIds])
  {
    var subjects, predicate_ := ContextBehind(c, objs, x);
    var group := GroupOf(c, objs, subjects, predicate_);
    ContextGroup(c, objs, subjects, predicate_);
    SortByIdSorts(group);
    var sorted, values := SortById(group), ValuesOf(c, group);
    assert sorted[0] in group;
    ContextRead(sorted[0], subjects, predicate_);
    var claim, listed := ClaimFields(sorted[0]).value, Lookup(values, Sorted(values.Keys));
    ContradictionIdentified(c, sorted, claim, listed);
    ContradictionPayloadIs(c, c.text(ContextJson(subjects, predicate_)), sorted, claim, listed);
    ConflictAbout(IdsOf(sorted), claim, listed);
  }

  // ---- The remaining fields ----

  /** The envelope around a payload: hashes of content and identity, the members as parents and relatives, the scope of
      what the tool claims, and how the event came about. */
  predicate Enveloped(c: Codec, x: Candidate, subtype: string, identity: Json) {
    && x.obj.payload.Some? && MemberIds in x.obj.payload.value
    && x.obj.contentHash == "sha256:" + c.digest(Dict(map[Other("type") := Str(x.obj.typ),
                                                          Other("subtype") := Str(subtype),
                                                          Other("payload") := Dict(x.obj.payload.value)]))
    && x.obj.rest == Dict(map[Other("schema_version") := Str("1.0.0"), Other("subtype") := Str(subtype),
                              Other("identity_hash") := Str("sha256:" + c.digest(identity)),
                              Other("parent_ids") := x.obj.payload.value[MemberIds],
                              Other("related_ids") := x.obj.payload.value[MemberIds],
                              Other("confidence") := Num(1), Other("semantic_scope") := Str("STRUCTURED_FIELDS_ONLY"),
                              Other("free_text_inference") := Bool(false), Other("mutation_authority") := Str("NONE")])
    && x.event.rest == Dict(map[Other("tool_id") := Str("structured_semantic_dedupe"),
                                Other("tool_version") := Str("1"), Other("rule_id") := Str("structured-claim-v1"),
                                Other("deterministic") := Bool(true)])
  }

  lemma MakeDuplicateEnveloped(c: Codec, key: string, members: seq<Obj>, x: Claim)
    requires members != []
    ensures Enveloped(c, MakeDuplicate(c, key, members, x), "STRUCTURED_CLAIM_DUPLICATE",
                      Dict(map[Kind := Str("duplicate"), KeyText := Str(key)]))
  {
    DuplicateFields(IdsOf(members), x);
  }

  lemma MakeContradictionEnveloped(c: Codec, key: string, members: seq<Obj>, x: Claim, values: seq<Json>)
    requires members != []
    ensures Enveloped(c, MakeContradiction(c, key, members, x, values), "EXCLUSIVE_STRUCTURED_CLAIM_CONFLICT",
                      Dict(map[Kind := Str("contradiction"), KeyText := Str(key)]))
  {
    ContradictionFields(IdsOf(members), x, values);
  }

  /** Every derived object carries that envelope. */
  lemma CandidatesEnveloped(c: Codec, objs: seq<Obj>, x: Candidate) returns (key: string)
    requires x in Candidates(c, objs)
    ensures x in Duplicates(c, objs) ==>
              Enveloped(c, x, "STRUCTURED_CLAIM_DUPLICATE", Dict(map[Kind := Str("duplicate"), KeyText := Str(key)]))
    ensures x !in Duplicates(c, objs) ==>
              Enveloped(c, x, "EXCLUSIVE_STRUCTURED_CLAIM_CONFLICT",
                        Dict(map[Kind := Str("contradiction"), KeyText := Str(key)]))
  {
    if x in Duplicates(c, objs) {
      DerivedAre(DuplicateMaker(c), objs, DuplicateKey(c), Sorted(Keys(objs, DuplicateKey(c))));
      key :| DuplicateMaker(c)(key, Members(objs, DuplicateKey(c), key)) == Some(x);
      var members := SortById(Members(objs, DuplicateKey(c), key));
      MakeDuplicateEnveloped(c, key, members, ClaimFields(members[0]).value);
    } else {
      key := KeyBehind(c, objs, x);
      var group := Members(objs, ContextKey(c), key);
      var members, values := SortById(group), ValuesOf(c, group);
      MakeContradictionEnveloped(c, key, members, ClaimFields(members[0]).value, Lookup(values, Sorted(values.Keys)));
    }
  }
}
