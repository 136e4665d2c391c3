/** Exactly which duplicate groups and contradictions are derived, and that bundle order does not matter. */
module DedupeDerivation {
  import opened Common
  import opened TextOrder
  import opened CanonicalBundle
  import opened StructuredDedupe

  // ---- Claims, read off the payload ----

  /** o is a claim: a non-empty list of non-empty subject strings, a non-empty predicate and a value, of any kind. */
  predicate MakesClaim(o: Obj) {
    && o.typ == "CLAIM" && o.payload.Some?
    && var p := o.payload.value;
    && SubjectIds in p && p[SubjectIds].List? && p[SubjectIds].items != []
    && (forall j :: j in p[SubjectIds].items ==> j.Str? && j.s != "")
    && Predicate in p && p[Predicate].Str? && p[Predicate].s != ""
    && ObjectValue in p
  }

  /** o's list of subjects contains s. */
  predicate About(o: Obj, s: string)
    requires MakesClaim(o)
  {
    Str(s) in o.payload.value[SubjectIds].items
  }

  /** Two claims with the same set of subjects, the same predicate and the same value. */
  ghost predicate Agree(o: Obj, p: Obj) {
    && MakesClaim(o) && MakesClaim(p)
    && (forall s :: About(o, s) <==> About(p, s))
    && o.payload.value[Predicate] == p.payload.value[Predicate]
    && o.payload.value[ObjectValue] == p.payload.value[ObjectValue]
  }

  lemma ClaimRead(o: Obj)
    ensures ClaimFields(o).Some? <==> MakesClaim(o)
    ensures MakesClaim(o) ==>
              var x := ClaimFields(o).value;
              && Increasing(x.subjects) && (forall s :: s in x.subjects <==> About(o, s))
              && Str(x.predicate_) == o.payload.value[Predicate] && x.value == o.payload.value[ObjectValue]
  {
    if MakesClaim(o) {
      var items := o.payload.value[SubjectIds].items;
      forall s ensures s in Sorted(Strings(items)) <==> About(o, s) { StringListed(items, s); }
    }
  }

  lemma StringListed(items: seq<Json>, s: string)
    ensures s in Sorted(Strings(items)) <==> Str(s) in items
  {
    assert s in Sorted(Strings(items)) <==> s in Elements(Sorted(Strings(items)));
    if Str(s) in items {
      var i :| 0 <= i < |items| && items[i] == Str(s);
      assert items[i].s in Strings(items);
    }
  }

  lemma SubjectsDetermined(s: seq<string>, t: seq<string>)
    requires Increasing(s) && Increasing(t) && forall x :: x in s <==> x in t
    ensures s == t
  {
    IncreasingUnique(s, t);
  }

  lemma AgreeRead(o: Obj, p: Obj)
    ensures ClaimFields(o).Some? && ClaimFields(o) == ClaimFields(p) <==> Agree(o, p)
  {
    ClaimRead(o);
    ClaimRead(p);
    if MakesClaim(o) && MakesClaim(p) {
      var x, y := ClaimFields(o).value, ClaimFields(p).value;
      if Agree(o, p) { SubjectsDetermined(x.subjects, y.subjects); }
      if x == y {
        forall s ensures About(o, s) <==> About(p, s) { assert s in x.subjects <==> s in y.subjects; }
      }
    }
  }

  lemma KeysAre(objs: seq<Obj>, key: Keying, o: Obj)
    requires o in objs && key(o).Some?
    ensures key(o).value in Sorted(Keys(objs, key))
  {
    assert key(o).value in Keys(objs, key);
    assert key(o).value in Elements(Sorted(Keys(objs, key)));
  }

  /** Equal duplicate keys mean equal subject sets, predicates and values. */
  lemma SameDuplicateKey(c: Codec, a: Obj, b: Obj)
    requires InjectiveText(c) && ClaimFields(a).Some? && ClaimFields(b).Some?
    ensures DuplicateKey(c)(a) == DuplicateKey(c)(b) <==> ClaimFields(a) == ClaimFields(b)
  {
    var x, y := ClaimFields(a).value, ClaimFields(b).value;
    if c.text(DuplicateJson(x)) == c.text(DuplicateJson(y)) { DuplicateJsonInjective(x, y); }
  }

  /** The group behind a key with at least two members yields a candidate naming exactly those members. */
  lemma DuplicateCandidateMembers(c: Codec, objs: seq<Obj>, t: string)
    ensures var group := Members(objs, DuplicateKey(c), t);
            var cand := DuplicateCandidate(c, t, group);
            && (cand.Some? <==> |group| >= 2)
            && (cand.Some? ==> cand.value.event.inputIds == IdsOf(SortById(group))
                               && cand.value.obj.payload.Some?
                               && Field(cand.value.obj.payload.value, MemberIds) == StrList(cand.value.event.inputIds))
  {
    var group := Members(objs, DuplicateKey(c), t);
    SortByIdSorts(group);
    if |group| >= 2 {
      var members := SortById(group);
      assert members[0] in group;
      MembersAre(objs, DuplicateKey(c), t);
      assert DuplicateKey(c)(members[0]) == Some(t);
      DuplicateShape(c, t, members, ClaimFields(members[0]).value);
    }
  }

  lemma SortedIds(group: seq<Obj>, id: string)
    ensures id in IdsOf(SortById(group)) <==> exists o :: o in group && o.objectId == id
  {
    SortByIdSorts(group);
    IdsOfMember(SortById(group), id);
  }

  ghost predicate Grouped(c: Codec, objs: seq<Obj>, a: string, b: string) {
    exists x :: x in Duplicates(c, objs) && a in x.event.inputIds && b in x.event.inputIds
  }

  /** Two different places of the bundle make the same claim. */
  ghost predicate SameClaim(objs: seq<Obj>, i: int, k: int) {
    0 <= i < |objs| && 0 <= k < |objs| && i != k && Agree(objs[i], objs[k])
  }

  /** The places of the objects with key t. */
  function Places(objs: seq<Obj>, key: Keying, t: string): set<nat> {
    set i: nat | i < |objs| && key(objs[i]) == Some(t)
  }

  lemma {:induction false} MembersCount(objs: seq<Obj>, key: Keying, t: string)
    ensures |Members(objs, key, t)| == |Places(objs, key, t)|
  {
    if objs == [] {
      assert Places(objs, key, t) == {};
    } else {
      var n := |objs| - 1;
      MembersCount(objs[..n], key, t);
      var before := Places(objs[..n], key, t);
      assert n !in before;
      assert Places(objs, key, t) == before + if key(objs[n]) == Some(t) then {n} else {};
    }
  }

  lemma AnotherPlace(s: set<nat>, i: nat) returns (k: nat)
    requires i in s && |s| >= 2
    ensures k in s && k != i
  {
    assert |s - {i}| >= 1;
    k :| k in s - {i};
  }

  lemma TwoPlaces(s: set<nat>, i: nat, k: nat)
    requires i in s && k in s && i != k
    ensures |s| >= 2
  {
    assert |s - {i}| >= 1 by { assert k in s - {i}; }
  }

  /** Behind every duplicate group is a key with at least two objects, and the group lists their ids. */
  lemma GroupBehind(c: Codec, objs: seq<Obj>, x: Candidate) returns (t: string)
    requires x in Duplicates(c, objs)
    ensures |Members(objs, DuplicateKey(c), t)| >= 2
    ensures forall id :: id in x.event.inputIds
                         <==> exists i: nat :: i < |objs| && DuplicateKey(c)(objs[i]) == Some(t)
                               && objs[i].objectId == id
  {
    var key := DuplicateKey(c);
    DerivedAre(DuplicateMaker(c), objs, key, Sorted(Keys(objs, key)));
    t :| DuplicateMaker(c)(t, Members(objs, key, t)) == Some(x);
    DuplicateCandidateMembers(c, objs, t);
    forall id ensures id in x.event.inputIds
                      <==> exists i: nat :: i < |objs| && key(objs[i]) == Some(t) && objs[i].objectId == id {
      GroupLists(objs, key, t, id);
    }
  }

  lemma GroupLists(objs: seq<Obj>, key: Keying, t: string, id: string)
    ensures id in IdsOf(SortById(Members(objs, key, t)))
            <==> exists i: nat :: i < |objs| && key(objs[i]) == Some(t) && objs[i].objectId == id
  {
    SortedIds(Members(objs, key, t), id);
    MembersAre(objs, key, t);
    if o :| o in Members(objs, key, t) && o.objectId == id {
      var i: nat :| i < |objs| && objs[i] == o;
    }
    if i: nat :| i < |objs| && key(objs[i]) == Some(t) && objs[i].objectId == id {
      assert objs[i] in Members(objs, key, t);
    }
  }

  /** Every key with at least two objects has its duplicate group. */
  lemma GroupDerived(c: Codec, objs: seq<Obj>, i: nat, k: nat) returns (x: Candidate)
    requires SameClaim(objs, i, k)
    ensures x in Duplicates(c, objs) && objs[i].objectId in x.event.inputIds && objs[k].objectId in x.event.inputIds
  {
    var key := DuplicateKey(c);
    AgreeRead(objs[i], objs[k]);
    var t := key(objs[i]).value;
    MembersCount(objs, key, t);
    TwoPlaces(Places(objs, key, t), i, k);
    DuplicateCandidateMembers(c, objs, t);
    x := DuplicateCandidate(c, t, Members(objs, key, t)).value;
    GroupLists(objs, key, t, objs[i].objectId);
    GroupLists(objs, key, t, objs[k].objectId);
    KeysAre(objs, key, objs[i]);
    DerivedAre(DuplicateMaker(c), objs, key, Sorted(Keys(objs, key)));
    assert DuplicateMaker(c)(t, Members(objs, key, t)) == Some(x);
  }

  /** Two ids share a duplicate group exactly when an object of the one and an object of the other make the same
      claim: the sets of strings in their subject lists, their predicates and their values are equal. An id is in a
      group at all exactly when an object of that id makes a claim that is made again elsewhere, possibly under the
      same id. Ids may repeat. */
  lemma DuplicateIff(c: Codec, objs: seq<Obj>, a: string, b: string)
    requires InjectiveText(c)
    ensures a != b ==>
              (Grouped(c, objs, a, b)
               <==> exists i, k :: SameClaim(objs, i, k) && objs[i].objectId == a && objs[k].objectId == b)
    ensures Grouped(c, objs, a, a) <==> exists i, k :: SameClaim(objs, i, k) && objs[i].objectId == a
  {
    if Grouped(c, objs, a, a) { var i, k := RepeatedClaim(c, objs, a); }
    if i, k :| SameClaim(objs, i, k) && objs[i].objectId == a { var x := GroupDerived(c, objs, i, k); }
    if a != b {
      if Grouped(c, objs, a, b) { var i, k := SharedClaim(c, objs, a, b); }
      if i, k :| SameClaim(objs, i, k) && objs[i].objectId == a && objs[k].objectId == b {
        var x := GroupDerived(c, objs, i, k);
      }
    }
  }

  lemma RepeatedClaim(c: Codec, objs: seq<Obj>, a: string) returns (i: nat, k: nat)
    requires InjectiveText(c) && Grouped(c, objs, a, a)
    ensures SameClaim(objs, i, k) && objs[i].objectId == a
  {
    var key := DuplicateKey(c);
    var x :| x in Duplicates(c, objs) && a in x.event.inputIds;
    var t := GroupBehind(c, objs, x);
    i :| i < |objs| && key(objs[i]) == Some(t) && objs[i].objectId == a;
    k := AnotherWithKey(objs, key, t, i);
    SameKeySameClaim(c, objs, i, k, t);
  }

  lemma AnotherWithKey(objs: seq<Obj>, key: Keying, t: string, i: nat) returns (k: nat)
    requires i < |objs| && key(objs[i]) == Some(t) && |Members(objs, key, t)| >= 2
    ensures k < |objs| && k != i && key(objs[k]) == Some(t)
  {
    MembersCount(objs, key, t);
    k := AnotherPlace(Places(objs, key, t), i);
  }

  lemma SameKeySameClaim(c: Codec, objs: seq<Obj>, i: nat, k: nat, t: string)
    requires InjectiveText(c) && i < |objs| && k < |objs| && i != k
    requires DuplicateKey(c)(objs[i]) == Some(t) && DuplicateKey(c)(objs[k]) == Some(t)
    ensures SameClaim(objs, i, k)
  {
    SameDuplicateKey(c, objs[i], objs[k]);
    AgreeRead(objs[i], objs[k]);
  }

  lemma SharedClaim(c: Codec, objs: seq<Obj>, a: string, b: string) returns (i: nat, k: nat)
    requires InjectiveText(c) && a != b && Grouped(c, objs, a, b)
    ensures SameClaim(objs, i, k) && objs[i].objectId == a && objs[k].objectId == b
  {
    var key := DuplicateKey(c);
    var x :| x in Duplicates(c, objs) && a in x.event.inputIds && b in x.event.inputIds;
    var t := GroupBehind(c, objs, x);
    i :| i < |objs| && key(objs[i]) == Some(t) && objs[i].objectId == a;
    k :| k < |objs| && key(objs[k]) == Some(t) && objs[k].objectId == b;
    SameKeySameClaim(c, objs, i, k, t);
  }

  // ---- Contradictions ----

  /** o is an exclusive claim about exactly these subjects, listed in increasing order, with this predicate. */
  ghost predicate InContext(o: Obj, subjects: seq<string>, predicate_: string) {
    && MakesClaim(o)
    && ComparisonMode in o.payload.value && o.payload.value[ComparisonMode] == Str("EXCLUSIVE_VALUE")
    && Increasing(subjects) && (forall s :: s in subjects <==> About(o, s))
    && o.payload.value[Predicate] == Str(predicate_)
  }

  lemma ContextRead(o: Obj, subjects: seq<string>, predicate_: string)
    ensures InContext(o, subjects, predicate_) <==>
              && Exclusive(o) && ClaimFields(o).Some?
              && ClaimFields(o).value.subjects == subjects && ClaimFields(o).value.predicate_ == predicate_
  {
    ClaimRead(o);
    if InContext(o, subjects, predicate_) { SubjectsDetermined(ClaimFields(o).value.subjects, subjects); }
  }

  /** Two exclusive claims of this context have different values. */
  ghost predicate Conflict(objs: seq<Obj>, subjects: seq<string>, predicate_: string) {
    exists o, p :: o in objs && p in objs && InContext(o, subjects, predicate_) && InContext(p, subjects, predicate_)
                   && o.payload.value[ObjectValue] != p.payload.value[ObjectValue]
  }

  /** x records a contradiction of this context, with exactly its exclusive claims as members. */
  ghost predicate ContradictionOf(objs: seq<Obj>, x: Candidate, subjects: seq<string>, predicate_: string) {
    && x.obj.typ == "CONTRADICTION" && x.obj.payload.Some?
    && Field(x.obj.payload.value, SubjectIds) == StrList(subjects)
    && Field(x.obj.payload.value, Predicate) == Str(predicate_)
    && forall id :: id in x.event.inputIds
         <==> exists o :: o in objs && o.objectId == id && InContext(o, subjects, predicate_)
  }

  lemma ContextKeyIs(c: Codec, o: Obj, subjects: seq<string>, predicate_: string)
    requires InjectiveText(c)
    ensures ContextKey(c)(o) == Some(c.text(ContextJson(subjects, predicate_))) <==> InContext(o, subjects, predicate_)
  {
    ContextRead(o, subjects, predicate_);
    if ContextKey(c)(o) == Some(c.text(ContextJson(subjects, predicate_))) {
      var x := ClaimFields(o).value;
      ContextJsonInjective(x.subjects, x.predicate_, subjects, predicate_);
    }
  }

  lemma ContextGroup(c: Codec, objs: seq<Obj>, subjects: seq<string>, predicate_: string)
    requires InjectiveText(c)
    ensures forall o :: o in Members(objs, ContextKey(c), c.text(ContextJson(subjects, predicate_)))
                        <==> o in objs && InContext(o, subjects, predicate_)
  {
    var t := c.text(ContextJson(subjects, predicate_));
    MembersAre(objs, ContextKey(c), t);
    forall o ensures ContextKey(c)(o) == Some(t) <==> InContext(o, subjects, predicate_) {
      ContextKeyIs(c, o, subjects, predicate_);
    }
  }

  function GroupOf(c: Codec, objs: seq<Obj>, subjects: seq<string>, predicate_: string): seq<Obj> {
    Members(objs, ContextKey(c), c.text(ContextJson(subjects, predicate_)))
  }

  ghost predicate Differ(group: seq<Obj>) {
    exists o, p :: o in group && p in group && ClaimFields(o).Some? && ClaimFields(p).Some?
                   && ClaimFields(o).value.value != ClaimFields(p).value.value
  }

  lemma TwoValuesDiffer(c: Codec, group: seq<Obj>)
    requires |ValuesOf(c, group).Keys| >= 2
    ensures Differ(group)
  {
    var u, v := TwoOf(ValuesOf(c, group).Keys);
    ValuesAre(c, group, u);
    ValuesAre(c, group, v);
    var o :| o in group && Claims(c, o, u);
    var p :| p in group && Claims(c, p, v);
    assert ClaimFields(o).value.value != ClaimFields(p).value.value;
  }

  lemma ClaimedValue(c: Codec, group: seq<Obj>, o: Obj)
    requires o in group && ClaimFields(o).Some?
    ensures c.text(ClaimFields(o).value.value) in ValuesOf(c, group)
  {
    var v := c.text(ClaimFields(o).value.value);
    assert Claims(c, o, v);
    ValuesAre(c, group, v);
  }

  lemma TextsDiffer(c: Codec, j: Json, k: Json)
    requires InjectiveText(c) && j != k
    ensures c.text(j) != c.text(k)
  {
  }

  lemma TwoMembersSize(s: set<string>, u: string, v: string)
    requires u in s && v in s && u != v
    ensures |s| >= 2
  {
    assert |s - {u}| >= 1 by { assert v in s - {u}; }
  }

  lemma DifferTwoValues(c: Codec, group: seq<Obj>)
    requires InjectiveText(c) && Differ(group)
    ensures |ValuesOf(c, group).Keys| >= 2
  {
    var o, p :| o in group && p in group && ClaimFields(o).Some? && ClaimFields(p).Some?
                && ClaimFields(o).value.value != ClaimFields(p).value.value;
    ClaimedValue(c, group, o);
    ClaimedValue(c, group, p);
    TextsDiffer(c, ClaimFields(o).value.value, ClaimFields(p).value.value);
    TwoMembersSize(ValuesOf(c, group).Keys, c.text(ClaimFields(o).value.value), c.text(ClaimFields(p).value.value));
  }

  lemma DifferMeansConflict(group: seq<Obj>, objs: seq<Obj>, subjects: seq<string>, predicate_: string)
    requires forall o :: o in group <==> o in objs && InContext(o, subjects, predicate_)
    ensures Differ(group) <==> Conflict(objs, subjects, predicate_)
  {
    forall o | o in group ensures ClaimFields(o).Some? && ClaimFields(o).value.value == o.payload.value[ObjectValue] {
      ClaimRead(o);
    }
  }

  lemma ManyValuesIff(c: Codec, objs: seq<Obj>, subjects: seq<string>, predicate_: string)
    requires InjectiveText(c)
    ensures |ValuesOf(c, GroupOf(c, objs, subjects, predicate_)).Keys| >= 2 <==> Conflict(objs, subjects, predicate_)
  {
    var group := GroupOf(c, objs, subjects, predicate_);
    ContextGroup(c, objs, subjects, predicate_);
    DifferMeansConflict(group, objs, subjects, predicate_);
    if Differ(group) { DifferTwoValues(c, group); }
    if |ValuesOf(c, group).Keys| >= 2 { TwoValuesDiffer(c, group); }
  }

  lemma ContextMembers(c: Codec, objs: seq<Obj>, subjects: seq<string>, predicate_: string)
    requires InjectiveText(c)
    ensures forall id :: id in IdsOf(SortById(GroupOf(c, objs, subjects, predicate_)))
                         <==> exists m :: m in objs && m.objectId == id && InContext(m, subjects, predicate_)
  {
    var group := GroupOf(c, objs, subjects, predicate_);
    ContextGroup(c, objs, subjects, predicate_);
    forall id
      ensures id in IdsOf(SortById(group))
              <==> exists m :: m in objs && m.objectId == id && InContext(m, subjects, predicate_)
    {
      SortedIds(group, id);
    }
  }

  lemma ContextCandidate(c: Codec, t: string, objs: seq<Obj>, members: seq<Obj>, subjects: seq<string>,
                         predicate_: string,
                         values: seq<Json>)
    requires members != [] && InContext(members[0], subjects, predicate_)
    requires forall id :: id in IdsOf(members)
               <==> exists m :: m in objs && m.objectId == id && InContext(m, subjects, predicate_)
    ensures ClaimFields(members[0]).Some?
    ensures var made := MakeContradiction(c, t, members, ClaimFields(members[0]).value, values);
            ContradictionOf(objs, made, subjects, predicate_)
  {
    ContextRead(members[0], subjects, predicate_);
    ContradictionShape(c, t, members, ClaimFields(members[0]).value, values);
  }

  /** The group of one context yields a candidate exactly when two of its values differ. */
  lemma ContradictionCandidateIff(c: Codec, objs: seq<Obj>, subjects: seq<string>, predicate_: string)
    requires InjectiveText(c)
    ensures var cand := ContradictionCandidate(c, c.text(ContextJson(subjects, predicate_)),
                                               GroupOf(c, objs, subjects, predicate_));
            && (cand.Some? <==> Conflict(objs, subjects, predicate_))
            && (cand.Some? ==> ContradictionOf(objs, cand.value, subjects, predicate_))
  {
    ManyValuesIff(c, objs, subjects, predicate_);
    if Conflict(objs, subjects, predicate_) {
      var t, group := c.text(ContextJson(subjects, predicate_)), GroupOf(c, objs, subjects, predicate_);
      var members, values := SortById(group), ValuesOf(c, group);
      FirstInContext(c, objs, subjects, predicate_);
      ContextMembers(c, objs, subjects, predicate_);
      ContextRead(members[0], subjects, predicate_);
      ContextCandidate(c, t, objs, members, subjects, predicate_, Lookup(values, Sorted(values.Keys)));
    }
  }

  lemma FirstInContext(c: Codec, objs: seq<Obj>, subjects: seq<string>, predicate_: string)
    requires InjectiveText(c) && Conflict(objs, subjects, predicate_)
    ensures var members := SortById(GroupOf(c, objs, subjects, predicate_));
            members != [] && InContext(members[0], subjects, predicate_)
  {
    var group := GroupOf(c, objs, subjects, predicate_);
    ContextGroup(c, objs, subjects, predicate_);
    SortByIdSorts(group);
    var o :| o in objs && InContext(o, subjects, predicate_);
    assert o in group;
    assert SortById(group)[0] in SortById(group);
  }

  lemma TwoOf(s: set<string>) returns (u: string, v: string)
    requires |s| >= 2
    ensures u in s && v in s && u != v
  {
    u :| u in s;
    assert |s - {u}| >= 1;
    v :| v in s - {u};
  }

  lemma RecordedConflict(c: Codec, objs: seq<Obj>, x: Candidate)
    returns (subjects: seq<string>, predicate_: string)
    requires InjectiveText(c) && x in Contradictions(c, objs)
    ensures ContradictionOf(objs, x, subjects, predicate_) && Conflict(objs, subjects, predicate_)
  {
    subjects, predicate_ := ContextBehind(c, objs, x);
    ContradictionCandidateIff(c, objs, subjects, predicate_);
  }

  /** Every derived contradiction comes from the group of some context. */
  lemma ContextBehind(c: Codec, objs: seq<Obj>, x: Candidate) returns (subjects: seq<string>, predicate_: string)
    requires x in Contradictions(c, objs)
    ensures ContradictionCandidate(c, c.text(ContextJson(subjects, predicate_)),
                                   GroupOf(c, objs, subjects, predicate_)) == Some(x)
  {
    var t := KeyBehind(c, objs, x);
    var o := KeyHolder(objs, ContextKey(c), t);
    subjects, predicate_ := ClaimFields(o).value.subjects, ClaimFields(o).value.predicate_;
    assert t == c.text(ContextJson(subjects, predicate_));
  }

  lemma KeyBehind(c: Codec, objs: seq<Obj>, x: Candidate) returns (t: string)
    requires x in Contradictions(c, objs)
    ensures t in Sorted(Keys(objs, ContextKey(c)))
              && ContradictionCandidate(c, t, Members(objs, ContextKey(c), t)) == Some(x)
  {
    var key := ContextKey(c);
    var texts := Sorted(Keys(objs, key));
    DerivedAre(ContradictionMaker(c), objs, key, texts);
    t :| t in texts && ContradictionMaker(c)(t, Members(objs, key, t)) == Some(x);
  }

  lemma ConflictRecorded(c: Codec, objs: seq<Obj>, subjects: seq<string>, predicate_: string) returns (x: Candidate)
    requires InjectiveText(c) && Conflict(objs, subjects, predicate_)
    ensures x in Contradictions(c, objs) && ContradictionOf(objs, x, subjects, predicate_)
  {
    var key := ContextKey(c);
    var t := c.text(ContextJson(subjects, predicate_));
    var o :| o in objs && InContext(o, subjects, predicate_);
    ContextKeyIs(c, o, subjects, predicate_);
    KeysAre(objs, key, o);
    ContradictionCandidateIff(c, objs, subjects, predicate_);
    x := ContradictionCandidate(c, t, GroupOf(c, objs, subjects, predicate_)).value;
    assert ContradictionMaker(c)(t, Members(objs, key, t)) == Some(x);
    DerivedAre(ContradictionMaker(c), objs, key, Sorted(Keys(objs, key)));
  }

  /** A contradiction is derived for a context exactly when two exclusive claims there have different values;
      its members are then exactly the exclusive claims of that context. */
  lemma ContradictionIff(c: Codec, objs: seq<Obj>, subjects: seq<string>, predicate_: string)
    requires InjectiveText(c)
    ensures (exists x :: x in Contradictions(c, objs) && ContradictionOf(objs, x, subjects, predicate_))
            <==> Conflict(objs, subjects, predicate_)
  {
    if x :| x in Contradictions(c, objs) && ContradictionOf(objs, x, subjects, predicate_) {
      var s, p := RecordedConflict(c, objs, x);
      SamePayloadContext(x, objs, subjects, predicate_, s, p);
    }
    if Conflict(objs, subjects, predicate_) {
      var x := ConflictRecorded(c, objs, subjects, predicate_);
    }
  }

  lemma SamePayloadContext(x: Candidate, objs: seq<Obj>, s: seq<string>, p: string, t: seq<string>, q: string)
    requires ContradictionOf(objs, x, s, p) && ContradictionOf(objs, x, t, q)
    ensures s == t && p == q
  {
    StrListInjective(s, t);
  }

  lemma KeyHolder(objs: seq<Obj>, key: Keying, t: string) returns (o: Obj)
    requires t in Sorted(Keys(objs, key))
    ensures o in objs && key(o) == Some(t)
  {
    assert t in Elements(Sorted(Keys(objs, key)));
    o :| o in objs && key(o).Some? && key(o).value == t;
  }

  // ---- Bundle order does not matter ----

  lemma {:induction false} SameGroupsSameDerived(make: (string, seq<Obj>) -> Option<Candidate>,
                                                 objs: seq<Obj>, objs': seq<Obj>,
                                                 key: Keying, texts: seq<string>)
    requires forall t :: t in texts ==> make(t, Members(objs, key, t)) == make(t, Members(objs', key, t))
    ensures DeriveAll(make, objs, key, texts) == DeriveAll(make, objs', key, texts)
  {
    if texts == [] {
    } else {
      assert texts[|texts| - 1] in texts;
      SameGroupsSameDerived(make, objs, objs', key, texts[..|texts| - 1]);
    }
  }

  lemma ValuesOrderFree(c: Codec, g: seq<Obj>, h: seq<Obj>)
    requires InjectiveText(c) && forall o :: o in g <==> o in h
    ensures ValuesOf(c, g) == ValuesOf(c, h)
  {
    forall v ensures v in ValuesOf(c, g) <==> v in ValuesOf(c, h) {
      ValuesAre(c, g, v);
      ValuesAre(c, h, v);
    }
    forall v | v in ValuesOf(c, g) ensures ValuesOf(c, g)[v] == ValuesOf(c, h)[v] {
      ValueHasText(c, g, v);
      ValueHasText(c, h, v);
    }
    assert ValuesOf(c, g).Keys == ValuesOf(c, h).Keys;
  }

  lemma {:induction false} ValueHasText(c: Codec, g: seq<Obj>, v: string)
    requires v in ValuesOf(c, g)
    ensures c.text(ValuesOf(c, g)[v]) == v
  {
    var n := |g| - 1;
    if v in ValuesOf(c, g[..n]) { ValueHasText(c, g[..n], v); }
  }

  lemma PermutedMembers(objs: seq<Obj>, objs': seq<Obj>, key: Keying, t: string)
    requires IdsDistinct(objs) && IdsDistinct(objs') && forall o :: o in objs <==> o in objs'
    ensures var g, h := Members(objs, key, t), Members(objs', key, t);
            (forall o :: o in g <==> o in h) && SortById(g) == SortById(h)
  {
    MembersAre(objs, key, t);
    MembersAre(objs', key, t);
    MembersDistinct(objs, key, t);
    MembersDistinct(objs', key, t);
    SortUnique(Members(objs, key, t), Members(objs', key, t));
  }

  /** With distinct object ids, permuting the bundle's objects changes nothing that is derived. */
  lemma DerivationOrderFree(c: Codec, objs: seq<Obj>, objs': seq<Obj>)
    requires InjectiveText(c) && IdsDistinct(objs) && multiset(objs) == multiset(objs')
    ensures Candidates(c, objs) == Candidates(c, objs')
  {
    SameMultisetSameMembers(objs, objs');
    DistinctCarries(objs, objs');
    var dup, con := DuplicateKey(c), ContextKey(c);
    assert Keys(objs, dup) == Keys(objs', dup) && Keys(objs, con) == Keys(objs', con);
    forall t ensures DuplicateMaker(c)(t, Members(objs, dup, t)) == DuplicateMaker(c)(t, Members(objs', dup, t)) {
      PermutedMembers(objs, objs', dup, t);
    }
    forall t
      ensures ContradictionMaker(c)(t, Members(objs, con, t)) == ContradictionMaker(c)(t, Members(objs', con, t))
    {
      PermutedMembers(objs, objs', con, t);
      ValuesOrderFree(c, Members(objs, con, t), Members(objs', con, t));
    }
    SameGroupsSameDerived(DuplicateMaker(c), objs, objs', dup, Sorted(Keys(objs, dup)));
    SameGroupsSameDerived(ContradictionMaker(c), objs, objs', con, Sorted(Keys(objs, con)));
  }
}
