/** A valid bundle that cannot be enriched: an object occupies the id of a derived duplicate group. */
module DedupeClash {
  import opened Common
  import opened TextOrder
  import opened CanonicalBundle
  import opened StructuredDedupe
  import opened DedupeEnrichment

  /** An object without provenance that satisfies every rule. */
  function Plain(c: Codec, id: string, typ: string, payload: map<Key, Json>): Obj {
    Obj(id, typ, "", "sha256:" + c.digest(Null), "", "", "", Neither, Some([]), Some(payload), None, None, [], Null)
  }

  function ClaimPayload(): map<Key, Json> {
    map[SubjectIds := List([Str("s")]), Predicate := Str("p"), ObjectValue := Null]
  }

  /** Two objects that make the same claim. */
  function Claims2(c: Codec): seq<Obj> {
    [Plain(c, "a", "CLAIM", ClaimPayload()), Plain(c, "b", "CLAIM", ClaimPayload())]
  }

  function KeyOf(c: Codec): string {
    c.text(DuplicateJson(Claim(Sorted({"s"}), "p", Null)))
  }

  /** The duplicate group that is derived from them. */
  function Derived(c: Codec): Candidate {
    MakeDuplicate(c, KeyOf(c), SortById(Claims2(c)), Claim(Sorted({"s"}), "p", Null))
  }

  /** The two claims, and a note under some id. */
  function Occupied(c: Codec, id: string): Bundle {
    Bundle([Plain(c, "a", "CLAIM", ClaimPayload()), Plain(c, "b", "CLAIM", ClaimPayload()),
        Plain(c, id, "NOTE", map[])],
           [], [])
  }

  lemma PlainOk(c: Codec, id: string, typ: string, payload: map<Key, Json>)
    requires HexDigests(c) && (typ == "CLAIM" || typ == "NOTE")
    ensures ObjectOk(Plain(c, id, typ, payload))
  {
    HashOk(c, Null);
  }

  lemma ClaimRead(c: Codec, id: string)
    ensures ClaimFields(Plain(c, id, "CLAIM", ClaimPayload())) == Some(Claim(Sorted({"s"}), "p", Null))
  {
    var subjects := Field(ClaimPayload(), SubjectIds);
    assert subjects == List([Str("s")]) && Field(ClaimPayload(), Predicate) == Str("p");
    assert Strings([Str("s")]) == {"s"} by { assert [Str("s")][0] == Str("s"); }
  }

  lemma OccupiedValid(c: Codec, id: string)
    requires HexDigests(c) && id != ""
    ensures Valid(Occupied(c, id))
  {
    var b := Occupied(c, id);
    PlainOk(c, "a", "CLAIM", ClaimPayload());
    PlainOk(c, "b", "CLAIM", ClaimPayload());
    PlainOk(c, id, "NOTE", map[]);
    forall i | 0 <= i < |b.objects| ensures ProvenanceResolves(b.events, b.objects[i]) {
      assert ProvenanceOf(b.objects[i]) == [];
    }
  }

  lemma TwoMembers(a: Obj, b: Obj, n: Obj, key: Keying, t: string)
    requires key(a) == Some(t) && key(b) == Some(t) && key(n).None?
    ensures Members([a, b, n], key, t) == [a, b] && t in Keys([a, b, n], key)
  {
    MembersSnoc([], a, key, t);
    MembersSnoc([a], b, key, t);
    MembersSnoc([a, b], n, key, t);
    assert [] + [a] == [a] && [a] + [b] == [a, b] && [a, b] + [n] == [a, b, n];
    assert a in [a, b, n];
  }

  lemma MembersSnoc(objs: seq<Obj>, o: Obj, key: Keying, t: string)
    ensures Members(objs + [o], key, t) == Members(objs, key, t) + if key(o) == Some(t) then [o] else []
  {
    assert (objs + [o])[..|objs|] == objs;
  }

  /** The group is among the derived candidates, whatever the note's id. */
  lemma OccupiedDerives(c: Codec, id: string)
    ensures Derived(c) in Candidates(c, Occupied(c, id).objects)
  {
    var objs, key, t := Occupied(c, id).objects, DuplicateKey(c), KeyOf(c);
    ClaimRead(c, "a");
    ClaimRead(c, "b");
    NoteUnread(c, id);
    TwoMembers(objs[0], objs[1], objs[2], key, t);
    assert objs == [objs[0], objs[1], objs[2]];
    assert Members(objs, key, t) == Claims2(c);
    TwoSorted(Claims2(c));
    GroupAmongCandidates(c, objs, t, Derived(c));
  }

  lemma GroupAmongCandidates(c: Codec, objs: seq<Obj>, t: string, x: Candidate)
    requires t in Keys(objs, DuplicateKey(c))
    requires DuplicateCandidate(c, t, Members(objs, DuplicateKey(c), t)) == Some(x)
    ensures x in Candidates(c, objs)
  {
    var key := DuplicateKey(c);
    assert t in Elements(Sorted(Keys(objs, key)));
    DerivedAre(DuplicateMaker(c), objs, key, Sorted(Keys(objs, key)));
    assert DuplicateMaker(c)(t, Members(objs, key, t)) == Some(x);
  }

  lemma TwoSorted(s: seq<Obj>)
    requires |s| == 2 && ClaimFields(s[0]).Some? && ClaimFields(s[0]) == ClaimFields(s[1])
    ensures |SortById(s)| == 2 && ClaimFields(SortById(s)[0]) == ClaimFields(s[0])
  {
    SortByIdSorts(s);
    assert SortById(s)[0] in SortById(s);
  }

  /** An item under a derived id, with other content, makes the ids clash. */
  lemma OccupiedClashes(c: Codec, b: Bundle, x: Candidate)
    requires x in Candidates(c, b.objects) && x.obj !in b.objects
    requires exists i :: 0 <= i < |b.objects| && b.objects[i].objectId == x.obj.objectId
    ensures !NoClash(c, b)
  {
    var xs, k := Candidates(c, b.objects), x.obj.objectId;
    var n :| 0 <= n < |xs| && xs[n] == x;
    assert Objs(xs)[n] == x.obj;
    var i :| 0 <= i < |b.objects| && b.objects[i].objectId == k;
    assert ObjId()(b.objects[i]) == k;
    FirstFacts(b.objects, ObjId(), k);
    FirstConcat(b.objects, Objs(xs), ObjId(), k);
  }

  /** The bundle whose note sits on the derived id. */
  function ClashBundle(c: Codec): Bundle {
    Occupied(c, Derived(c).obj.objectId)
  }

  lemma DerivedIsNew(c: Codec)
    ensures Derived(c).obj.objectId != "" && Derived(c).obj !in ClashBundle(c).objects
  {
    DuplicateShape(c, KeyOf(c), SortById(Claims2(c)), Claim(Sorted({"s"}), "p", Null));
    ShortTypes(c, Derived(c).obj.objectId);
    assert |"DUPLICATE_GROUP"| == 15;
  }

  lemma ShortTypes(c: Codec, id: string)
    ensures forall o :: o in Occupied(c, id).objects ==> |o.typ| <= 5
  {
  }

  lemma NoteUnread(c: Codec, id: string)
    ensures DuplicateKey(c)(Plain(c, id, "NOTE", map[])) == None
  {
    NoteIsNoClaim();
    assert ClaimFields(Plain(c, id, "NOTE", map[])) == None;
  }

  lemma NoteIsNoClaim()
    ensures "NOTE" != "CLAIM"
  {
    assert |"NOTE"| != |"CLAIM"|;
  }

  /** The bundle is valid, and enriching it fails. */
  lemma ValidButClashes(c: Codec)
    requires HexDigests(c)
    ensures Valid(ClashBundle(c)) && Enrich(c, ClashBundle(c)) == Err(IdClash)
  {
    var b := ClashBundle(c);
    DerivedIsNew(c);
    OccupiedValid(c, Derived(c).obj.objectId);
    OccupiedDerives(c, Derived(c).obj.objectId);
    assert b.objects[2].objectId == Derived(c).obj.objectId;
    OccupiedClashes(c, b, Derived(c));
    Clashes(c, b);
  }
}
