/** Enriching a bundle with its derived objects: when it succeeds, that the result is again valid, and that
    enriching twice changes nothing. */
module DedupeEnrichment {
  import opened Common
  import opened TextOrder
  import opened CanonicalBundle
  import opened StructuredDedupe

  // ---- Append exactly, or fail ----

  /** The first item with this id. */
  function First<T>(items: seq<T>, id: T -> string, k: string): Option<T> {
    if items == [] then None else if id(items[0]) == k then Some(items[0]) else First(items[1..], id, k)
  }

  /** `_append_exact_or_fail`: appends a new id, accepts an identical item, fails on a different one. */
  function AppendExact<T(==)>(items: seq<T>, id: T -> string, x: T): Option<seq<T>> {
    match First(items, id, id(x))
    case None => Some(items + [x])
    case Some(y) => if y == x then Some(items) else None
  }

  function AppendAll<T(==)>(items: seq<T>, id: T -> string, xs: seq<T>): Option<seq<T>> {
    if xs == [] then Some(items)
    else
      match AppendAll(items, id, xs[..|xs| - 1])
      case None => None
      case Some(r) => AppendExact(r, id, xs[|xs| - 1])
  }

  lemma {:induction false} FirstConcat<T>(a: seq<T>, b: seq<T>, id: T -> string, k: string)
    ensures First(a + b, id, k) == if First(a, id, k).Some? then First(a, id, k) else First(b, id, k)
  {
    if a == [] {
      assert a + b == b;
    } else {
      assert (a + b)[1..] == a[1..] + b;
      FirstConcat(a[1..], b, id, k);
    }
  }

  lemma {:induction false} FirstFacts<T>(items: seq<T>, id: T -> string, k: string)
    ensures First(items, id, k).Some? ==> First(items, id, k).value in items && id(First(items, id, k).value) == k
    ensures First(items, id, k).None? <==> forall i :: 0 <= i < |items| ==> id(items[i]) != k
  {
    if items == [] {
    } else {
      FirstFacts(items[1..], id, k);
    }
  }

  /** What has been appended resolves like the plain concatenation. */
  lemma {:induction false} AppendAllResolves<T>(items: seq<T>, id: T -> string, xs: seq<T>, k: string)
    requires AppendAll(items, id, xs).Some?
    ensures First(AppendAll(items, id, xs).value, id, k) == First(items + xs, id, k)
  {
    if xs == [] {
      assert items + xs == items;
    } else {
      var n := |xs| - 1;
      AppendAllResolves(items, id, xs[..n], k);
      AppendAllResolves(items, id, xs[..n], id(xs[n]));
      assert items + xs == items + xs[..n] + [xs[n]];
      FirstConcat(items + xs[..n], [xs[n]], id, k);
      FirstConcat(AppendAll(items, id, xs[..n]).value, [xs[n]], id, k);
    }
  }

  /** Every id resolves to its own item: nothing with the same id and other content comes first. */
  predicate Resolves<T(==)>(items: seq<T>, id: T -> string, xs: seq<T>) {
    forall i :: 0 <= i < |xs| ==> First(items + xs, id, id(xs[i])) == Some(xs[i])
  }

  /** Appending succeeds exactly when no id clashes. */
  lemma {:induction false} AppendAllIff<T>(items: seq<T>, id: T -> string, xs: seq<T>)
    ensures AppendAll(items, id, xs).Some? <==> Resolves(items, id, xs)
  {
    if xs == [] {
    } else {
      var n := |xs| - 1;
      AppendAllIff(items, id, xs[..n]);
      ResolvesSnoc(items, id, xs);
      if AppendAll(items, id, xs[..n]).Some? {
        AppendAllResolves(items, id, xs[..n], id(xs[n]));
      }
    }
  }

  lemma ResolvesSnoc<T>(items: seq<T>, id: T -> string, xs: seq<T>)
    requires xs != []
    ensures var n := |xs| - 1;
            var f := First(items + xs[..n], id, id(xs[n]));
            Resolves(items, id, xs) <==> Resolves(items, id, xs[..n]) && (f.None? || f == Some(xs[n]))
  {
    var n := |xs| - 1;
    assert items + xs == items + xs[..n] + [xs[n]];
    forall i | 0 <= i < n
      ensures First(items + xs, id, id(xs[i])) == First(items + xs[..n], id, id(xs[i]))
    {
      FirstConcat(items + xs[..n], [xs[n]], id, id(xs[i]));
      FirstFacts(items + xs[..n], id, id(xs[i]));
      assert (items + xs[..n])[|items| + i] == xs[i];
    }
    FirstConcat(items + xs[..n], [xs[n]], id, id(xs[n]));
    assert First([xs[n]], id, id(xs[n])) == Some(xs[n]);
    assert forall i :: 0 <= i < n ==> xs[..n][i] == xs[i];
  }

  /** The appended list keeps the items, adds only given ones, holds all of them, and repeats no id. */
  ghost predicate Appended<T>(items: seq<T>, id: T -> string, xs: seq<T>, r: seq<T>) {
    && items <= r
    && (forall i :: |items| <= i < |r| ==> r[i] in xs)
    && (forall x :: x in xs ==> x in r && First(r, id, id(x)) == Some(x))
    && (forall i, k :: 0 <= k < i < |r| && |items| <= i ==> id(r[k]) != id(r[i]))
  }

  lemma {:induction false} AppendAllFacts<T>(items: seq<T>, id: T -> string, xs: seq<T>)
    requires AppendAll(items, id, xs).Some?
    ensures Appended(items, id, xs, AppendAll(items, id, xs).value)
  {
    if xs == [] {
    } else {
      var n := |xs| - 1;
      AppendAllFacts(items, id, xs[..n]);
      var before, r := AppendAll(items, id, xs[..n]).value, AppendAll(items, id, xs).value;
      FirstFacts(before, id, id(xs[n]));
      forall x | x in xs ensures x in r && First(r, id, id(x)) == Some(x) {
        FirstConcat(before, [xs[n]], id, id(x));
        if x != xs[n] { assert x in xs[..n]; }
      }
    }
  }

  lemma {:induction false} AppendAgain<T>(r: seq<T>, id: T -> string, xs: seq<T>)
    requires forall x :: x in xs ==> First(r, id, id(x)) == Some(x)
    ensures AppendAll(r, id, xs) == Some(r)
  {
    if xs == [] {
    } else {
      AppendAgain(r, id, xs[..|xs| - 1]);
    }
  }

  // ---- Enrichment ----

  datatype EnrichError = InvalidInput | IdClash | DerivedInvalid

  function ObjId(): Obj -> string { (o: Obj) => o.objectId }

  function EventId(): Event -> string { (e: Event) => e.eventId }

  function Objs(xs: seq<Candidate>): (r: seq<Obj>)
    ensures |r| == |xs|
  {
    seq(|xs|, i requires 0 <= i < |xs| => xs[i].obj)
  }

  function Events(xs: seq<Candidate>): (r: seq<Event>)
    ensures |r| == |xs|
  {
    seq(|xs|, i requires 0 <= i < |xs| => xs[i].event)
  }

  function Enrich(c: Codec, b: Bundle): Result<Bundle, EnrichError> {
    if !Valid(b) then Err(InvalidInput)
    else
      var xs := Candidates(c, b.objects);
      match (AppendAll(b.objects, ObjId(), Objs(xs)), AppendAll(b.events, EventId(), Events(xs)))
      case (Some(os), Some(es)) =>
        var r := Bundle(os, es, b.decisions);
        if Valid(r) then Ok(r) else Err(DerivedInvalid)
      case _ => Err(IdClash)
  }

  /** No derived id is taken, by the bundle or by another derivation, for different content. */
  predicate NoClash(c: Codec, b: Bundle) {
    var xs := Candidates(c, b.objects);
    Resolves(b.objects, ObjId(), Objs(xs)) && Resolves(b.events, EventId(), Events(xs))
  }

  predicate Sound(ids: set<string>, x: Candidate) {
    && x.obj.typ != "CLAIM" && x.obj.objectId != "" && ObjectOk(x.obj) && x.obj.provenanceIds == Some([x.event.eventId])
    && x.event.eventId != "" && x.event.inputIds != [] && x.event.outputIds == [x.obj.objectId]
    && forall r :: r in x.event.inputIds ==> r in ids
  }

  lemma HashOk(c: Codec, j: Json)
    requires HexDigests(c)
    ensures ValidHash("sha256:" + c.digest(j))
  {
    var d := c.digest(j);
    var h := "sha256:" + d;
    assert forall i :: 7 <= i < 71 ==> h[i] == d[i - 7];
  }

  lemma DuplicateOk(c: Codec, key: string, members: seq<Obj>, x: Claim)
    requires HexDigests(c) && members != []
    ensures ObjectOk(MakeDuplicate(c, key, members, x).obj)
  {
    var ids := IdsOf(members);
    HashOk(c, Dict(map[Other("type") := Str("DUPLICATE_GROUP"), Other("subtype") := Str("STRUCTURED_CLAIM_DUPLICATE"),
                       Other("payload") := Dict(DuplicatePayload(ids, x))]));
  }

  lemma ContradictionOk(c: Codec, key: string, members: seq<Obj>, x: Claim, values: seq<Json>)
    requires HexDigests(c) && members != []
    ensures ObjectOk(MakeContradiction(c, key, members, x, values).obj)
  {
    var ids := IdsOf(members);
    HashOk(c, Dict(map[Other("type") := Str("CONTRADICTION"),
        Other("subtype") := Str("EXCLUSIVE_STRUCTURED_CLAIM_CONFLICT"),
                       Other("payload") := Dict(ContradictionPayload(ids, x, values))]));
  }

  lemma MemberIdsKnown(objs: seq<Obj>, key: Keying, t: string)
    ensures forall id :: id in IdsOf(SortById(Members(objs, key, t))) ==> id in ObjectIds(objs)
  {
    var group := Members(objs, key, t);
    SortByIdSorts(group);
    MembersAre(objs, key, t);
    forall id | id in IdsOf(SortById(group)) ensures id in ObjectIds(objs) {
      IdsOfMember(SortById(group), id);
      var o :| o in SortById(group) && o.objectId == id;
      assert o in objs;
      var i :| 0 <= i < |objs| && objs[i] == o;
    }
  }

  lemma CandidatesSound(c: Codec, objs: seq<Obj>)
    requires HexDigests(c)
    ensures forall x :: x in Candidates(c, objs) ==> Sound(ObjectIds(objs), x)
  {
    var dup, con := DuplicateKey(c), ContextKey(c);
    DerivedAre(DuplicateMaker(c), objs, dup, Sorted(Keys(objs, dup)));
    DerivedAre(ContradictionMaker(c), objs, con, Sorted(Keys(objs, con)));
    forall x | x in Duplicates(c, objs) ensures Sound(ObjectIds(objs), x) {
      var t :| DuplicateMaker(c)(t, Members(objs, dup, t)) == Some(x);
      DuplicateSound(c, objs, t, x);
    }
    forall x | x in Contradictions(c, objs) ensures Sound(ObjectIds(objs), x) {
      var t :| ContradictionMaker(c)(t, Members(objs, con, t)) == Some(x);
      ContradictionSound(c, objs, t, x);
    }
  }

  lemma DuplicateSound(c: Codec, objs: seq<Obj>, t: string, x: Candidate)
    requires HexDigests(c) && DuplicateCandidate(c, t, Members(objs, DuplicateKey(c), t)) == Some(x)
    ensures Sound(ObjectIds(objs), x)
  {
    var members := SortById(Members(objs, DuplicateKey(c), t));
    var claim := ClaimFields(members[0]).value;
    DuplicateShape(c, t, members, claim);
    DuplicateOk(c, t, members, claim);
    MemberIdsKnown(objs, DuplicateKey(c), t);
  }

  lemma ContradictionSound(c: Codec, objs: seq<Obj>, t: string, x: Candidate)
    requires HexDigests(c) && ContradictionCandidate(c, t, Members(objs, ContextKey(c), t)) == Some(x)
    ensures Sound(ObjectIds(objs), x)
  {
    var group := Members(objs, ContextKey(c), t);
    var members := SortById(group);
    var claim := ClaimFields(members[0]).value;
    var values := Lookup(ValuesOf(c, group), Sorted(ValuesOf(c, group).Keys));
    ContradictionShape(c, t, members, claim, values);
    ContradictionOk(c, t, members, claim, values);
    MemberIdsKnown(objs, ContextKey(c), t);
  }

  // ---- The enriched bundle is valid ----

  lemma IdsGrow(os: seq<Obj>, more: seq<Obj>)
    requires os <= more
    ensures ObjectIds(os) <= ObjectIds(more)
  {
    forall id | id in ObjectIds(os) ensures id in ObjectIds(more) {
      var i :| 0 <= i < |os| && os[i].objectId == id;
      assert more[i].objectId == id;
    }
  }

  lemma IdKnown(os: seq<Obj>, o: Obj)
    requires o in os
    ensures o.objectId in ObjectIds(os)
  {
    var i :| 0 <= i < |os| && os[i] == o;
  }

  lemma NewObjectsOk(b: Bundle, xs: seq<Candidate>, os: seq<Obj>)
    requires Valid(b) && forall x :: x in xs ==> Sound(ObjectIds(b.objects), x)
    requires Appended(b.objects, ObjId(), Objs(xs), os)
    ensures (forall o :: o in os ==> o.objectId != "" && ObjectOk(o)) && HashesAgree(os)
  {
    forall o | o in os ensures o.objectId != "" && ObjectOk(o) {
      var i :| 0 <= i < |os| && os[i] == o;
      if i < |b.objects| {
        assert os[i] == b.objects[i];
      } else {
        assert os[i] in Objs(xs);
        var n :| 0 <= n < |Objs(xs)| && Objs(xs)[n] == o;
        assert xs[n] in xs;
      }
    }
    assert forall i, k :: 0 <= i < k < |os| && |b.objects| <= k ==> ObjId()(os[i]) != ObjId()(os[k]);
    forall i, k | 0 <= i < k < |os| && os[i].objectId == os[k].objectId ensures os[i].contentHash == os[k].contentHash {
      assert ObjId()(os[i]) == ObjId()(os[k]);
      assert os[i] == b.objects[i] && os[k] == b.objects[k];
    }
  }

  lemma NewEventsOk(b: Bundle, xs: seq<Candidate>, os: seq<Obj>, es: seq<Event>)
    requires Valid(b) && forall x :: x in xs ==> Sound(ObjectIds(b.objects), x)
    requires Appended(b.objects, ObjId(), Objs(xs), os) && Appended(b.events, EventId(), Events(xs), es)
    ensures EventIdsDistinct(es) && forall e :: e in es ==> EventOk(ObjectIds(os), e)
  {
    IdsGrow(b.objects, os);
    forall i, k | 0 <= i < k < |es| ensures es[i].eventId != es[k].eventId {
      if k >= |b.events| {
        assert EventId()(es[i]) != EventId()(es[k]);
      } else {
        assert es[i] == b.events[i] && es[k] == b.events[k];
      }
    }
    forall e | e in es ensures EventOk(ObjectIds(os), e) {
      var i :| 0 <= i < |es| && es[i] == e;
      if i < |b.events| {
        assert es[i] == b.events[i];
        assert b.events[i] in b.events;
      } else {
        assert es[i] in Events(xs);
        var n :| 0 <= n < |Events(xs)| && Events(xs)[n] == e;
        assert xs[n] in xs && Objs(xs)[n] == xs[n].obj;
        assert xs[n].obj in Objs(xs);
        IdKnown(os, xs[n].obj);
      }
    }
  }

  lemma NewProvenanceResolves(b: Bundle, xs: seq<Candidate>, os: seq<Obj>, es: seq<Event>, i: nat)
    requires Valid(b) && forall x :: x in xs ==> Sound(ObjectIds(b.objects), x)
    requires Appended(b.objects, ObjId(), Objs(xs), os) && Appended(b.events, EventId(), Events(xs), es)
    requires i < |os| && IsFirst(os, i)
    ensures ProvenanceResolves(es, os[i])
  {
    forall pid | pid in ProvenanceOf(os[i]) ensures Produces(es, pid, os[i].objectId) {
      if i < |b.objects| {
        assert os[i] == b.objects[i];
        assert forall k :: 0 <= k < i ==> b.objects[k] == os[k];
        assert IsFirst(b.objects, i);
        assert Produces(b.events, pid, os[i].objectId);
        var e :| e in b.events && e.eventId == pid && os[i].objectId in e.outputIds;
        assert e in es;
      } else {
        assert os[i] in Objs(xs);
        var n :| 0 <= n < |Objs(xs)| && Objs(xs)[n] == os[i];
        assert xs[n] in xs && Events(xs)[n] == xs[n].event;
        assert xs[n].event in Events(xs);
        assert xs[n].event in es;
        assert xs[n].obj.objectId in xs[n].event.outputIds;
      }
    }
  }

  lemma AppendedValid(b: Bundle, xs: seq<Candidate>, os: seq<Obj>, es: seq<Event>)
    requires Valid(b) && forall x :: x in xs ==> Sound(ObjectIds(b.objects), x)
    requires Appended(b.objects, ObjId(), Objs(xs), os) && Appended(b.events, EventId(), Events(xs), es)
    ensures Valid(Bundle(os, es, b.decisions))
  {
    NewObjectsOk(b, xs, os);
    NewEventsOk(b, xs, os, es);
    IdsGrow(b.objects, os);
    forall i | 0 <= i < |os| && IsFirst(os, i) ensures ProvenanceResolves(es, os[i]) {
      NewProvenanceResolves(b, xs, os, es, i);
    }
  }

  /** r keeps the bundle in place, adds only derived objects and their events, and holds every derived object with its
      event. */
  ghost predicate Holds(b: Bundle, xs: seq<Candidate>, r: Bundle) {
    && b.objects <= r.objects && b.events <= r.events && r.decisions == b.decisions
    && (forall o :: o in r.objects ==> o in b.objects || exists x :: x in xs && x.obj == o)
    && (forall e :: e in r.events ==> e in b.events || exists x :: x in xs && x.event == e)
    && (forall x :: x in xs ==> x.obj in r.objects && x.event in r.events)
  }

  lemma AppendsIff(c: Codec, b: Bundle)
    ensures var xs := Candidates(c, b.objects);
            NoClash(c, b)
            <==> AppendAll(b.objects, ObjId(), Objs(xs)).Some? && AppendAll(b.events, EventId(), Events(xs)).Some?
  {
    var xs := Candidates(c, b.objects);
    AppendAllIff(b.objects, ObjId(), Objs(xs));
    AppendAllIff(b.events, EventId(), Events(xs));
  }

  lemma EnrichedOk(c: Codec, b: Bundle, os: seq<Obj>, es: seq<Event>)
    requires HexDigests(c) && Valid(b)
    requires AppendAll(b.objects, ObjId(), Objs(Candidates(c, b.objects))) == Some(os)
    requires AppendAll(b.events, EventId(), Events(Candidates(c, b.objects))) == Some(es)
    ensures Valid(Bundle(os, es, b.decisions)) && Holds(b, Candidates(c, b.objects), Bundle(os, es, b.decisions))
  {
    var xs := Candidates(c, b.objects);
    AppendAllFacts(b.objects, ObjId(), Objs(xs));
    AppendAllFacts(b.events, EventId(), Events(xs));
    CandidatesSound(c, b.objects);
    AppendedValid(b, xs, os, es);
    OnlyDerivedAdded(b.objects, xs, os);
    OnlyDerivedEvents(b.events, xs, es);
    AllDerivedPresent(b, xs, os, es);
  }

  /** Enriching succeeds exactly for valid bundles without an id clash; the result is then always valid, so the
      check after the derivation never fires. It keeps every original object and event in place, adds only
      derived ones, and holds every derived object with its event. */
  lemma EnrichIff(c: Codec, b: Bundle)
    requires HexDigests(c)
    ensures Enrich(c, b).Ok? <==> Valid(b) && NoClash(c, b)
    ensures Enrich(c, b) != Err(DerivedInvalid)
    ensures Enrich(c, b).Ok? ==>
              Valid(Enrich(c, b).value) && Holds(b, Candidates(c, b.objects), Enrich(c, b).value)
  {
    if Valid(b) {
      if NoClash(c, b) {
        var r := Succeeds(c, b);
      } else {
        Clashes(c, b);
      }
    }
  }

  lemma Succeeds(c: Codec, b: Bundle) returns (r: Bundle)
    requires HexDigests(c) && Valid(b) && NoClash(c, b)
    ensures Enrich(c, b) == Ok(r) && Valid(r) && Holds(b, Candidates(c, b.objects), r)
  {
    var xs := Candidates(c, b.objects);
    AppendsIff(c, b);
    var os, es := AppendAll(b.objects, ObjId(), Objs(xs)).value, AppendAll(b.events, EventId(), Events(xs)).value;
    EnrichedOk(c, b, os, es);
    r := Bundle(os, es, b.decisions);
    EnrichOutcome(c, b, os, es);
  }

  lemma EnrichOutcome(c: Codec, b: Bundle, os: seq<Obj>, es: seq<Event>)
    requires Valid(b) && Valid(Bundle(os, es, b.decisions))
    requires AppendAll(b.objects, ObjId(), Objs(Candidates(c, b.objects))) == Some(os)
    requires AppendAll(b.events, EventId(), Events(Candidates(c, b.objects))) == Some(es)
    ensures Enrich(c, b) == Ok(Bundle(os, es, b.decisions))
  {
  }

  lemma Clashes(c: Codec, b: Bundle)
    requires Valid(b) && !NoClash(c, b)
    ensures Enrich(c, b) == Err(IdClash)
  {
    AppendsIff(c, b);
  }

  lemma OnlyDerivedAdded(objs: seq<Obj>, xs: seq<Candidate>, os: seq<Obj>)
    requires Appended(objs, ObjId(), Objs(xs), os)
    ensures forall o :: o in os ==> o in objs || exists x :: x in xs && x.obj == o
  {
    forall o | o in os ensures o in objs || exists x :: x in xs && x.obj == o {
      var i :| 0 <= i < |os| && os[i] == o;
      if i < |objs| {
        assert objs[i] == o;
      } else {
        assert os[i] in Objs(xs);
        var n :| 0 <= n < |Objs(xs)| && Objs(xs)[n] == o;
        assert xs[n] in xs && xs[n].obj == o;
      }
    }
  }

  lemma OnlyDerivedEvents(events: seq<Event>, xs: seq<Candidate>, es: seq<Event>)
    requires Appended(events, EventId(), Events(xs), es)
    ensures forall e :: e in es ==> e in events || exists x :: x in xs && x.event == e
  {
    forall e | e in es ensures e in events || exists x :: x in xs && x.event == e {
      var i :| 0 <= i < |es| && es[i] == e;
      if i < |events| {
        assert events[i] == e;
      } else {
        assert es[i] in Events(xs);
        var n :| 0 <= n < |Events(xs)| && Events(xs)[n] == e;
        assert xs[n] in xs && xs[n].event == e;
      }
    }
  }

  lemma AllDerivedPresent(b: Bundle, xs: seq<Candidate>, os: seq<Obj>, es: seq<Event>)
    requires Appended(b.objects, ObjId(), Objs(xs), os) && Appended(b.events, EventId(), Events(xs), es)
    ensures forall x :: x in xs ==> x.obj in os && x.event in es
  {
    forall x | x in xs ensures x.obj in os && x.event in es {
      var n :| 0 <= n < |xs| && xs[n] == x;
      assert Objs(xs)[n] == x.obj && Events(xs)[n] == x.event;
      assert x.obj in Objs(xs) && x.event in Events(xs);
    }
  }

  /** The digest that names the object derived for key text t. */
  function ShortOf(c: Codec, kind: string, objs: seq<Obj>, key: Keying): string -> string {
    (t: string) => ShortDigest(c, kind, t, IdsOf(SortById(Members(objs, key, t))))
  }

  /** No two keys of the bundle share their shortened digest. */
  predicate NoCollision(c: Codec, kind: string, objs: seq<Obj>, key: Keying) {
    forall t, u :: t in Keys(objs, key) && u in Keys(objs, key) && t != u
                   ==> ShortOf(c, kind, objs, key)(t) != ShortOf(c, kind, objs, key)(u)
  }

  predicate Named(x: Candidate, obj: string, prov: string, digest: string) {
    x.obj.objectId == obj + digest && x.event.eventId == prov + digest
  }

  predicate Apart(x: Candidate, y: Candidate) {
    x.obj.objectId != y.obj.objectId && x.event.eventId != y.event.eventId
  }

  predicate AllApart(xs: seq<Candidate>) {
    forall i, k :: 0 <= i < k < |xs| ==> Apart(xs[i], xs[k])
  }

  lemma NamedApart(x: Candidate, obj: string, prov: string, d: string, y: Candidate, e: string)
    requires Named(x, obj, prov, d) && Named(y, obj, prov, e) && d != e
    ensures Apart(x, y)
  {
    assert (obj + d)[|obj|..] == d && (obj + e)[|obj|..] == e;
    assert (prov + d)[|prov|..] == d && (prov + e)[|prov|..] == e;
  }

  lemma KindsApart(x: Candidate, d: string, y: Candidate, e: string)
    requires Named(x, "obj_duplicate_", "prov_duplicate_", d)
               && Named(y, "obj_contradiction_", "prov_contradiction_", e)
    ensures Apart(x, y)
  {
    assert x.obj.objectId[4] == 'd' && y.obj.objectId[4] == 'c';
    assert x.event.eventId[5] == 'd' && y.event.eventId[5] == 'c';
  }

  lemma {:induction false} DerivedApart(make: (string, seq<Obj>) -> Option<Candidate>, objs: seq<Obj>, key: Keying,
                                        texts: seq<string>, obj: string, prov: string, short: string -> string)
    requires forall i, k :: 0 <= i < k < |texts| ==> short(texts[i]) != short(texts[k])
    requires forall t :: make(t, Members(objs, key, t)).Some?
               ==> Named(make(t, Members(objs, key, t)).value, obj, prov, short(t))
    ensures AllApart(DeriveAll(make, objs, key, texts))
  {
    if texts == [] {
    } else {
      var n := |texts| - 1;
      var t, before := texts[n], DeriveAll(make, objs, key, texts[..n]);
      DerivedApart(make, objs, key, texts[..n], obj, prov, short);
      DerivedAre(make, objs, key, texts[..n]);
      var x := make(t, Members(objs, key, t));
      if x.Some? {
        forall y | y in before ensures Apart(y, x.value) {
          var u :| u in texts[..n] && make(u, Members(objs, key, u)) == Some(y);
          NamedApart(y, obj, prov, short(u), x.value, short(t));
        }
      }
    }
  }

  lemma ShortsDiffer(c: Codec, kind: string, objs: seq<Obj>, key: Keying)
    requires NoCollision(c, kind, objs, key)
    ensures var texts := Sorted(Keys(objs, key));
            forall i, k :: 0 <= i < k < |texts|
              ==> ShortOf(c, kind, objs, key)(texts[i]) != ShortOf(c, kind, objs, key)(texts[k])
  {
    var texts := Sorted(Keys(objs, key));
    forall i, k | 0 <= i < k < |texts|
      ensures ShortOf(c, kind, objs, key)(texts[i]) != ShortOf(c, kind, objs, key)(texts[k])
    {
      assert texts[i] in Elements(texts) && texts[k] in Elements(texts);
      assert Less(texts[i], texts[k]);
    }
  }

  lemma DuplicatesApart(c: Codec, objs: seq<Obj>)
    requires NoCollision(c, "duplicate", objs, DuplicateKey(c))
    ensures AllApart(Duplicates(c, objs))
    ensures forall x :: x in Duplicates(c, objs) ==> exists d :: Named(x, "obj_duplicate_", "prov_duplicate_", d)
  {
    var key, short := DuplicateKey(c), ShortOf(c, "duplicate", objs, DuplicateKey(c));
    ShortsDiffer(c, "duplicate", objs, key);
    forall t | DuplicateMaker(c)(t, Members(objs, key, t)).Some?
      ensures Named(DuplicateMaker(c)(t, Members(objs, key, t)).value, "obj_duplicate_", "prov_duplicate_", short(t))
    {
      DuplicateNamed(c, t, Members(objs, key, t));
    }
    DerivedApart(DuplicateMaker(c), objs, key, Sorted(Keys(objs, key)), "obj_duplicate_", "prov_duplicate_", short);
    DerivedAre(DuplicateMaker(c), objs, key, Sorted(Keys(objs, key)));
  }

  lemma ContradictionsApart(c: Codec, objs: seq<Obj>)
    requires NoCollision(c, "contradiction", objs, ContextKey(c))
    ensures AllApart(Contradictions(c, objs))
    ensures forall x :: x in Contradictions(c, objs)
              ==> exists d :: Named(x, "obj_contradiction_", "prov_contradiction_", d)
  {
    var key, short := ContextKey(c), ShortOf(c, "contradiction", objs, ContextKey(c));
    ShortsDiffer(c, "contradiction", objs, key);
    forall t | ContradictionMaker(c)(t, Members(objs, key, t)).Some?
      ensures Named(ContradictionMaker(c)(t, Members(objs, key, t)).value, "obj_contradiction_",
                "prov_contradiction_", short(t))
    {
      ContradictionNamed(c, t, Members(objs, key, t));
    }
    DerivedApart(ContradictionMaker(c), objs, key, Sorted(Keys(objs, key)), "obj_contradiction_",
        "prov_contradiction_", short);
    DerivedAre(ContradictionMaker(c), objs, key, Sorted(Keys(objs, key)));
  }

  lemma DuplicateNamed(c: Codec, t: string, group: seq<Obj>)
    requires DuplicateCandidate(c, t, group).Some?
    ensures Named(DuplicateCandidate(c, t, group).value, "obj_duplicate_", "prov_duplicate_",
              ShortDigest(c, "duplicate", t, IdsOf(SortById(group))))
  {
  }

  lemma ContradictionNamed(c: Codec, t: string, group: seq<Obj>)
    requires ContradictionCandidate(c, t, group).Some?
    ensures Named(ContradictionCandidate(c, t, group).value, "obj_contradiction_", "prov_contradiction_",
                  ShortDigest(c, "contradiction", t, IdsOf(SortById(group))))
  {
  }

  lemma CandidatesApart(c: Codec, objs: seq<Obj>)
    requires NoCollision(c, "duplicate", objs, DuplicateKey(c)) && NoCollision(c, "contradiction", objs, ContextKey(c))
    ensures AllApart(Candidates(c, objs))
  {
    DuplicatesApart(c, objs);
    ContradictionsApart(c, objs);
    forall x, y | x in Duplicates(c, objs) && y in Contradictions(c, objs) ensures Apart(x, y) {
      var d :| Named(x, "obj_duplicate_", "prov_duplicate_", d);
      var e :| Named(y, "obj_contradiction_", "prov_contradiction_", e);
      KindsApart(x, d, y, e);
    }
    ApartConcat(Duplicates(c, objs), Contradictions(c, objs));
  }

  lemma ApartConcat(xs: seq<Candidate>, ys: seq<Candidate>)
    requires AllApart(xs) && AllApart(ys) && forall x, y :: x in xs && y in ys ==> Apart(x, y)
    ensures AllApart(xs + ys)
  {
    var all := xs + ys;
    forall i, k | 0 <= i < k < |all| ensures Apart(all[i], all[k]) {
      if i < |xs| <= k { assert all[i] in xs && all[k] in ys; }
    }
  }

  /** When no two keys share a shortened digest and no original object or event uses a derived id, nothing
      clashes; with EnrichIff, every such valid bundle is enriched. */
  lemma FreshIdsDoNotClash(c: Codec, b: Bundle)
    requires NoCollision(c, "duplicate", b.objects, DuplicateKey(c))
    requires NoCollision(c, "contradiction", b.objects, ContextKey(c))
    requires forall x, o :: x in Candidates(c, b.objects) && o in b.objects ==> x.obj.objectId != o.objectId
    requires forall x, e :: x in Candidates(c, b.objects) && e in b.events ==> x.event.eventId != e.eventId
    ensures NoClash(c, b)
  {
    var xs := Candidates(c, b.objects);
    CandidatesApart(c, b.objects);
    ApartResolve(b, xs);
  }

  lemma ApartResolve(b: Bundle, xs: seq<Candidate>)
    requires AllApart(xs)
    requires forall x, o :: x in xs && o in b.objects ==> x.obj.objectId != o.objectId
    requires forall x, e :: x in xs && e in b.events ==> x.event.eventId != e.eventId
    ensures Resolves(b.objects, ObjId(), Objs(xs)) && Resolves(b.events, EventId(), Events(xs))
  {
    forall i, k | 0 <= i < k < |xs|
      ensures Objs(xs)[i].objectId != Objs(xs)[k].objectId && Events(xs)[i].eventId != Events(xs)[k].eventId
    {
      assert Apart(xs[i], xs[k]);
    }
    forall i, k | 0 <= i < |b.objects| && 0 <= k < |xs|
      ensures b.objects[i].objectId != Objs(xs)[k].objectId
    {
      assert xs[k] in xs;
    }
    forall i, k | 0 <= i < |b.events| && 0 <= k < |xs|
      ensures b.events[i].eventId != Events(xs)[k].eventId { assert xs[k] in xs; }
    DistinctResolve(b.objects, ObjId(), Objs(xs));
    DistinctResolve(b.events, EventId(), Events(xs));
  }

  lemma DistinctResolve<T>(items: seq<T>, id: T -> string, xs: seq<T>)
    requires forall i, k :: 0 <= i < k < |xs| ==> id(xs[i]) != id(xs[k])
    requires forall i, k :: 0 <= i < |items| && 0 <= k < |xs| ==> id(items[i]) != id(xs[k])
    ensures Resolves(items, id, xs)
  {
    forall i | 0 <= i < |xs| ensures First(items + xs, id, id(xs[i])) == Some(xs[i]) {
      FirstConcat(items, xs, id, id(xs[i]));
      FirstFacts(items, id, id(xs[i]));
      FirstFacts(xs, id, id(xs[i]));
      var f := First(xs, id, id(xs[i])).value;
      var k :| 0 <= k < |xs| && xs[k] == f;
    }
  }

  // ---- Enriching again ----

  /** Objects that are not claims belong to no group. */
  lemma {:induction false} NonClaimsIgnored(objs: seq<Obj>, extra: seq<Obj>, key: Keying, t: string)
    requires forall o :: o in extra ==> key(o).None?
    ensures Members(objs + extra, key, t) == Members(objs, key, t)
  {
    if extra == [] {
      assert objs + extra == objs;
    } else {
      var n := |extra| - 1;
      assert (objs + extra)[..|objs + extra| - 1] == objs + extra[..n];
      assert extra[n] in extra;
      NonClaimsIgnored(objs, extra[..n], key, t);
    }
  }

  lemma {:induction false} SameDerived(make: (string, seq<Obj>) -> Option<Candidate>, objs: seq<Obj>, extra: seq<Obj>,
                                       key: Keying, texts: seq<string>)
    requires forall o :: o in extra ==> key(o).None?
    ensures DeriveAll(make, objs + extra, key, texts) == DeriveAll(make, objs, key, texts)
  {
    if texts == [] {
    } else {
      SameDerived(make, objs, extra, key, texts[..|texts| - 1]);
      NonClaimsIgnored(objs, extra, key, texts[|texts| - 1]);
    }
  }

  lemma SameKeys(objs: seq<Obj>, extra: seq<Obj>, key: Keying)
    requires forall o :: o in extra ==> key(o).None?
    ensures Keys(objs + extra, key) == Keys(objs, key)
  {
  }

  lemma DerivedIgnored(c: Codec, objs: seq<Obj>, extra: seq<Obj>)
    requires forall o :: o in extra ==> o.typ != "CLAIM"
    ensures Candidates(c, objs + extra) == Candidates(c, objs)
  {
    var dup, con := DuplicateKey(c), ContextKey(c);
    forall o | o in extra ensures dup(o).None? && con(o).None? { assert ClaimFields(o).None?; }
    SameKeys(objs, extra, dup);
    SameKeys(objs, extra, con);
    SameDerived(DuplicateMaker(c), objs, extra, dup, Sorted(Keys(objs, dup)));
    SameDerived(ContradictionMaker(c), objs, extra, con, Sorted(Keys(objs, con)));
  }

  lemma AllResolve<T>(items: seq<T>, id: T -> string, xs: seq<T>)
    requires AppendAll(items, id, xs).Some?
    ensures AppendAll(AppendAll(items, id, xs).value, id, xs) == AppendAll(items, id, xs)
  {
    AppendAllFacts(items, id, xs);
    AppendAgain(AppendAll(items, id, xs).value, id, xs);
  }

  lemma AppendedSameCandidates(c: Codec, objs: seq<Obj>, xs: seq<Candidate>, os: seq<Obj>)
    requires Appended(objs, ObjId(), Objs(xs), os) && forall x :: x in xs ==> x.obj.typ != "CLAIM"
    ensures Candidates(c, os) == Candidates(c, objs)
  {
    var extra := os[|objs|..];
    forall o | o in extra ensures o.typ != "CLAIM" {
      var i :| 0 <= i < |extra| && extra[i] == o;
      assert os[|objs| + i] in Objs(xs);
      var n :| 0 <= n < |Objs(xs)| && Objs(xs)[n] == o;
      assert xs[n] in xs;
    }
    assert os == objs + extra;
    DerivedIgnored(c, objs, extra);
  }

  lemma EnrichedSameCandidates(c: Codec, b: Bundle)
    requires HexDigests(c) && Enrich(c, b).Ok?
    ensures Candidates(c, Enrich(c, b).value.objects) == Candidates(c, b.objects)
  {
    var xs := Candidates(c, b.objects);
    EnrichAppends(c, b);
    AppendAllFacts(b.objects, ObjId(), Objs(xs));
    CandidatesSound(c, b.objects);
    NoClaims(ObjectIds(b.objects), xs);
    AppendedSameCandidates(c, b.objects, xs, Enrich(c, b).value.objects);
  }

  lemma EnrichAppends(c: Codec, b: Bundle)
    requires Enrich(c, b).Ok?
    ensures Valid(Enrich(c, b).value)
    ensures AppendAll(b.objects, ObjId(), Objs(Candidates(c, b.objects))) == Some(Enrich(c, b).value.objects)
    ensures AppendAll(b.events, EventId(), Events(Candidates(c, b.objects))) == Some(Enrich(c, b).value.events)
  {
  }

  lemma NoClaims(ids: set<string>, xs: seq<Candidate>)
    requires forall x :: x in xs ==> Sound(ids, x)
    ensures forall x :: x in xs ==> x.obj.typ != "CLAIM"
  {
  }

  /** Enriching is idempotent. */
  lemma EnrichIdempotent(c: Codec, b: Bundle)
    requires HexDigests(c) && Enrich(c, b).Ok?
    ensures Enrich(c, Enrich(c, b).value) == Enrich(c, b)
  {
    var xs := Candidates(c, b.objects);
    EnrichAppends(c, b);
    EnrichedSameCandidates(c, b);
    AllResolve(b.objects, ObjId(), Objs(xs));
    AllResolve(b.events, EventId(), Events(xs));
  }

  // ---- The loops ----

  /** `defaultdict(list)` filled in bundle order. */
  method Group(objs: seq<Obj>, key: Keying) returns (groups: map<string, seq<Obj>>)
    ensures groups.Keys == Keys(objs, key)
    ensures forall t :: t in groups ==> groups[t] == Members(objs, key, t)
  {
    groups := map[];
    for i := 0 to |objs|
      invariant groups.Keys == Keys(objs[..i], key)
      invariant forall t :: t in groups ==> groups[t] == Members(objs[..i], key, t)
    {
      assert objs[..i + 1] == objs[..i] + [objs[i]];
      assert objs[..i + 1][..i] == objs[..i];
      var k := key(objs[i]);
      KeysSnoc(objs, key, i);
      if k.Some? {
        if k.value !in groups { NoMembers(objs[..i], key, k.value); }
        groups := groups[k.value := (if k.value in groups then groups[k.value] else []) + [objs[i]]];
      }
    }
    assert objs[..|objs|] == objs;
  }

  lemma KeysSnoc(objs: seq<Obj>, key: Keying, i: nat)
    requires i < |objs|
    ensures Keys(objs[..i + 1], key) == Keys(objs[..i], key) + if key(objs[i]).Some? then {key(objs[i]).value} else {}
  {
    assert objs[..i + 1] == objs[..i] + [objs[i]];
  }

  lemma {:induction false} NoMembers(objs: seq<Obj>, key: Keying, t: string)
    requires t !in Keys(objs, key)
    ensures Members(objs, key, t) == []
  {
    if objs == [] {
    } else {
      assert objs[|objs| - 1] in objs;
      assert forall o :: o in objs[..|objs| - 1] ==> o in objs;
      NoMembers(objs[..|objs| - 1], key, t);
    }
  }

  lemma DeriveSnoc(make: (string, seq<Obj>) -> Option<Candidate>, objs: seq<Obj>, key: Keying, texts: seq<string>,
                   i: nat)
    requires i < |texts|
    ensures var x := make(texts[i], Members(objs, key, texts[i]));
            DeriveAll(make, objs, key, texts[..i + 1])
            == DeriveAll(make, objs, key, texts[..i]) + if x.Some? then [x.value] else []
  {
    assert texts[..i + 1][..i] == texts[..i];
  }

  /** One candidate per group, in the order of `sorted(groups.items())`. */
  method Derive(make: (string, seq<Obj>) -> Option<Candidate>, objs: seq<Obj>, key: Keying) returns (xs: seq<Candidate>)
    ensures xs == DeriveAll(make, objs, key, Sorted(Keys(objs, key)))
  {
    var groups := Group(objs, key);
    var texts := Sorted(groups.Keys);
    xs := [];
    for i := 0 to |texts|
      invariant xs == DeriveAll(make, objs, key, texts[..i])
    {
      assert texts[i] in Elements(texts);
      var x := make(texts[i], groups[texts[i]]);
      DeriveSnoc(make, objs, key, texts, i);
      if x.Some? { xs := xs + [x.value]; }
    }
    assert texts[..|texts|] == texts;
  }

  method AppendCandidates<T(==)>(items: seq<T>, id: T -> string, xs: seq<T>) returns (r: Option<seq<T>>)
    ensures r == AppendAll(items, id, xs)
  {
    var all := items;
    for i := 0 to |xs|
      invariant AppendAll(items, id, xs[..i]) == Some(all)
    {
      assert xs[..i + 1][..i] == xs[..i];
      var next := AppendExact(all, id, xs[i]);
      if next.None? {
        FailureStays(items, id, xs, i + 1);
        return None;
      }
      all := next.value;
    }
    assert xs[..|xs|] == xs;
    r := Some(all);
  }

  lemma {:induction false} FailureStays<T>(items: seq<T>, id: T -> string, xs: seq<T>, n: nat)
    requires n <= |xs| && AppendAll(items, id, xs[..n]).None?
    ensures AppendAll(items, id, xs).None?
    decreases |xs|
  {
    if n == |xs| {
      assert xs[..n] == xs;
    } else {
      assert xs[..|xs| - 1][..n] == xs[..n];
      FailureStays(items, id, xs[..|xs| - 1], n);
    }
  }

  /** `enrich_bundle`. */
  method EnrichBundle(c: Codec, b: Bundle) returns (r: Result<Bundle, EnrichError>)
    ensures r == Enrich(c, b)
  {
    var errors := ValidateBundle(b);
    if errors != [] { return Err(InvalidInput); }
    var duplicates := Derive(DuplicateMaker(c), b.objects, DuplicateKey(c));
    var contradictions := Derive(ContradictionMaker(c), b.objects, ContextKey(c));
    var xs := duplicates + contradictions;
    var objects := AppendCandidates(b.objects, ObjId(), Objs(xs));
    var events := AppendCandidates(b.events, EventId(), Events(xs));
    if objects.None? || events.None? { return Err(IdClash); }
    var enriched := Bundle(objects.value, events.value, b.decisions);
    errors := ValidateBundle(enriched);
    if errors != [] { return Err(DerivedInvalid); }
    r := Ok(enriched);
  }
}
