/** The append-only store for canonical bundles: transactional ingest into four keyed tables, and a projection
    that can be rebuilt from the canonical objects at any time. */
module CanonicalStore {
  import opened Common
  import opened CanonicalBundle

  // ---- Keyed tables of immutable rows ----

  /** A row is inserted, found identical, or refused. `storable` says whether it has the required columns. */
  function Insert<R(==)>(t: map<string, R>, k: string, r: R, storable: R -> bool): Option<map<string, R>> {
    if k in t then (if t[k] == r then Some(t) else None)
    else if storable(r) then Some(t[k := r])
    else None
  }

  function InsertAll<R(==)>(t: map<string, R>, id: R -> string, rs: seq<R>,
                       storable: R -> bool): Option<map<string, R>> {
    if rs == [] then Some(t)
    else
      match InsertAll(t, id, rs[..|rs| - 1], storable)
      case None => None
      case Some(u) => Insert(u, id(rs[|rs| - 1]), rs[|rs| - 1], storable)
  }

  /** The rows can all be inserted: none contradicts the table or another one, and the new ones are storable. */
  predicate Agrees<R(==)>(t: map<string, R>, id: R -> string, rs: seq<R>, storable: R -> bool) {
    && (forall i :: 0 <= i < |rs| ==> if id(rs[i]) in t then t[id(rs[i])] == rs[i] else storable(rs[i]))
    && (forall i, k :: 0 <= i < k < |rs| && id(rs[i]) == id(rs[k]) ==> rs[i] == rs[k])
  }

  /** u is t with the rows added: nothing removed, nothing changed, nothing else. */
  predicate Extends<R(==)>(t: map<string, R>, id: R -> string, rs: seq<R>, u: map<string, R>) {
    && (forall k :: k in t ==> k in u && u[k] == t[k])
    && (forall i :: 0 <= i < |rs| ==> id(rs[i]) in u && u[id(rs[i])] == rs[i])
    && (forall k :: k in u ==> k in t || exists i :: 0 <= i < |rs| && id(rs[i]) == k)
  }

  lemma AgreesSnoc<R>(t: map<string, R>, id: R -> string, rs: seq<R>, r: R, storable: R -> bool, u: map<string, R>)
    requires Agrees(t, id, rs, storable) && Extends(t, id, rs, u)
    ensures Agrees(t, id, rs + [r], storable) <==> Insert(u, id(r), r, storable).Some?
  {
    var all := rs + [r];
    var k := id(r);
    if Insert(u, k, r, storable).Some? {
      forall i | 0 <= i < |all| ensures if id(all[i]) in t then t[id(all[i])] == all[i] else storable(all[i]) {
        if i == |rs| && k !in t && k in u {
          var j :| 0 <= j < |rs| && id(rs[j]) == k;
          assert u[id(rs[j])] == rs[j];
        } else if i < |rs| {
          assert all[i] == rs[i];
        }
      }
      forall i, j | 0 <= i < j < |all| && id(all[i]) == id(all[j]) ensures all[i] == all[j] {
        if j == |rs| { assert u[id(rs[i])] == rs[i]; }
      }
    }
    if Agrees(t, id, all, storable) {
      assert all[|rs|] == r;
      if k in u && k !in t {
        var j :| 0 <= j < |rs| && id(rs[j]) == k;
        assert u[id(rs[j])] == rs[j] && all[j] == rs[j];
      }
    }
  }

  lemma ExtendsSnoc<R>(t: map<string, R>, id: R -> string, rs: seq<R>, r: R, storable: R -> bool, u: map<string, R>)
    requires Extends(t, id, rs, u) && Insert(u, id(r), r, storable).Some?
    ensures Extends(t, id, rs + [r], Insert(u, id(r), r, storable).value)
  {
    var v, all := Insert(u, id(r), r, storable).value, rs + [r];
    forall k | k in v ensures k in t || exists i :: 0 <= i < |all| && id(all[i]) == k {
      if k == id(r) {
        assert id(all[|rs|]) == k;
      } else if k !in t {
        var i :| 0 <= i < |rs| && id(rs[i]) == k;
        assert id(all[i]) == k;
      }
    }
  }

  lemma AgreesPrefix<R>(t: map<string, R>, id: R -> string, rs: seq<R>, n: nat, storable: R -> bool)
    requires Agrees(t, id, rs, storable) && n <= |rs|
    ensures Agrees(t, id, rs[..n], storable)
  {
  }

  lemma {:induction false} InsertAllIff<R>(t: map<string, R>, id: R -> string, rs: seq<R>, storable: R -> bool)
    ensures InsertAll(t, id, rs, storable).Some? <==> Agrees(t, id, rs, storable)
    ensures InsertAll(t, id, rs, storable).Some? ==> Extends(t, id, rs, InsertAll(t, id, rs, storable).value)
  {
    if rs == [] {
    } else {
      var n := |rs| - 1;
      InsertAllIff(t, id, rs[..n], storable);
      assert rs == rs[..n] + [rs[n]];
      if Agrees(t, id, rs, storable) { AgreesPrefix(t, id, rs, n, storable); }
      if InsertAll(t, id, rs[..n], storable).Some? {
        var u := InsertAll(t, id, rs[..n], storable).value;
        AgreesSnoc(t, id, rs[..n], rs[n], storable, u);
        if Insert(u, id(rs[n]), rs[n], storable).Some? { ExtendsSnoc(t, id, rs[..n], rs[n], storable, u); }
      }
    }
  }

  lemma ExtendsUnique<R>(t: map<string, R>, id: R -> string, rs: seq<R>, u: map<string, R>, v: map<string, R>)
    requires Extends(t, id, rs, u) && Extends(t, id, rs, v)
    ensures u == v
  {
    assert u.Keys == v.Keys;
  }

  /** Inserting rows that are already there changes nothing. */
  lemma ReinsertNothing<R>(t: map<string, R>, id: R -> string, rs: seq<R>, storable: R -> bool, u: map<string, R>)
    requires InsertAll(t, id, rs, storable) == Some(u)
    ensures InsertAll(u, id, rs, storable) == Some(u)
  {
    InsertAllIff(t, id, rs, storable);
    InsertAllIff(u, id, rs, storable);
    ExtendsUnique(u, id, rs, u, InsertAll(u, id, rs, storable).value);
  }

  /** Two batches that can be inserted in one order can be inserted in the other, with the same table. */
  lemma InsertCommutes<R>(t: map<string, R>, id: R -> string, a: seq<R>, b: seq<R>, storable: R -> bool)
    requires InsertAll(t, id, a, storable).Some?
    requires InsertAll(InsertAll(t, id, a, storable).value, id, b, storable).Some?
    ensures InsertAll(t, id, b, storable).Some?
    ensures InsertAll(InsertAll(t, id, b, storable).value, id, a, storable)
            == InsertAll(InsertAll(t, id, a, storable).value, id, b, storable)
  {
    InsertAllIff(t, id, a, storable);
    var ta := InsertAll(t, id, a, storable).value;
    InsertAllIff(ta, id, b, storable);
    var tab := InsertAll(ta, id, b, storable).value;
    BatchAgrees(t, id, a, b, storable, ta);
    InsertAllIff(t, id, b, storable);
    var tb := InsertAll(t, id, b, storable).value;
    OtherBatchAgrees(t, id, a, b, storable, tb, tab);
    InsertAllIff(tb, id, a, storable);
    var tba := InsertAll(tb, id, a, storable).value;
    SameUnion(t, id, a, b, ta, tab, tb, tba);
  }

  lemma BatchAgrees<R>(t: map<string, R>, id: R -> string, a: seq<R>, b: seq<R>, storable: R -> bool,
                       ta: map<string, R>)
    requires Agrees(t, id, a, storable) && Extends(t, id, a, ta) && Agrees(ta, id, b, storable)
    ensures Agrees(t, id, b, storable)
  {
    forall i | 0 <= i < |b| ensures if id(b[i]) in t then t[id(b[i])] == b[i] else storable(b[i]) {
      if id(b[i]) !in t && id(b[i]) in ta {
        var k :| 0 <= k < |a| && id(a[k]) == id(b[i]);
        assert ta[id(a[k])] == a[k];
      }
    }
  }

  lemma OtherBatchAgrees<R>(t: map<string, R>, id: R -> string, a: seq<R>, b: seq<R>, storable: R -> bool,
                            tb: map<string, R>, tab: map<string, R>)
    requires Agrees(t, id, a, storable) && Extends(t, id, b, tb)
    requires forall i :: 0 <= i < |a| ==> id(a[i]) in tab && tab[id(a[i])] == a[i]
    requires forall i :: 0 <= i < |b| ==> id(b[i]) in tab && tab[id(b[i])] == b[i]
    ensures Agrees(tb, id, a, storable)
  {
    forall i | 0 <= i < |a| ensures if id(a[i]) in tb then tb[id(a[i])] == a[i] else storable(a[i]) {
      if id(a[i]) in tb && id(a[i]) !in t {
        var k :| 0 <= k < |b| && id(b[k]) == id(a[i]);
        assert tb[id(b[k])] == b[k];
      }
    }
  }

  lemma SameUnion<R>(t: map<string, R>, id: R -> string, a: seq<R>, b: seq<R>,
                     ta: map<string, R>, tab: map<string, R>, tb: map<string, R>, tba: map<string, R>)
    requires Extends(t, id, a, ta) && Extends(ta, id, b, tab) && Extends(t, id, b, tb) && Extends(tb, id, a, tba)
    ensures tab == tba
  {
    forall k ensures k in tab <==> k in tba { }
    forall k | k in tab ensures tab[k] == tba[k] {
      if k in t {
        assert ta[k] == t[k] && tb[k] == t[k];
      } else if k in ta {
        var i :| 0 <= i < |a| && id(a[i]) == k;
        assert ta[id(a[i])] == a[i] && tba[id(a[i])] == a[i];
      } else {
        var i :| 0 <= i < |b| && id(b[i]) == k;
        assert tab[id(b[i])] == b[i] && tb[id(b[i])] == b[i];
      }
    }
  }

  // ---- The store's tables ----

  /** canonical_objects, provenance_events, object_provenance and filter_decisions. */
  datatype Tables = Tables(objects: map<string, Obj>, events: map<string, Event>, links: set<(string, string)>,
                           decisions: map<string, Decision>)

  datatype StoreError = InvalidBundle | Rejected | ForeignKey

  /** Whether a row has the columns its INSERT needs. */
  datatype Columns = Columns(object_: Obj -> bool, decision: Decision -> bool)

  datatype Counts = Counts(objects: nat, events: nat, decisions: nat)

  function ObjectKey(): Obj -> string { (o: Obj) => o.objectId }

  function EventKey(): Event -> string { (e: Event) => e.eventId }

  function DecisionKey(): Decision -> string { (d: Decision) => d.decisionId }

  function AnyEvent(): Event -> bool { (e: Event) => true }

  /** The rows of object_provenance that the objects call for. */
  function Links(objs: seq<Obj>): set<(string, string)> {
    set i, pid | 0 <= i < |objs| && pid in ProvenanceOf(objs[i]) :: (objs[i].objectId, pid)
  }

  function NoTables(): Tables {
    Tables(map[], map[], {}, map[])
  }

  predicate ForeignKeysHold(t: Tables) {
    && (forall l :: l in t.links ==> l.0 in t.objects && l.1 in t.events)
    && (forall d :: d in t.decisions ==> t.decisions[d].inputId in t.objects)
  }

  predicate Consistent(t: Tables) {
    && ForeignKeysHold(t)
    && (forall k :: k in t.objects ==> t.objects[k].objectId == k)
  }

  /** `ingest_bundle` as one transaction: the new tables, or an error and no change. */
  function Ingest(cols: Columns, t: Tables, b: Bundle): Result<Tables, StoreError> {
    if !Valid(b) then Err(InvalidBundle)
    else
      var os := InsertAll(t.objects, ObjectKey(), b.objects, cols.object_);
      var es := InsertAll(t.events, EventKey(), b.events, AnyEvent());
      var ds := InsertAll(t.decisions, DecisionKey(), b.decisions, cols.decision);
      if os.None? || es.None? || ds.None? then Err(Rejected)
      else
        var t' := Tables(os.value, es.value, t.links + Links(b.objects), ds.value);
        if ForeignKeysHold(t') then Ok(t') else Err(ForeignKey)
  }

  function CountsOf(t: Tables, t': Tables): Counts {
    Counts(Added(|t.objects|, |t'.objects|), Added(|t.events|, |t'.events|), Added(|t.decisions|, |t'.decisions|))
  }

  function Added(before: nat, after: nat): nat {
    if before <= after then after - before else 0
  }

  predicate Compatible(cols: Columns, t: Tables, b: Bundle) {
    && Agrees(t.objects, ObjectKey(), b.objects, cols.object_)
    && Agrees(t.events, EventKey(), b.events, AnyEvent())
    && Agrees(t.decisions, DecisionKey(), b.decisions, cols.decision)
  }

  /** t' keeps every row of t unchanged and adds exactly the rows of the bundle. */
  ghost predicate Grown(t: Tables, b: Bundle, t': Tables) {
    && Extends(t.objects, ObjectKey(), b.objects, t'.objects)
    && Extends(t.events, EventKey(), b.events, t'.events)
    && Extends(t.decisions, DecisionKey(), b.decisions, t'.decisions)
    && t'.links == t.links + Links(b.objects)
  }

  /** In an accepted bundle, objects with the same id are the same object, so every object's provenance resolves. */
  lemma EveryObjectTraced(b: Bundle, i: nat)
    requires Valid(b) && i < |b.objects|
    requires forall j, k :: 0 <= j < k < |b.objects| && b.objects[j].objectId == b.objects[k].objectId
               ==> b.objects[j] == b.objects[k]
    ensures ProvenanceResolves(b.events, b.objects[i])
  {
    var f := FirstIndex(b.objects, i);
    assert ProvenanceResolves(b.events, b.objects[f]);
  }

  lemma {:induction false} FirstIndex(objs: seq<Obj>, i: nat) returns (f: nat)
    requires i < |objs|
    ensures f <= i && objs[f].objectId == objs[i].objectId && IsFirst(objs, f)
  {
    if IsFirst(objs, i) {
      f := i;
    } else {
      var k :| 0 <= k < i && objs[k].objectId == objs[i].objectId;
      f := FirstIndex(objs, k);
    }
  }

  lemma LinkKept(t: Tables, b: Bundle, t': Tables, i: nat, p: string)
    requires Valid(b) && Grown(t, b, t') && i < |b.objects| && p in ProvenanceOf(b.objects[i])
    requires forall j, k :: 0 <= j < k < |b.objects| && b.objects[j].objectId == b.objects[k].objectId
               ==> b.objects[j] == b.objects[k]
    ensures b.objects[i].objectId in t'.objects && p in t'.events
  {
    assert ObjectKey()(b.objects[i]) in t'.objects;
    EveryObjectTraced(b, i);
    assert Produces(b.events, p, b.objects[i].objectId);
    var e :| e in b.events && e.eventId == p;
    var k :| 0 <= k < |b.events| && b.events[k] == e;
    assert EventKey()(b.events[k]) in t'.events;
  }

  lemma DecisionKept(t: Tables, b: Bundle, t': Tables, d: string)
    requires Valid(b) && Grown(t, b, t') && d in t'.decisions && d !in t.decisions
    ensures t'.decisions[d].inputId in t'.objects
  {
    var i :| 0 <= i < |b.decisions| && DecisionKey()(b.decisions[i]) == d;
    assert b.decisions[i] in b.decisions;
    assert t'.decisions[DecisionKey()(b.decisions[i])] == b.decisions[i];
    var j :| 0 <= j < |b.objects| && b.objects[j].objectId == b.decisions[i].inputId;
    assert ObjectKey()(b.objects[j]) in t'.objects;
  }

  lemma ForeignKeysKept(t: Tables, b: Bundle, t': Tables)
    requires Valid(b) && ForeignKeysHold(t) && Grown(t, b, t')
    requires forall j, k :: 0 <= j < k < |b.objects| && b.objects[j].objectId == b.objects[k].objectId
               ==> b.objects[j] == b.objects[k]
    ensures ForeignKeysHold(t')
  {
    forall l | l in t'.links ensures l.0 in t'.objects && l.1 in t'.events {
      if l !in t.links {
        var i :| 0 <= i < |b.objects| && l.1 in ProvenanceOf(b.objects[i]) && b.objects[i].objectId == l.0;
        LinkKept(t, b, t', i, l.1);
      }
    }
    forall d | d in t'.decisions ensures t'.decisions[d].inputId in t'.objects {
      if d !in t.decisions { DecisionKept(t, b, t', d); }
    }
  }

  /** Ingest succeeds exactly for valid bundles that contradict no stored row; it is then append-only: every old
      row is kept unchanged and exactly the bundle's rows are added. No foreign key can fail. */
  lemma IngestIff(cols: Columns, t: Tables, b: Bundle)
    requires Consistent(t)
    ensures Ingest(cols, t, b).Ok? <==> Valid(b) && Compatible(cols, t, b)
    ensures Ingest(cols, t, b) != Err(ForeignKey)
    ensures Ingest(cols, t, b).Ok? ==> Grown(t, b, Ingest(cols, t, b).value) && Consistent(Ingest(cols, t, b).value)
  {
    InsertAllIff(t.objects, ObjectKey(), b.objects, cols.object_);
    InsertAllIff(t.events, EventKey(), b.events, AnyEvent());
    InsertAllIff(t.decisions, DecisionKey(), b.decisions, cols.decision);
    if Valid(b) && Compatible(cols, t, b) {
      var t' := Tables(InsertAll(t.objects, ObjectKey(), b.objects, cols.object_).value,
                       InsertAll(t.events, EventKey(), b.events, AnyEvent()).value,
                       t.links + Links(b.objects),
                       InsertAll(t.decisions, DecisionKey(), b.decisions, cols.decision).value);
      SameIdSameObject(cols, t, b);
      ForeignKeysKept(t, b, t');
      KeysKept(t, b, t');
    }
  }

  lemma SameIdSameObject(cols: Columns, t: Tables, b: Bundle)
    requires Compatible(cols, t, b)
    ensures forall j, k :: 0 <= j < k < |b.objects| && b.objects[j].objectId == b.objects[k].objectId
              ==> b.objects[j] == b.objects[k]
  {
    assert forall j, k :: 0 <= j < k < |b.objects| && ObjectKey()(b.objects[j]) == ObjectKey()(b.objects[k])
            ==> b.objects[j] == b.objects[k];
    forall j, k | 0 <= j < k < |b.objects| && b.objects[j].objectId == b.objects[k].objectId
      ensures b.objects[j] == b.objects[k]
    {
      assert ObjectKey()(b.objects[j]) == ObjectKey()(b.objects[k]);
    }
  }

  lemma KeysKept(t: Tables, b: Bundle, t': Tables)
    requires Consistent(t) && Grown(t, b, t')
    ensures forall k :: k in t'.objects ==> t'.objects[k].objectId == k
  {
    forall k | k in t'.objects ensures t'.objects[k].objectId == k {
      if k !in t.objects {
        var i :| 0 <= i < |b.objects| && ObjectKey()(b.objects[i]) == k;
        assert t'.objects[ObjectKey()(b.objects[i])] == b.objects[i];
      }
    }
  }

  /** The rows of a bundle, each under its own id, and a link for every provenance id that an object lists. */
  ghost predicate RowsAdded(t: Tables, b: Bundle, u: Tables) {
    && (forall o :: o in b.objects ==> o.objectId in u.objects && u.objects[o.objectId] == o)
    && (forall e :: e in b.events ==> e.eventId in u.events && u.events[e.eventId] == e)
    && (forall d :: d in b.decisions ==> d.decisionId in u.decisions && u.decisions[d.decisionId] == d)
    && (forall id, pid :: (id, pid) in u.links <==>
          (id, pid) in t.links || exists o :: o in b.objects && o.objectId == id && Lists(o, pid))
  }

  predicate Lists(o: Obj, pid: string) {
    o.provenanceIds.Some? && pid in o.provenanceIds.value
  }

  /** Nothing but the rows of the bundle is new, and nothing old is gone or changed. */
  ghost predicate NothingElse(t: Tables, b: Bundle, u: Tables) {
    && (forall k :: k in t.objects ==> k in u.objects && u.objects[k] == t.objects[k])
    && (forall k :: k in t.events ==> k in u.events && u.events[k] == t.events[k])
    && (forall k :: k in t.decisions ==> k in u.decisions && u.decisions[k] == t.decisions[k])
    && (forall k :: k in u.objects ==> k in t.objects || exists o :: o in b.objects && o.objectId == k)
    && (forall k :: k in u.events ==> k in t.events || exists e :: e in b.events && e.eventId == k)
    && (forall k :: k in u.decisions ==> k in t.decisions || exists d :: d in b.decisions && d.decisionId == k)
  }

  lemma ExtendsMembers<R>(t: map<string, R>, id: R -> string, rs: seq<R>, u: map<string, R>)
    requires Extends(t, id, rs, u)
    ensures forall r :: r in rs ==> id(r) in u && u[id(r)] == r
    ensures forall k :: k in t ==> k in u && u[k] == t[k]
    ensures forall k :: k in u ==> k in t || exists r :: r in rs && id(r) == k
  {
    forall r | r in rs ensures id(r) in u && u[id(r)] == r {
      var i :| 0 <= i < |rs| && rs[i] == r;
      assert u[id(rs[i])] == rs[i];
    }
    forall k | k in u && k !in t ensures exists r :: r in rs && id(r) == k {
      var i :| 0 <= i < |rs| && id(rs[i]) == k;
      assert rs[i] in rs;
    }
  }

  lemma LinksAre(objs: seq<Obj>, id: string, pid: string)
    ensures (id, pid) in Links(objs) <==> exists o :: o in objs && o.objectId == id && Lists(o, pid)
  {
    if o :| o in objs && o.objectId == id && Lists(o, pid) {
      var i :| 0 <= i < |objs| && objs[i] == o;
      assert pid in ProvenanceOf(objs[i]);
    }
    if (id, pid) in Links(objs) {
      var i :| 0 <= i < |objs| && pid in ProvenanceOf(objs[i]) && objs[i].objectId == id;
      assert Lists(objs[i], pid);
    }
  }

  /** Row by row and column by column, what a successful ingest leaves in the four tables. */
  lemma IngestedRows(cols: Columns, t: Tables, b: Bundle)
    requires Consistent(t) && Ingest(cols, t, b).Ok?
    ensures RowsAdded(t, b, Ingest(cols, t, b).value) && NothingElse(t, b, Ingest(cols, t, b).value)
  {
    IngestIff(cols, t, b);
    var u := Ingest(cols, t, b).value;
    ExtendsMembers(t.objects, ObjectKey(), b.objects, u.objects);
    ExtendsMembers(t.events, EventKey(), b.events, u.events);
    ExtendsMembers(t.decisions, DecisionKey(), b.decisions, u.decisions);
    RowsByKey(t, b, u);
  }

  lemma RowsByKey(t: Tables, b: Bundle, u: Tables)
    requires forall r :: r in b.objects ==> ObjectKey()(r) in u.objects && u.objects[ObjectKey()(r)] == r
    requires forall r :: r in b.events ==> EventKey()(r) in u.events && u.events[EventKey()(r)] == r
    requires forall r :: r in b.decisions ==> DecisionKey()(r) in u.decisions && u.decisions[DecisionKey()(r)] == r
    requires u.links == t.links + Links(b.objects)
    ensures RowsAdded(t, b, u)
  {
    forall o | o in b.objects ensures o.objectId in u.objects && u.objects[o.objectId] == o {
      assert ObjectKey()(o) == o.objectId;
    }
    forall e | e in b.events ensures e.eventId in u.events && u.events[e.eventId] == e {
      assert EventKey()(e) == e.eventId;
    }
    forall d | d in b.decisions ensures d.decisionId in u.decisions && u.decisions[d.decisionId] == d {
      assert DecisionKey()(d) == d.decisionId;
    }
    forall id, pid ensures (id, pid) in Links(b.objects) <==>
                             exists o :: o in b.objects && o.objectId == id && Lists(o, pid) {
      LinksAre(b.objects, id, pid);
    }
  }

  /** Ingesting a bundle again is a no-op with zero counts. */
  lemma ReingestNothing(cols: Columns, t: Tables, b: Bundle)
    requires Consistent(t) && Ingest(cols, t, b).Ok?
    ensures var t' := Ingest(cols, t, b).value;
            Ingest(cols, t', b) == Ok(t') && CountsOf(t', t') == Counts(0, 0, 0)
  {
    var t' := Ingest(cols, t, b).value;
    ReinsertNothing(t.objects, ObjectKey(), b.objects, cols.object_, t'.objects);
    ReinsertNothing(t.events, EventKey(), b.events, AnyEvent(), t'.events);
    ReinsertNothing(t.decisions, DecisionKey(), b.decisions, cols.decision, t'.decisions);
    assert t'.links + Links(b.objects) == t'.links;
  }

  /** Ingest is confluent: if a and then b can be ingested, so can b and then a, with the same tables. */
  lemma IngestConfluent(cols: Columns, t: Tables, a: Bundle, b: Bundle)
    requires Consistent(t) && Ingest(cols, t, a).Ok? && Ingest(cols, Ingest(cols, t, a).value, b).Ok?
    ensures Ingest(cols, t, b).Ok?
    ensures Ingest(cols, Ingest(cols, t, b).value, a) == Ingest(cols, Ingest(cols, t, a).value, b)
  {
    var ta := Ingest(cols, t, a).value;
    var tab := Ingest(cols, ta, b).value;
    InsertCommutes(t.objects, ObjectKey(), a.objects, b.objects, cols.object_);
    InsertCommutes(t.events, EventKey(), a.events, b.events, AnyEvent());
    InsertCommutes(t.decisions, DecisionKey(), a.decisions, b.decisions, cols.decision);
    assert Ingest(cols, t, b).Ok? by { CompatibleIngests(cols, t, b); }
    var tb := Ingest(cols, t, b).value;
    assert tb.links + Links(a.objects) == ta.links + Links(b.objects);
  }

  lemma CompatibleIngests(cols: Columns, t: Tables, b: Bundle)
    requires Consistent(t) && Valid(b)
    requires InsertAll(t.objects, ObjectKey(), b.objects, cols.object_).Some?
    requires InsertAll(t.events, EventKey(), b.events, AnyEvent()).Some?
    requires InsertAll(t.decisions, DecisionKey(), b.decisions, cols.decision).Some?
    ensures Ingest(cols, t, b).Ok?
  {
    InsertAllIff(t.objects, ObjectKey(), b.objects, cols.object_);
    InsertAllIff(t.events, EventKey(), b.events, AnyEvent());
    InsertAllIff(t.decisions, DecisionKey(), b.decisions, cols.decision);
    IngestIff(cols, t, b);
  }

  // ---- A history of transactions ----

  /** The state after a history of transactions; one that fails leaves the state alone. */
  function RunAll<T, B, E>(step: (T, B) -> Result<T, E>, t: T, bs: seq<B>): T {
    if bs == [] then t
    else
      var before := RunAll(step, t, bs[..|bs| - 1]);
      var outcome := step(before, bs[|bs| - 1]);
      if outcome.Ok? then outcome.value else before
  }

  predicate Accepted<T, B, E>(step: (T, B) -> Result<T, E>, t: T, bs: seq<B>, i: nat)
    requires i < |bs|
  {
    step(RunAll(step, t, bs[..i]), bs[i]).Ok?
  }

  /** Some accepted transaction of the history satisfies brings. */
  ghost predicate Brought<T, B, E>(step: (T, B) -> Result<T, E>, t: T, bs: seq<B>, brings: B -> bool) {
    exists i :: 0 <= i < |bs| && Accepted(step, t, bs, i) && brings(bs[i])
  }

  lemma BroughtSnoc<T, B, E>(step: (T, B) -> Result<T, E>, t: T, bs: seq<B>, brings: B -> bool)
    requires bs != []
    ensures var n := |bs| - 1;
            Brought(step, t, bs, brings)
            <==> Brought(step, t, bs[..n], brings) || (Accepted(step, t, bs, n) && brings(bs[n]))
  {
    var n := |bs| - 1;
    forall i: nat | i < n ensures Accepted(step, t, bs[..n], i) <==> Accepted(step, t, bs, i) {
      assert bs[..n][..i] == bs[..i];
    }
    if Brought(step, t, bs[..n], brings) {
      var i :| 0 <= i < n && Accepted(step, t, bs[..n], i) && brings(bs[..n][i]);
      assert Accepted(step, t, bs, i) && brings(bs[i]);
    }
  }

  /** If each transaction adds exactly what it brings, a history adds exactly what its accepted ones bring. */
  lemma {:induction false} RunAdds<T(!new), B(!new), E>(step: (T, B) -> Result<T, E>, good: T -> bool,
                                                        has: T -> bool, brings: B -> bool, t: T, bs: seq<B>)
    requires good(t)
    requires forall u, b :: good(u) && step(u, b).Ok? ==>
               good(step(u, b).value) && (has(step(u, b).value) <==> has(u) || brings(b))
    ensures good(RunAll(step, t, bs))
    ensures has(RunAll(step, t, bs)) <==> has(t) || Brought(step, t, bs, brings)
  {
    if bs == [] {
      assert RunAll(step, t, bs) == t;
    } else {
      RunAdds(step, good, has, brings, t, bs[..|bs| - 1]);
      BroughtSnoc(step, t, bs, brings);
    }
  }

  lemma RunSnoc<T, B, E>(step: (T, B) -> Result<T, E>, t: T, bs: seq<B>, b: B)
    ensures var before := RunAll(step, t, bs);
            RunAll(step, t, bs + [b]) == if step(before, b).Ok? then step(before, b).value else before
  {
    assert (bs + [b])[..|bs|] == bs;
  }

  function IngestInto(cols: Columns): (Tables, Bundle) -> Result<Tables, StoreError> {
    (t: Tables, b: Bundle) => Ingest(cols, t, b)
  }

  predicate Stored(t: Tables, x: Obj) {
    x.objectId in t.objects && t.objects[x.objectId] == x
  }

  /** Some accepted bundle of the history held object x. */
  ghost predicate Ingested(cols: Columns, t: Tables, bs: seq<Bundle>, x: Obj) {
    Brought(IngestInto(cols), t, bs, (b: Bundle) => x in b.objects)
  }

  lemma NewlyStored(t: Tables, b: Bundle, u: Tables, x: Obj)
    requires Extends(t.objects, ObjectKey(), b.objects, u.objects)
    ensures Stored(u, x) ==> Stored(t, x) || x in b.objects
  {
    if Stored(u, x) && x.objectId !in t.objects {
      var i :| 0 <= i < |b.objects| && ObjectKey()(b.objects[i]) == x.objectId;
      assert u.objects[ObjectKey()(b.objects[i])] == b.objects[i];
    }
  }

  lemma StaysStored(t: Tables, b: Bundle, u: Tables, x: Obj)
    requires Extends(t.objects, ObjectKey(), b.objects, u.objects)
    ensures Stored(t, x) || x in b.objects ==> Stored(u, x)
  {
    if x in b.objects {
      var i :| 0 <= i < |b.objects| && b.objects[i] == x;
      assert ObjectKey()(b.objects[i]) in u.objects && u.objects[ObjectKey()(b.objects[i])] == b.objects[i];
    }
  }

  /** Whatever the history, an object is stored exactly when it was there before or an accepted bundle held it:
      nothing ingested is ever lost or altered, and nothing else appears. */
  lemma StoredIffIngested(cols: Columns, t: Tables, bs: seq<Bundle>, x: Obj)
    requires Consistent(t)
    ensures Consistent(RunAll(IngestInto(cols), t, bs))
    ensures Stored(RunAll(IngestInto(cols), t, bs), x) <==> Stored(t, x) || Ingested(cols, t, bs, x)
  {
    var step := IngestInto(cols);
    var good, has := (u: Tables) => Consistent(u), (u: Tables) => Stored(u, x);
    var brings := (b: Bundle) => x in b.objects;
    forall u, b | good(u) && step(u, b).Ok?
      ensures good(step(u, b).value) && (has(step(u, b).value) <==> has(u) || brings(b))
    {
      IngestIff(cols, u, b);
      NewlyStored(u, b, step(u, b).value, x);
      StaysStored(u, b, step(u, b).value, x);
    }
    RunAdds(step, good, has, brings, t, bs);
  }

  /** The three row loops decide the outcome. */
  lemma LoopsDecide(cols: Columns, t: Tables, b: Bundle, os: Option<map<string, Obj>>, es: Option<map<string, Event>>,
                    ds: Option<map<string, Decision>>)
    requires Consistent(t) && Valid(b)
    requires os == InsertAll(t.objects, ObjectKey(), b.objects, cols.object_)
    requires es == InsertAll(t.events, EventKey(), b.events, AnyEvent())
    requires ds == InsertAll(t.decisions, DecisionKey(), b.decisions, cols.decision)
    ensures os.None? || es.None? || ds.None? ==> Ingest(cols, t, b) == Err(Rejected)
    ensures os.Some? && es.Some? && ds.Some? ==>
              Ingest(cols, t, b) == Ok(Tables(os.value, es.value, t.links + Links(b.objects), ds.value))
              && Consistent(Ingest(cols, t, b).value)
  {
    IngestIff(cols, t, b);
  }

  // ---- The store object ----

  lemma HistoryAccepts(cols: Columns, history: seq<Bundle>, b: Bundle, t: Tables, u: Tables)
    requires t == RunAll(IngestInto(cols), NoTables(), history) && Ingest(cols, t, b) == Ok(u)
    ensures u == RunAll(IngestInto(cols), NoTables(), history + [b])
  {
    RunSnoc(IngestInto(cols), NoTables(), history, b);
  }

  lemma HistoryRefuses(cols: Columns, history: seq<Bundle>, b: Bundle, t: Tables)
    requires t == RunAll(IngestInto(cols), NoTables(), history) && Ingest(cols, t, b).Err?
    ensures t == RunAll(IngestInto(cols), NoTables(), history + [b])
  {
    RunSnoc(IngestInto(cols), NoTables(), history, b);
  }

  /** A row of object_projection; it is never authoritative. */
  datatype ProjectionRow = ProjectionRow(typ: string, status: string, epistemic: string, verification: string,
                                         payload: map<Key, Json>, authoritative: bool)

  function Project(o: Obj): ProjectionRow {
    ProjectionRow(o.typ, o.status, o.epistemic, o.verification, PayloadOf(o), false)
  }

  class Store {
    const columns: Columns
    var objects: map<string, Obj>
    var events: map<string, Event>
    var links: set<(string, string)>
    var decisions: map<string, Decision>
    var projection: map<string, ProjectionRow>
    ghost var history: seq<Bundle>

    function State(): Tables
      reads this
    {
      Tables(objects, events, links, decisions)
    }

    /** `history` lists every bundle offered to the store. */
    ghost predicate Holds()
      reads this
    {
      Consistent(State()) && State() == RunAll(IngestInto(columns), NoTables(), history)
    }

    constructor (cols: Columns)
      ensures Holds() && columns == cols && State() == NoTables() && projection == map[] && history == []
    {
      columns := cols;
      objects, events, links, decisions, projection := map[], map[], {}, map[], map[];
      history := [];
    }

    /** All or nothing: either every row of the bundle is in, or the tables are as before. */
    method IngestBundle(b: Bundle) returns (r: Result<Counts, StoreError>)
      requires Holds()
      modifies this`objects, this`events, this`links, this`decisions, this`history
      ensures Holds() && history == old(history) + [b]
      ensures r.Ok? ==> Ingest(columns, old(State()), b) == Ok(State()) && r.value == CountsOf(old(State()), State())
      ensures r.Err? ==> Ingest(columns, old(State()), b) == Err(r.error) && State() == old(State())
    {
      ghost var t := State();
      var outcome := InsertBundle(columns, State(), b);
      match outcome
      case Err(e) =>
        HistoryRefuses(columns, history, b, t);
        history := history + [b];
        r := Err(e);
      case Ok(p) =>
        HistoryAccepts(columns, history, b, t, p.0);
        Adopt(p.0);
        history := history + [b];
        r := Ok(p.1);
    }

    /** The commit of the transaction. */
    method Adopt(t: Tables)
      modifies this`objects, this`events, this`links, this`decisions
      ensures State() == t
    {
      objects, events, links, decisions := t.objects, t.events, t.links, t.decisions;
    }

    /** `DELETE` and one `INSERT` per canonical object: the projection becomes exactly the image of the objects. */
    method RebuildProjection() returns (rows: nat)
      requires Holds()
      modifies this`projection
      ensures projection == map k | k in objects :: Project(objects[k])
      ensures projection.Keys == objects.Keys
      ensures forall k :: k in objects ==>
                var o, row := objects[k], projection[k];
                && row.typ == o.typ && row.status == o.status && row.epistemic == o.epistemic
                && row.verification == o.verification && row.authoritative == false
                && row.payload == (if o.payload.Some? then o.payload.value else map[])
      ensures rows == |objects|
    {
      projection := map[];
      var todo := objects.Keys;
      while todo != {}
        invariant todo <= objects.Keys
        invariant projection == map k | k in objects && k !in todo :: Project(objects[k])
      {
        var k :| k in todo;
        var o := objects[k];
        projection := projection[o.objectId := Project(o)];
        todo := todo - {k};
      }
      rows := |objects|;
    }

    /** What is read back under an id is exactly what some accepted bundle brought in under it. */
    method GetObject(id: string) returns (o: Option<Obj>)
      requires Holds()
      ensures forall x: Obj ::
                o == Some(x) <==> x.objectId == id && Ingested(columns, NoTables(), history, x)
      ensures o.None? ==> id !in objects
    {
      o := if id in objects then Some(objects[id]) else None;
      forall x: Obj ensures Stored(State(), x) <==> Ingested(columns, NoTables(), history, x) {
        StoredIffIngested(columns, NoTables(), history, x);
      }
    }
  }

  /** The body of the transaction, on a snapshot of the tables. */
  method InsertBundle(cols: Columns, t: Tables, b: Bundle) returns (r: Result<(Tables, Counts), StoreError>)
    requires Consistent(t)
    ensures r.Ok?
            ==> Ingest(cols, t, b) == Ok(r.value.0) && r.value.1 == CountsOf(t, r.value.0) && Consistent(r.value.0)
    ensures r.Err? ==> Ingest(cols, t, b) == Err(r.error)
  {
    var errors := ValidateBundle(b);
    if errors != [] { return Err(InvalidBundle); }
    var os, newObjects := InsertRows(t.objects, ObjectKey(), b.objects, cols.object_);
    var es, newEvents := InsertRows(t.events, EventKey(), b.events, AnyEvent());
    var ds, newDecisions := InsertRows(t.decisions, DecisionKey(), b.decisions, cols.decision);
    LoopsDecide(cols, t, b, os, es, ds);
    if os.None? || es.None? || ds.None? { return Err(Rejected); }
    var t' := Tables(os.value, es.value, t.links + Links(b.objects), ds.value);
    assert CountsOf(t, t') == Counts(newObjects, newEvents, newDecisions);
    r := Ok((t', Counts(newObjects, newEvents, newDecisions)));
  }

  /** The loop of one table: the table and the number of rows inserted, or None when a row is refused. */
  method InsertRows<R(==)>(t: map<string, R>, id: R -> string, rs: seq<R>, storable: R -> bool)
    returns (u: Option<map<string, R>>, count: nat)
    ensures u == InsertAll(t, id, rs, storable)
    ensures u.Some? ==> |t| + count == |u.value|
  {
    var all := t;
    count := 0;
    for i := 0 to |rs|
      invariant InsertAll(t, id, rs[..i], storable) == Some(all)
      invariant |t| + count == |all|
    {
      assert rs[..i + 1][..i] == rs[..i];
      var k := id(rs[i]);
      if k in all {
        if all[k] != rs[i] {
          RefusalStays(t, id, rs, storable, i + 1);
          return None, 0;
        }
      } else {
        if !storable(rs[i]) {
          RefusalStays(t, id, rs, storable, i + 1);
          return None, 0;
        }
        all := all[k := rs[i]];
        count := count + 1;
      }
    }
    assert rs[..|rs|] == rs;
    u := Some(all);
  }

  lemma {:induction false} RefusalStays<R>(t: map<string, R>, id: R -> string, rs: seq<R>, storable: R -> bool, n: nat)
    requires n <= |rs| && InsertAll(t, id, rs[..n], storable).None?
    ensures InsertAll(t, id, rs, storable).None?
    decreases |rs|
  {
    if n == |rs| {
      assert rs[..n] == rs;
    } else {
      assert rs[..|rs| - 1][..n] == rs[..n];
      RefusalStays(t, id, rs[..|rs| - 1], storable, n);
    }
  }
}
