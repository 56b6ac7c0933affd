/**
 * What the packing protocol guarantees: which ids a packed value holds,
 * what a pack visitor's table contains, when unpacking succeeds, and that
 * unpacking undoes packing (and back) when the ids of the objects involved
 * are distinct.
 */
module PackingProperties {
  import opened Values
  import opened Packing

  /** `objects` maps the id of every object of `refs` back to that object. */
  predicate Resolves(objectId: ObjectIdFn, objects: ObjectTable, refs: set<ObjectRef>) {
    forall r :: r in refs ==> objectId(r) in objects && objects[objectId(r)] == r
  }

  /** Every entry of `objects` is stored under the id of its own object. */
  predicate KeyedById(objectId: ObjectIdFn, objects: ObjectTable) {
    forall i :: i in objects ==> objectId(objects[i]) == i
  }

  /** The names of the entries of a packed map. */
  function KeysOf(v: PackedMap): set<string> {
    set e | e in v :: e.0
  }

  // ---------------------------------------------------------------------
  // Sets of references and of ids

  lemma {:induction false} RefsOfAt(es: seq<Variant>, i: nat)
    requires i < |es|
    ensures Refs(es[i]) <= RefsOf(es)
  {
    if i < |es| - 1 {
      RefsOfAt(es[..|es| - 1], i);
    }
  }

  lemma {:induction false} RefsOfBound(es: seq<Variant>, bound: set<ObjectRef>)
    requires forall i :: 0 <= i < |es| ==> Refs(es[i]) <= bound
    ensures RefsOf(es) <= bound
  {
    if es != [] {
      RefsOfBound(es[..|es| - 1], bound);
    }
  }

  lemma IdsOfUnion(objectId: ObjectIdFn, a: set<ObjectRef>, b: set<ObjectRef>)
    ensures IdsOf(objectId, a + b) == IdsOf(objectId, a) + IdsOf(objectId, b)
  {
  }

  /** Distinct objects with distinct ids have as many ids as objects. */
  lemma {:induction false} IdsOfSize(objectId: ObjectIdFn, refs: set<ObjectRef>)
    requires InjectiveOn(objectId, refs)
    ensures |IdsOf(objectId, refs)| == |refs|
  {
    if refs != {} {
      var r :| r in refs;
      var rest := refs - {r};
      assert InjectiveOn(objectId, rest);
      IdsOfSize(objectId, rest);
      assert objectId(r) !in IdsOf(objectId, rest) by {
        forall s | s in rest ensures objectId(s) != objectId(r) {
          assert s != r;
        }
      }
      assert IdsOf(objectId, refs) == IdsOf(objectId, rest) + {objectId(r)};
    }
  }

  // ---------------------------------------------------------------------
  // Packing

  /** A packed value holds exactly the ids of the objects the value references. */
  lemma {:induction false} PackedIds(objectId: ObjectIdFn, v: Variant)
    ensures Ids(Pack(objectId, v)) == IdsOf(objectId, Refs(v))
    decreases v
  {
    match v
    case Object(r) =>
      assert IdsOf(objectId, {r}) == {objectId(r)};
    case List(es) =>
      PackedIdsList(objectId, es);
    case _ =>
  }

  lemma {:induction false} PackedIdsList(objectId: ObjectIdFn, es: seq<Variant>)
    ensures IdsOfList(PackList(objectId, es)) == IdsOf(objectId, RefsOf(es))
    decreases es
  {
    if es != [] {
      var init, last := es[..|es| - 1], es[|es| - 1];
      var ps := PackList(objectId, es);
      assert ps[..|ps| - 1] == PackList(objectId, init);
      PackedIdsList(objectId, init);
      PackedIds(objectId, last);
      IdsOfUnion(objectId, RefsOf(init), Refs(last));
    }
  }

  /**
   * A value without object references packs to the same thing whatever the
   * ids, holds no id, and unpacks to itself against any table, even an
   * empty one.
   */
  lemma {:induction false} PackWithoutReferences(objectId: ObjectIdFn, other: ObjectIdFn, v: Variant, objects: ObjectTable)
    requires Refs(v) == {}
    ensures Pack(objectId, v) == Pack(other, v)
    ensures Ids(Pack(objectId, v)) == {}
    ensures Unpack(Pack(objectId, v), objects) == Success(v)
    decreases v
  {
    PackedIds(objectId, v);
    PackThenUnpack(objectId, v, objects);
    match v
    case List(es) =>
      forall i | 0 <= i < |es| ensures Pack(objectId, es[i]) == Pack(other, es[i]) {
        RefsOfAt(es, i);
        PackWithoutReferences(objectId, other, es[i], objects);
      }
      assert PackList(objectId, es) == PackList(other, es);
    case _ =>
  }

  // ---------------------------------------------------------------------
  // Unpacking

  /**
   * Unpacking succeeds exactly when the table has every id the packed value
   * holds; otherwise it fails with `OutOfRange` and yields no value.
   */
  lemma {:induction false} UnpackSucceedsIff(p: PackedVariant, objects: ObjectTable)
    ensures Unpack(p, objects).Success? <==> Ids(p) <= objects.Keys
    ensures Unpack(p, objects).Failure? ==> Unpack(p, objects) == Failure(OutOfRange)
    decreases p
  {
    match p
    case List(ps) =>
      UnpackListSucceedsIff(ps, objects);
    case _ =>
  }

  lemma {:induction false} UnpackListSucceedsIff(ps: seq<PackedVariant>, objects: ObjectTable)
    ensures UnpackList(ps, objects).Success? <==> IdsOfList(ps) <= objects.Keys
    ensures UnpackList(ps, objects).Failure? ==> UnpackList(ps, objects) == Failure(OutOfRange)
    decreases ps
  {
    if ps != [] {
      UnpackListSucceedsIff(ps[..|ps| - 1], objects);
      UnpackSucceedsIff(ps[|ps| - 1], objects);
    }
  }

  /** Every object in an unpacked value comes from the table. */
  lemma {:induction false} UnpackedRefs(p: PackedVariant, objects: ObjectTable)
    requires Unpack(p, objects).Success?
    ensures Refs(Unpack(p, objects).value) <= objects.Values
    decreases p
  {
    match p
    case Id(id) =>
    case List(ps) =>
      var vs := Unpack(p, objects).value.elems;
      forall i | 0 <= i < |vs| ensures Refs(vs[i]) <= objects.Values {
        UnpackedRefs(ps[i], objects);
      }
      RefsOfBound(vs, objects.Values);
    case _ =>
  }

  // ---------------------------------------------------------------------
  // Round trips

  /**
   * Unpacking a packed value against a table that maps the id of each of its
   * objects back to that object gives the value back: every position that
   * held an object holds the very same object again.
   */
  lemma {:induction false} PackThenUnpack(objectId: ObjectIdFn, v: Variant, objects: ObjectTable)
    requires Resolves(objectId, objects, Refs(v))
    ensures Unpack(Pack(objectId, v), objects) == Success(v)
    decreases v
  {
    match v
    case Object(r) =>
      assert r in Refs(v);
    case List(es) =>
      PackThenUnpackList(objectId, es, objects);
    case _ =>
  }

  lemma {:induction false} PackThenUnpackList(objectId: ObjectIdFn, es: seq<Variant>, objects: ObjectTable)
    requires Resolves(objectId, objects, RefsOf(es))
    ensures UnpackList(PackList(objectId, es), objects) == Success(es)
    decreases es
  {
    var ps := PackList(objectId, es);
    forall i | 0 <= i < |es| ensures Unpack(ps[i], objects) == Success(es[i]) {
      RefsOfAt(es, i);
      PackThenUnpack(objectId, es[i], objects);
    }
    assert UnpackList(ps, objects).value == es;
  }

  /**
   * The converse: against a table whose entries are keyed by their own ids,
   * packing what unpacking returned gives the packed value back.
   */
  lemma {:induction false} UnpackThenPack(objectId: ObjectIdFn, p: PackedVariant, objects: ObjectTable)
    requires KeyedById(objectId, objects)
    requires Unpack(p, objects).Success?
    ensures Pack(objectId, Unpack(p, objects).value) == p
    decreases p
  {
    match p
    case List(ps) =>
      var vs := Unpack(p, objects).value.elems;
      forall i | 0 <= i < |ps| ensures Pack(objectId, vs[i]) == ps[i] {
        UnpackThenPack(objectId, ps[i], objects);
      }
      assert PackList(objectId, vs) == ps;
    case _ =>
  }

  // ---------------------------------------------------------------------
  // The pack visitor's table

  /** Visiting adds to the table; it never depends on what the table held. */
  lemma {:induction false} RecordExtends(objectId: ObjectIdFn, objects: ObjectTable, v: Variant)
    ensures Record(objectId, objects, v) == objects + Record(objectId, map[], v)
    decreases v
  {
    match v
    case List(es) =>
      RecordListExtends(objectId, objects, es);
    case _ =>
  }

  lemma {:induction false} RecordListExtends(objectId: ObjectIdFn, objects: ObjectTable, es: seq<Variant>)
    ensures RecordList(objectId, objects, es) == objects + RecordList(objectId, map[], es)
    decreases es
  {
    if es != [] {
      var init, last := es[..|es| - 1], es[|es| - 1];
      var before := RecordList(objectId, map[], init);
      RecordListExtends(objectId, objects, init);
      RecordExtends(objectId, objects + before, last);
      RecordExtends(objectId, before, last);
    }
  }

  /**
   * The table a fresh visitor builds has one entry per distinct id of the
   * objects met, and each entry is one of those objects stored under its own
   * id.
   */
  lemma {:induction false} RecordedTable(objectId: ObjectIdFn, v: Variant)
    ensures Record(objectId, map[], v).Keys == IdsOf(objectId, Refs(v))
    ensures forall i :: i in Record(objectId, map[], v) ==>
              Record(objectId, map[], v)[i] in Refs(v) && objectId(Record(objectId, map[], v)[i]) == i
    decreases v
  {
    match v
    case Object(r) =>
      assert IdsOf(objectId, {r}) == {objectId(r)};
    case List(es) =>
      RecordedTableList(objectId, es);
    case _ =>
  }

  lemma {:induction false} RecordedTableList(objectId: ObjectIdFn, es: seq<Variant>)
    ensures RecordList(objectId, map[], es).Keys == IdsOf(objectId, RefsOf(es))
    ensures forall i :: i in RecordList(objectId, map[], es) ==>
              RecordList(objectId, map[], es)[i] in RefsOf(es) && objectId(RecordList(objectId, map[], es)[i]) == i
    decreases es
  {
    if es != [] {
      var init, last := es[..|es| - 1], es[|es| - 1];
      var before := RecordList(objectId, map[], init);
      RecordedTableList(objectId, init);
      RecordedTable(objectId, last);
      RecordExtends(objectId, before, last);
      IdsOfUnion(objectId, RefsOf(init), Refs(last));
    }
  }

  /**
   * After a visit, the table's keys are the old keys plus the ids met; the
   * entries under the ids met are objects met, stored under their own ids,
   * and every other entry is untouched.
   */
  lemma VisitedTable(objectId: ObjectIdFn, objects: ObjectTable, v: Variant)
    ensures Record(objectId, objects, v).Keys == objects.Keys + IdsOf(objectId, Refs(v))
    ensures forall i :: i in IdsOf(objectId, Refs(v)) ==>
              Record(objectId, objects, v)[i] in Refs(v) && objectId(Record(objectId, objects, v)[i]) == i
    ensures forall i :: i in objects && i !in IdsOf(objectId, Refs(v)) ==>
              Record(objectId, objects, v)[i] == objects[i]
  {
    RecordExtends(objectId, objects, v);
    RecordedTable(objectId, v);
  }

  /**
   * Visiting a value again, or any value whose objects' ids are already in
   * the table, does not grow the table; visiting the same value twice leaves
   * the table as one visit did.
   */
  lemma RevisitKeepsTable(objectId: ObjectIdFn, objects: ObjectTable, v: Variant)
    ensures IdsOf(objectId, Refs(v)) <= objects.Keys ==> Record(objectId, objects, v).Keys == objects.Keys
    ensures Record(objectId, Record(objectId, objects, v), v) == Record(objectId, objects, v)
  {
    RecordExtends(objectId, objects, v);
    RecordExtends(objectId, Record(objectId, objects, v), v);
    RecordedTable(objectId, v);
  }

  /**
   * With distinct ids, the table holds every object met under its id and
   * a fresh visitor's table has exactly one entry per distinct object, however
   * often each object occurs.
   */
  lemma TableHoldsEachObjectOnce(objectId: ObjectIdFn, objects: ObjectTable, v: Variant)
    requires InjectiveOn(objectId, Refs(v))
    ensures Resolves(objectId, Record(objectId, objects, v), Refs(v))
    ensures |Record(objectId, map[], v)| == |Refs(v)|
  {
    RecordExtends(objectId, objects, v);
    RecordedTable(objectId, v);
    IdsOfSize(objectId, Refs(v));
    assert |Record(objectId, map[], v)| == |Record(objectId, map[], v).Keys|;
  }

  /**
   * Packing with a visitor and unpacking against the table it built gives
   * the value back, whatever the visitor's table held before, provided the
   * objects of the value have distinct ids.
   */
  lemma RoundTripThroughVisitorTable(objectId: ObjectIdFn, objects: ObjectTable, v: Variant)
    requires InjectiveOn(objectId, Refs(v))
    ensures Unpack(Pack(objectId, v), Record(objectId, objects, v)) == Success(v)
  {
    TableHoldsEachObjectOnce(objectId, objects, v);
    PackThenUnpack(objectId, v, Record(objectId, objects, v));
  }

  /**
   * For a fresh visitor the condition is also necessary: when two distinct
   * objects of the value share an id, the table keeps only one of them and
   * the round trip loses the other.
   */
  lemma RoundTripNeedsDistinctIds(objectId: ObjectIdFn, v: Variant)
    ensures Unpack(Pack(objectId, v), Record(objectId, map[], v)) == Success(v)
            <==> InjectiveOn(objectId, Refs(v))
  {
    var table := Record(objectId, map[], v);
    if InjectiveOn(objectId, Refs(v)) {
      RoundTripThroughVisitorTable(objectId, map[], v);
    } else {
      var a, b :| a in Refs(v) && b in Refs(v) && objectId(a) == objectId(b) && a != b;
      RecordedTable(objectId, v);
      assert objectId(a) in IdsOf(objectId, Refs(v));
      var lost := if table[objectId(a)] == a then b else a;
      if Unpack(Pack(objectId, v), table) == Success(v) {
        UnpackedRefs(Pack(objectId, v), table);
        assert false;
      }
    }
  }

  // ---------------------------------------------------------------------
  // Named parameter sets

  /**
   * `pack` of a map yields one entry per key of the map, in iteration order,
   * each holding the key and the packed value.
   */
  lemma PackedMapShape(objectId: ObjectIdFn, m: VariantMap, order: seq<string>)
    requires IsIterationOrder(m, order)
    ensures |PackedEntries(objectId, m, order)| == |m|
    ensures KeysOf(PackedEntries(objectId, m, order)) == m.Keys
    ensures forall i :: 0 <= i < |order| ==>
              PackedEntries(objectId, m, order)[i] == (order[i], Pack(objectId, m[order[i]]))
  {
    IterationOrderLength(m, order);
    var v := PackedEntries(objectId, m, order);
    forall k | k in m ensures k in KeysOf(v) {
      var i :| 0 <= i < |order| && order[i] == k;
      assert v[i].0 == k;
    }
  }

  /** `unpack` of a packed map succeeds exactly when every entry's ids are in the table. */
  lemma {:induction false} UnpackMapSucceedsIff(v: PackedMap, objects: ObjectTable)
    ensures UnpackedEntries(v, objects).Success? <==>
            forall i :: 0 <= i < |v| ==> Ids(v[i].1) <= objects.Keys
  {
    if v != [] {
      var init := v[..|v| - 1];
      UnpackMapSucceedsIff(init, objects);
      UnpackSucceedsIff(v[|v| - 1].1, objects);
      forall i | 0 <= i < |v| - 1 ensures Unpack(init[i].1, objects).Success? <==> Ids(v[i].1) <= objects.Keys {
        UnpackSucceedsIff(v[i].1, objects);
      }
      if !(forall i :: 0 <= i < |v| ==> Ids(v[i].1) <= objects.Keys) {
        var i :| 0 <= i < |v| && !(Ids(v[i].1) <= objects.Keys);
        UnpackedEntriesFailure(v, i, objects);
      }
    }
  }

  /** Entry `i` is the first entry of `v` with its name. */
  predicate FirstWithName(v: PackedMap, i: nat)
    requires i < |v|
  {
    forall j :: 0 <= j < i ==> v[j].0 != v[i].0
  }

  /** One step of `unpack` of a packed map: the last entry is inserted unless its name is taken. */
  lemma UnpackMapStep(v: PackedMap, objects: ObjectTable)
    requires v != []
    requires UnpackedEntries(v, objects).Success?
    ensures UnpackedEntries(v[..|v| - 1], objects).Success?
    ensures Unpack(v[|v| - 1].1, objects).Success?
    ensures var before := UnpackedEntries(v[..|v| - 1], objects).value;
            var (key, x) := (v[|v| - 1].0, Unpack(v[|v| - 1].1, objects).value);
            UnpackedEntries(v, objects).value == if key in before then before else before[key := x]
  {
  }

  /** A successful `unpack` of a packed map has exactly the entries' names as keys. */
  lemma {:induction false} UnpackMapKeys(v: PackedMap, objects: ObjectTable)
    requires UnpackedEntries(v, objects).Success?
    ensures UnpackedEntries(v, objects).value.Keys == KeysOf(v)
  {
    if v != [] {
      var init := v[..|v| - 1];
      UnpackMapStep(v, objects);
      UnpackMapKeys(init, objects);
      assert v == init + [v[|v| - 1]];
      assert KeysOf(v) == KeysOf(init) + {v[|v| - 1].0};
    }
  }

  /**
   * A successful `unpack` of a packed map holds, under each name, the
   * unpacked value of the first entry with that name; for a packed map with
   * distinct names, every entry's.
   */
  lemma {:induction false} UnpackMapValues(v: PackedMap, objects: ObjectTable, i: nat)
    requires UnpackedEntries(v, objects).Success?
    requires i < |v| && FirstWithName(v, i)
    ensures Unpack(v[i].1, objects).Success?
    ensures v[i].0 in UnpackedEntries(v, objects).value
    ensures UnpackedEntries(v, objects).value[v[i].0] == Unpack(v[i].1, objects).value
  {
    var init := v[..|v| - 1];
    UnpackMapStep(v, objects);
    UnpackMapKeys(init, objects);
    if i < |v| - 1 {
      assert FirstWithName(init, i) by {
        forall j | 0 <= j < i ensures init[j].0 != init[i].0 {
          assert init[j] == v[j] && init[i] == v[i];
        }
      }
      UnpackMapValues(init, objects, i);
    }
  }

  /** Each packed entry of a map unpacks to the entry's original value. */
  lemma PackedEntryUnpacks(objectId: ObjectIdFn, m: VariantMap, order: seq<string>, objects: ObjectTable, i: nat)
    requires IsIterationOrder(m, order)
    requires Resolves(objectId, objects, MapRefs(m))
    requires i < |order|
    ensures Unpack(PackedEntries(objectId, m, order)[i].1, objects) == Success(m[order[i]])
    ensures Ids(PackedEntries(objectId, m, order)[i].1) <= objects.Keys
  {
    var p := PackedEntries(objectId, m, order)[i].1;
    assert Refs(m[order[i]]) <= MapRefs(m);
    PackThenUnpack(objectId, m[order[i]], objects);
    UnpackSucceedsIff(p, objects);
  }

  /** Unpacking a packed map succeeds when the table resolves every object of the map. */
  lemma MapRoundTripSucceeds(objectId: ObjectIdFn, m: VariantMap, order: seq<string>, objects: ObjectTable)
    requires IsIterationOrder(m, order)
    requires Resolves(objectId, objects, MapRefs(m))
    ensures UnpackedEntries(PackedEntries(objectId, m, order), objects).Success?
  {
    var v := PackedEntries(objectId, m, order);
    forall i | 0 <= i < |v| ensures Ids(v[i].1) <= objects.Keys {
      PackedEntryUnpacks(objectId, m, order, objects, i);
    }
    UnpackMapSucceedsIff(v, objects);
  }

  /** The key `k` of the map comes back with its original value. */
  lemma MapRoundTripAt(objectId: ObjectIdFn, m: VariantMap, order: seq<string>, objects: ObjectTable, k: string)
    requires IsIterationOrder(m, order)
    requires Resolves(objectId, objects, MapRefs(m))
    requires UnpackedEntries(PackedEntries(objectId, m, order), objects).Success?
    requires k in m
    ensures k in UnpackedEntries(PackedEntries(objectId, m, order), objects).value
    ensures UnpackedEntries(PackedEntries(objectId, m, order), objects).value[k] == m[k]
  {
    var v := PackedEntries(objectId, m, order);
    var i :| 0 <= i < |order| && order[i] == k;
    assert FirstWithName(v, i);
    UnpackMapValues(v, objects, i);
    PackedEntryUnpacks(objectId, m, order, objects, i);
  }

  /**
   * Packing a map and unpacking the result against a table that resolves
   * every object of the map gives the map back: the same keys, each with its
   * original value.
   */
  lemma MapRoundTrip(objectId: ObjectIdFn, m: VariantMap, order: seq<string>, objects: ObjectTable)
    requires IsIterationOrder(m, order)
    requires Resolves(objectId, objects, MapRefs(m))
    ensures UnpackedEntries(PackedEntries(objectId, m, order), objects) == Success(m)
  {
    var v := PackedEntries(objectId, m, order);
    MapRoundTripSucceeds(objectId, m, order, objects);
    var r := UnpackedEntries(v, objects).value;
    UnpackMapKeys(v, objects);
    PackedMapShape(objectId, m, order);
    assert r.Keys == m.Keys;
    forall k | k in m ensures r[k] == m[k] {
      MapRoundTripAt(objectId, m, order, objects, k);
    }
    assert r == m;
  }
}
