/**
 * The packing protocol of the script interface: a live `Variant`, which may
 * hold references to script objects, is turned into a `PackedVariant`, which
 * holds object ids in their place and may be copied or sent to another
 * process; unpacking resolves the ids through an id-to-object table.
 */
module Packing {
  import opened Values

  /** A `std::size_t` on a 64-bit platform. */
  type ObjectId = i: int | 0 <= i < 0x1_0000_0000_0000_0000

  /**
   * `object_id`: the hash of the address of the referenced object. It is a
   * parameter of the model, so the same object always gets the same id, but
   * nothing says that different objects get different ids: `InjectiveOn`
   * states that where it is needed.
   */
  type ObjectIdFn = ObjectRef -> ObjectId

  /** No two distinct objects of `refs` share an id. */
  predicate InjectiveOn(objectId: ObjectIdFn, refs: set<ObjectRef>) {
    forall a, b :: a in refs && b in refs && objectId(a) == objectId(b) ==> a == b
  }

  /** The ids of a set of objects. */
  function IdsOf(objectId: ObjectIdFn, refs: set<ObjectRef>): set<ObjectId> {
    set r | r in refs :: objectId(r)
  }

  /** The table from ids to objects that packing fills and unpacking reads. */
  type ObjectTable = map<ObjectId, ObjectRef>

  /**
   * The transmittable value: the live value's alternatives in the same order,
   * except that an object reference is replaced by its id.
   */
  datatype PackedVariant =
    | None
    | Bool(b: bool)
    | Int(i: Int32)
    | Double(d: Float64)
    | String(s: string)
    | IntVector(ints: seq<Int32>)
    | DoubleVector(doubles: seq<Float64>)
    | Id(id: ObjectId)
    | List(elems: seq<PackedVariant>)
    | Vector2d(v2: Vec2)
    | Vector3d(v3: Vec3)
    | Vector4d(v4: Vec4)
  {
    /** The index of the alternative this value holds (boost's `which()`). */
    function Which(): nat {
      match this
      case None => 0
      case Bool(_) => 1
      case Int(_) => 2
      case Double(_) => 3
      case String(_) => 4
      case IntVector(_) => 5
      case DoubleVector(_) => 6
      case Id(_) => 7
      case List(_) => 8
      case Vector2d(_) => 9
      case Vector3d(_) => 10
      case Vector4d(_) => 11
    }
  }

  /** A packed parameter set: (name, packed value) pairs in iteration order. */
  type PackedMap = seq<(string, PackedVariant)>

  /** The only error: `unordered_map::at` throws `std::out_of_range`. */
  datatype Error = OutOfRange

  datatype Result<T> = Success(value: T) | Failure(error: Error)

  /** The ids a packed value holds, at any depth. */
  function Ids(p: PackedVariant): set<ObjectId> {
    match p
    case Id(id) => {id}
    case List(ps) => IdsOfList(ps)
    case _ => {}
  }

  function IdsOfList(ps: seq<PackedVariant>): set<ObjectId> {
    if ps == [] then {} else IdsOfList(ps[..|ps| - 1]) + Ids(ps[|ps| - 1])
  }

  // ---------------------------------------------------------------------
  // Packing

  /**
   * `pack` of a value: every alternative is copied unchanged, except that an
   * object reference becomes its id. The visitor's table is thrown away.
   */
  function Pack(objectId: ObjectIdFn, v: Variant): (r: PackedVariant)
    ensures r.Which() == v.Which()
    ensures v.List? ==> |r.elems| == |v.elems|
  {
    match v
    case None => PackedVariant.None
    case Bool(b) => PackedVariant.Bool(b)
    case Int(i) => PackedVariant.Int(i)
    case Double(d) => PackedVariant.Double(d)
    case String(s) => PackedVariant.String(s)
    case IntVector(ints) => PackedVariant.IntVector(ints)
    case DoubleVector(doubles) => PackedVariant.DoubleVector(doubles)
    case Object(ref) => PackedVariant.Id(objectId(ref))
    case List(es) => PackedVariant.List(PackList(objectId, es))
    case Vector2d(v2) => PackedVariant.Vector2d(v2)
    case Vector3d(v3) => PackedVariant.Vector3d(v3)
    case Vector4d(v4) => PackedVariant.Vector4d(v4)
  }

  /** Packing a vector of values packs each element, keeping length and order. */
  function PackList(objectId: ObjectIdFn, es: seq<Variant>): (rs: seq<PackedVariant>)
    ensures |rs| == |es|
    ensures forall i :: 0 <= i < |es| ==> rs[i] == Pack(objectId, es[i])
  {
    if es == [] then [] else PackList(objectId, es[..|es| - 1]) + [Pack(objectId, es[|es| - 1])]
  }

  /**
   * What visiting `v` does to a pack visitor's table: every object reference
   * met, in traversal order, is stored under its id, replacing whatever that
   * id held before.
   */
  function Record(objectId: ObjectIdFn, objects: ObjectTable, v: Variant): ObjectTable
    decreases v
  {
    match v
    case Object(ref) => objects[objectId(ref) := ref]
    case List(es) => RecordList(objectId, objects, es)
    case _ => objects
  }

  function RecordList(objectId: ObjectIdFn, objects: ObjectTable, es: seq<Variant>): ObjectTable
    decreases es
  {
    if es == [] then objects
    else Record(objectId, RecordList(objectId, objects, es[..|es| - 1]), es[|es| - 1])
  }

  /**
   * The pack visitor. It packs a value like `Pack` and, as a side effect,
   * records every object it meets in its table `objects`, which is the only
   * way to obtain that table.
   */
  class PackVisitor {
    const objectId: ObjectIdFn
    var objects: ObjectTable

    constructor (objectId: ObjectIdFn)
      ensures this.objectId == objectId
      ensures objects == map[]
    {
      this.objectId := objectId;
      objects := map[];
    }

    method Visit(v: Variant) returns (p: PackedVariant)
      modifies this
      decreases v
      ensures p == Pack(objectId, v)
      ensures objects == Record(objectId, old(objects), v)
    {
      match v {
        case None => p := PackedVariant.None;
        case Bool(b) => p := PackedVariant.Bool(b);
        case Int(i) => p := PackedVariant.Int(i);
        case Double(d) => p := PackedVariant.Double(d);
        case String(s) => p := PackedVariant.String(s);
        case IntVector(ints) => p := PackedVariant.IntVector(ints);
        case DoubleVector(doubles) => p := PackedVariant.DoubleVector(doubles);
        case Object(ref) =>
          var oid := objectId(ref);
          objects := objects[oid := ref];
          p := PackedVariant.Id(oid);
        case List(es) =>
          var ps := VisitList(es);
          p := PackedVariant.List(ps);
        case Vector2d(v2) => p := PackedVariant.Vector2d(v2);
        case Vector3d(v3) => p := PackedVariant.Vector3d(v3);
        case Vector4d(v4) => p := PackedVariant.Vector4d(v4);
      }
    }

    /** The visitor on a vector of values: each element in turn, first to last. */
    method VisitList(es: seq<Variant>) returns (ps: seq<PackedVariant>)
      modifies this
      decreases es
      ensures ps == PackList(objectId, es)
      ensures objects == RecordList(objectId, old(objects), es)
    {
      ps := [];
      var i := 0;
      while i < |es|
        invariant 0 <= i <= |es|
        invariant ps == PackList(objectId, es[..i])
        invariant objects == RecordList(objectId, old(objects), es[..i])
      {
        var q := Visit(es[i]);
        assert es[..i + 1][..i] == es[..i];
        ps := ps + [q];
        i := i + 1;
      }
      assert es[..i] == es;
    }
  }

  // ---------------------------------------------------------------------
  // Unpacking

  /**
   * `unpack` of a value: every alternative is copied unchanged, except that an
   * id is replaced by the table's object for it. An id missing from the table
   * makes the whole call fail. The table is only read.
   */
  function Unpack(p: PackedVariant, objects: ObjectTable): (r: Result<Variant>)
    ensures r.Success? ==> r.value.Which() == p.Which()
    ensures r.Success? && p.List? ==> |r.value.elems| == |p.elems|
  {
    match p
    case None => Success(Variant.None)
    case Bool(b) => Success(Variant.Bool(b))
    case Int(i) => Success(Variant.Int(i))
    case Double(d) => Success(Variant.Double(d))
    case String(s) => Success(Variant.String(s))
    case IntVector(ints) => Success(Variant.IntVector(ints))
    case DoubleVector(doubles) => Success(Variant.DoubleVector(doubles))
    case Id(id) => if id in objects then Success(Variant.Object(objects[id])) else Failure(OutOfRange)
    case List(ps) =>
      (match UnpackList(ps, objects)
       case Success(vs) => Success(Variant.List(vs))
       case Failure(e) => Failure(e))
    case Vector2d(v2) => Success(Variant.Vector2d(v2))
    case Vector3d(v3) => Success(Variant.Vector3d(v3))
    case Vector4d(v4) => Success(Variant.Vector4d(v4))
  }

  /**
   * Unpacking a vector of packed values, first element first: it succeeds
   * exactly when every element does, and then holds their values in order.
   */
  function UnpackList(ps: seq<PackedVariant>, objects: ObjectTable): (r: Result<seq<Variant>>)
    ensures r.Success? <==> forall i :: 0 <= i < |ps| ==> Unpack(ps[i], objects).Success?
    ensures r.Success? ==> |r.value| == |ps|
    ensures r.Success? ==> forall i :: 0 <= i < |ps| ==> r.value[i] == Unpack(ps[i], objects).value
  {
    if ps == [] then Success([])
    else
      match UnpackList(ps[..|ps| - 1], objects)
      case Failure(e) => Failure(e)
      case Success(vs) =>
        match Unpack(ps[|ps| - 1], objects)
        case Failure(e) => Failure(e)
        case Success(x) => Success(vs + [x])
  }

  // ---------------------------------------------------------------------
  // Named parameter sets

  /** `order` lists every key of `m` exactly once: the map's iteration order. */
  predicate IsIterationOrder(m: VariantMap, order: seq<string>) {
    && (forall i, j :: 0 <= i < j < |order| ==> order[i] != order[j])
    && (forall k :: k in m ==> k in order)
    && (forall k :: k in order ==> k in m)
  }

  /** What `pack` of a map returns: each entry packed, in iteration order. */
  function PackedEntries(objectId: ObjectIdFn, m: VariantMap, order: seq<string>): (r: PackedMap)
    requires forall k :: k in order ==> k in m
  {
    seq(|order|, i requires 0 <= i < |order| => (order[i], Pack(objectId, m[order[i]])))
  }

  /**
   * What `unpack` of a packed map returns: the entries are unpacked first to
   * last and inserted into an empty map; an insert whose key is already
   * present leaves the map as it is, and the first entry that fails to unpack
   * makes the whole call fail.
   */
  function UnpackedEntries(v: PackedMap, objects: ObjectTable): Result<VariantMap> {
    if v == [] then Success(map[])
    else
      match UnpackedEntries(v[..|v| - 1], objects)
      case Failure(e) => Failure(e)
      case Success(m) =>
        var (key, p) := v[|v| - 1];
        match Unpack(p, objects)
        case Failure(e) => Failure(e)
        case Success(x) => Success(if key in m then m else m[key := x])
  }

  /** `pack` of a map: a vector of the map's size, filled entry by entry. */
  method PackMap(objectId: ObjectIdFn, m: VariantMap, order: seq<string>) returns (r: PackedMap)
    requires IsIterationOrder(m, order)
    ensures r == PackedEntries(objectId, m, order)
  {
    IterationOrderLength(m, order);
    var ret := new (string, PackedVariant)[|m|];
    var i := 0;
    while i < |order|
      invariant 0 <= i <= |order|
      invariant forall j :: 0 <= j < i ==> ret[j] == (order[j], Pack(objectId, m[order[j]]))
    {
      var key := order[i];
      ret[i] := (key, Pack(objectId, m[key]));
      i := i + 1;
    }
    r := ret[..];
  }

  /** `unpack` of a packed map: entries are inserted one by one. */
  method UnpackMap(v: PackedMap, objects: ObjectTable) returns (r: Result<VariantMap>)
    ensures r == UnpackedEntries(v, objects)
  {
    var ret: VariantMap := map[];
    var i := 0;
    while i < |v|
      invariant 0 <= i <= |v|
      invariant UnpackedEntries(v[..i], objects) == Success(ret)
    {
      var (key, p) := v[i];
      assert v[..i + 1][..i] == v[..i];
      var x := Unpack(p, objects);
      if x.Failure? {
        UnpackedEntriesFailure(v, i, objects);
        return Failure(x.error);
      }
      if key !in ret {
        ret := ret[key := x.value];
      }
      i := i + 1;
    }
    assert v[..i] == v;
    r := Success(ret);
  }

  /** An iteration order is as long as the map it orders. */
  lemma {:induction false} IterationOrderLength(m: VariantMap, order: seq<string>)
    requires IsIterationOrder(m, order)
    ensures |order| == |m|
  {
    if order == [] {
      assert m.Keys == {};
    } else {
      var last := order[|order| - 1];
      var init := order[..|order| - 1];
      var rest := m - {last};
      forall k ensures k in rest <==> k in init {
        if k in init {
          var j :| 0 <= j < |init| && init[j] == k;
          assert order[j] != last;
        }
      }
      IterationOrderLength(rest, init);
    }
  }

  /** Once an entry fails to unpack, so does the whole packed map. */
  lemma {:induction false} UnpackedEntriesFailure(v: PackedMap, i: nat, objects: ObjectTable)
    requires i < |v|
    requires Unpack(v[i].1, objects).Failure?
    ensures UnpackedEntries(v, objects) == Failure(OutOfRange)
  {
    if i < |v| - 1 {
      UnpackedEntriesFailure(v[..|v| - 1], i, objects);
    }
  }
}
