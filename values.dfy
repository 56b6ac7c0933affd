/**
 * The live value model of the script interface: the recursive tagged union
 * `Variant` that parameters and return values of script objects are held in,
 * and the handles to the stateful objects such a value may embed.
 *
 * Only what the packing protocol needs is modelled: the alternatives of the
 * union, the identity of the referenced objects, and the set of objects a
 * value reaches. Numbers are payloads that are only ever copied.
 */
module Values {

  /** A stateful script object. Only its identity matters here. */
  class ObjectHandle {
    constructor () {}
  }

  /**
   * A shared pointer to a script object. It may be empty, like any
   * shared pointer; two references are equal exactly when they point at
   * the same object.
   */
  type ObjectRef = ObjectHandle?

  /** A C++ `int`: 32 bits, two's complement. */
  type Int32 = i: int | -0x8000_0000 <= i < 0x8000_0000

  /** A C++ `double`, kept as its IEEE 754 bit pattern: it is only copied. */
  type Float64 = bv64

  /** Fixed-size vectors of doubles. */
  type Vec2 = s: seq<Float64> | |s| == 2 witness [0, 0]
  type Vec3 = s: seq<Float64> | |s| == 3 witness [0, 0, 0]
  type Vec4 = s: seq<Float64> | |s| == 4 witness [0, 0, 0, 0]

  /**
   * The live value. Its alternatives, in the order of the union: none, bool,
   * int, double, string, vector of int, vector of double, object reference,
   * vector of values, and 2-, 3- and 4-vectors of doubles.
   */
  datatype Variant =
    | None
    | Bool(b: bool)
    | Int(i: Int32)
    | Double(d: Float64)
    | String(s: string)
    | IntVector(ints: seq<Int32>)
    | DoubleVector(doubles: seq<Float64>)
    | Object(ref: ObjectRef)
    | List(elems: seq<Variant>)
    | Vector2d(v2: Vec2)
    | Vector3d(v3: Vec3)
    | Vector4d(v4: Vec4)
  {
    /** The index of the alternative this value holds (boost's `which()`). */
    function Which(): nat {
      match this
      case None => 0
      case Bool(_) => 1
      case Int(_) => 2
      case Double(_) => 3
      case String(_) => 4
      case IntVector(_) => 5
      case DoubleVector(_) => 6
      case Object(_) => 7
      case List(_) => 8
      case Vector2d(_) => 9
      case Vector3d(_) => 10
      case Vector4d(_) => 11
    }
  }

  /** A named parameter set: a string-keyed map of values. */
  type VariantMap = map<string, Variant>

  /** The distinct objects a value references, at any depth. */
  function Refs(v: Variant): set<ObjectRef> {
    match v
    case Object(r) => {r}
    case List(es) => RefsOf(es)
    case _ => {}
  }

  /** The distinct objects referenced by a sequence of values. */
  function RefsOf(es: seq<Variant>): set<ObjectRef> {
    if es == [] then {} else RefsOf(es[..|es| - 1]) + Refs(es[|es| - 1])
  }

  /** The objects referenced by all the values of a named parameter set. */
  function MapRefs(m: VariantMap): set<ObjectRef> {
    set k, r | k in m && r in Refs(m[k]) :: r
  }
}
