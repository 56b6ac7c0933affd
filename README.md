# Variant packing in the script interface

The script interface of the simulator passes parameters between the
coordinating process and the compute processes as `Variant`s. A `Variant` is a
recursive tagged union. It can hold none, bool, int, double, string, vectors of
int or double, 2-, 3- and 4-vectors of doubles, nested vectors of variants, and
references to stateful script objects. An object reference cannot be sent to
another process, so a value is first *packed*. Packing gives a `PackedVariant`,
which has the same alternatives, except that each object reference is replaced
by the object's `ObjectId`. *Unpacking* goes back the other way. It resolves
every id through a table from ids to objects that the caller supplies. The
model covers `src/script_interface/PackedVariant.hpp`: the id of an object, the
packed types, the pack visitor and its object table, the unpack visitor, and
`pack`/`unpack` for single values and for named parameter maps.

The project has three modules:

- `Values` (`values.dfy`): the live `Variant`, object handles (a class, so
  identity is reference identity), `VariantMap`, and `Refs`, the objects a
  value reaches.
- `Packing` (`packing.dfy`) contains:
  - `ObjectId`, a 64-bit `std::size_t`;
  - `PackedVariant` and `PackedMap`;
  - the `PackVisitor` class, whose `objects` field is the visitor's mutable
    table, updated in place;
  - the pure functions `Pack`, `Unpack` and `UnpackList`;
  - `PackMap` and `UnpackMap`, the map-level loops, each proved equal to a
    specification function (`PackedEntries`, `UnpackedEntries`).
- `PackingProperties` (`packing_properties.dfy`): the lemmas. They cover which
  ids a packed value holds, what the visitor's table contains, when unpacking
  succeeds, and round trips in both directions.

`object_id` hashes an object's address. The model makes it a parameter
`objectId: ObjectRef -> ObjectId`. As a function, it always gives the same
object the same id. Distinct objects are not assumed to get distinct ids.
Where that matters, it is an explicit precondition, `InjectiveOn(objectId,
Refs(v))`. `RoundTripNeedsDistinctIds` proves that this precondition is exactly
what the round trip through a fresh visitor's table needs.

On three points the model follows the code as written:

- `pack` returns only the packed value. The visitor's table is discarded,
  including in the map-level `pack`. The table can be reached only through a
  `PackVisitor` driven directly.
- When the visitor meets an id that is already in its table, it overwrites the
  entry with the object it just met (`m_objects[oid] = so_ptr`). It does not
  keep the first one. With distinct ids the result is the same; under a
  collision the last object met wins.
- The map-level `unpack` inserts entries one by one. An entry whose key is
  already present is dropped, so the first entry with a key wins.

## Model

| member | source | states |
|---|---|---|
| Packing.Pack | src/script_interface/PackedVariant.hpp:61-63 | packing keeps the alternative of every value (same `which()` index, with the object reference and id sharing index 7) and keeps the length of a nested vector |
| Packing.PackList | src/script_interface/PackedVariant.hpp:18-21 | a nested vector packs to a vector of the same length and order whose element i is the pack of input element i |
| Packing.PackVisitor.constructor | src/script_interface/PackedVariant.hpp:25-27 | a fresh visitor has an empty object table |
| Packing.PackVisitor.Visit | src/script_interface/PackedVariant.hpp:33-42 | the visitor returns exactly `Pack` of the value and updates its table to `Record` of the old table: every object met stored under its id, in traversal order |
| Packing.PackVisitor.VisitList | src/script_interface/PackedVariant.hpp:32 | the visitor on a vector visits each element in order, returning the packed elements and accumulating every element's objects into the table |
| Packing.Unpack | src/script_interface/PackedVariant.hpp:45-59 | a successful unpack keeps the alternative of every value and the length of a nested vector |
| Packing.UnpackList | src/script_interface/PackedVariant.hpp:52-58 | unpacking a vector succeeds iff every element unpacks, and then gives element i as the unpack of packed element i |
| Packing.PackMap | src/script_interface/PackedVariant.hpp:70-78 | the loop that fills a vector of the map's size returns exactly `PackedEntries`: one (key, packed value) pair per key in iteration order |
| Packing.UnpackMap | src/script_interface/PackedVariant.hpp:80-92 | the insert loop returns exactly `UnpackedEntries`, and fails as soon as one entry fails to unpack |
| Packing.IterationOrderLength | src/script_interface/PackedVariant.hpp:71 | the iteration order of a map has as many entries as the map, so the preallocated vector is exactly filled |
| Packing.UnpackedEntriesFailure | src/script_interface/PackedVariant.hpp:85-89 | if any entry of a packed map fails to unpack, the whole map-level unpack fails with `OutOfRange` |
| PackingProperties.IdsOfSize | src/script_interface/PackedVariant.hpp:13-16 | objects with pairwise distinct ids have as many ids as there are objects |
| PackingProperties.PackedIds | src/script_interface/PackedVariant.hpp:37-42 | the ids in a packed value are exactly the ids of the objects the value references |
| PackingProperties.PackedIdsList | src/script_interface/PackedVariant.hpp:32 | the same for a vector of values |
| PackingProperties.PackWithoutReferences | src/script_interface/PackedVariant.hpp:33-35 | a value without object references packs the same way whatever the id function, holds no id, and unpacks to itself against any table, including an empty one |
| PackingProperties.UnpackSucceedsIff | src/script_interface/PackedVariant.hpp:58 | unpacking succeeds iff every id in the packed value is in the table; otherwise the result is `Failure(OutOfRange)` with no partial value |
| PackingProperties.UnpackListSucceedsIff | src/script_interface/PackedVariant.hpp:52-58 | the same for a vector of packed values |
| PackingProperties.UnpackedRefs | src/script_interface/PackedVariant.hpp:58 | every object in an unpacked value is one of the table's entries |
| PackingProperties.PackThenUnpack | src/script_interface/PackedVariant.hpp:33-42 | unpacking `pack(v)` against a table that maps each of v's objects' ids back to that object gives `v` exactly, with every position holding the same object again |
| PackingProperties.PackThenUnpackList | src/script_interface/PackedVariant.hpp:54-58 | the same for a vector of values |
| PackingProperties.UnpackThenPack | src/script_interface/PackedVariant.hpp:54-58 | against a table whose entries are stored under their own ids, packing the result of a successful unpack gives the packed value back |
| PackingProperties.RecordExtends | src/script_interface/PackedVariant.hpp:39 | visiting a value merges the entries of a fresh visit over the old table: `Record(T, v) == T + Record({}, v)` |
| PackingProperties.RecordListExtends | src/script_interface/PackedVariant.hpp:39 | the same for a vector of values |
| PackingProperties.RecordedTable | src/script_interface/PackedVariant.hpp:27 | a fresh visitor's table has exactly the ids of the objects met as keys, each mapped to one of those objects whose id it is |
| PackingProperties.RecordedTableList | src/script_interface/PackedVariant.hpp:39 | the same for a vector of values |
| PackingProperties.VisitedTable | src/script_interface/PackedVariant.hpp:39 | after a visit, the keys are the old keys plus the ids met; entries under the ids met hold objects met under their own id; every other entry is unchanged |
| PackingProperties.RevisitKeepsTable | src/script_interface/PackedVariant.hpp:39 | visiting objects whose ids are already present does not grow the table, and visiting the same value twice leaves the table as one visit did |
| PackingProperties.TableHoldsEachObjectOnce | src/script_interface/PackedVariant.hpp:27 | with distinct ids the table maps every object met to itself, and a fresh visitor's table has exactly one entry per distinct object, however many times it occurs |
| PackingProperties.RoundTripThroughVisitorTable | src/script_interface/PackedVariant.hpp:37-42 | with distinct ids, unpacking `pack(v)` against the visitor's table gives `v` back, whatever the table held before |
| PackingProperties.RoundTripNeedsDistinctIds | src/script_interface/PackedVariant.hpp:13-16 | the round trip through a fresh visitor's table succeeds iff the objects of the value have distinct ids; under a collision one object is lost |
| PackingProperties.PackedMapShape | src/script_interface/PackedVariant.hpp:70-78 | the packed map has the map's size and exactly its keys; entry i holds the i-th key in iteration order and the pack of its value |
| PackingProperties.UnpackMapSucceedsIff | src/script_interface/PackedVariant.hpp:80-92 | the map-level unpack succeeds iff every entry's ids are all in the table |
| PackingProperties.UnpackMapKeys | src/script_interface/PackedVariant.hpp:83-89 | a successful map-level unpack has exactly the entries' keys |
| PackingProperties.UnpackMapValues | src/script_interface/PackedVariant.hpp:85-89 | under each key, a successful map-level unpack holds the unpack of the first entry with that key; with unique keys, that is every entry's value |
| PackingProperties.PackedEntryUnpacks | src/script_interface/PackedVariant.hpp:74 | each packed entry of a map unpacks to the original value against a resolving table |
| PackingProperties.MapRoundTripSucceeds | src/script_interface/PackedVariant.hpp:80-92 | unpacking a packed map succeeds when the table resolves every object of the map |
| PackingProperties.MapRoundTripAt | src/script_interface/PackedVariant.hpp:80-92 | each key of the map comes back from the round trip with its original value |
| PackingProperties.MapRoundTrip | src/script_interface/PackedVariant.hpp:70-92 | map-level unpack of map-level pack gives the original map back: same key set, same values, same objects |

## Left out

- `std::hash` on pointers is not modelled. `object_id` is the parameter `objectId`, and distinct ids are a stated precondition wherever they are needed.
- `shared_ptr` reference counting and object lifetime are not modelled. An `ObjectRef` is a possibly-null reference to an `ObjectHandle`, compared by identity.
- The script interface's `recursive_visitor` (declared in `Variant.hpp`), dispatched through `boost::apply_visitor`, is not modelled. The recursion is written out as `match` over the datatypes. The vector case is `PackVisitor.VisitList` (first element first) and `UnpackList`.
- The numeric content of doubles and of `Vector2d`/`3d`/`4d` is not modelled. Each double is its 64-bit pattern and is only copied.
- `Variant.hpp` is not part of this model. `Variant` is rebuilt from the alternatives of `PackedVariant`, with the object reference in place of the id.
- `VariantMap` is modelled as a `map<string, Variant>`. The model assumes it is an associative container whose `insert` keeps an existing key. Its iteration order, which the container fixes and the model cannot see, is a parameter `order` of `PackMap`.
- Exceptions other than the `std::out_of_range` from `unordered_map::at`, such as allocation failure, are not modelled. That one error is `Failure(OutOfRange)` and carries no id, as the C++ exception does not.
- `src/core/observables/CylindricalVelocityProfile.hpp` is not modelled: it does floating-point histogram binning over particles, which has nothing to do with packing.
- `src/script_interface/system/initialize.cpp` is not modelled: it only registers classes with an object factory.
- `testsuite/configs/myconfig-restcompile1.h` is not modelled: it holds only preprocessor feature flags.
