/**
 The part of the asset object model that the export-group builder looks at:
 identity keys, class IDs, the MonoBehaviour capability and the referenced
 path IDs held in a behaviour's serialized structure.
 */
module Assets {
  import opened Wrappers

  /** Unity's class ID for MonoBehaviour (ClassIDType.MonoBehaviour). */
  const MonoBehaviourClassId: int := 114

  /**
   The `Structure` property of a MonoBehaviour.
   - Loaded: a SerializableStructure whose `pathIDS` set may be null;
   - Unloaded: an UnloadedStructure; `loadResult` is what LoadStructure()
     returns (null, or a structure whose `pathIDS` may be null), fixed in advance;
   - Absent: null, or a structure of any other kind.
   */
  datatype Structure =
    | Loaded(pathIds: Option<set<int>>)
    | Unloaded(loadResult: Option<Option<set<int>>>)
    | Absent

  /** Whether an asset is an IMonoBehaviour, and if so its behaviour-specific state. */
  datatype Kind =
    | Ordinary
    | Behaviour(isScriptable: bool, isScene: bool, structure: Structure)

  /** The identity key of an asset: its collection and its path ID in that collection. */
  datatype AssetInfo = AssetInfo(collectionId: int, pathId: int)

  /** A persisted object of one asset collection. */
  datatype Asset = Asset(collectionId: int, pathId: int, classId: int, kind: Kind) {
    function Info(): AssetInfo {
      AssetInfo(collectionId, pathId)
    }
  }

  /**
   The referenced path IDs a structure yields: a loaded structure's own set, or
   the set of the structure an unloaded one loads into; None when there is no
   structure, it does not load, or its set is null.
   */
  function ReferencedPathIds(s: Structure): (r: Option<set<int>>)
    ensures r.Some? <==>
      || (s.Loaded? && s.pathIds.Some?)
      || (s.Unloaded? && s.loadResult.Some? && s.loadResult.value.Some?)
    ensures r.Some? ==> s == Loaded(r) || s == Unloaded(Some(r))
  {
    match s
    case Loaded(ids) => ids
    case Unloaded(Some(ids)) => ids
    case Unloaded(None) => None
    case Absent => None
  }

  /** The path IDs an asset's serialized data points at; only behaviours have any. */
  function RefsOf(a: Asset): Option<set<int>> {
    if a.kind.Behaviour? then ReferencedPathIds(a.kind.structure) else None
  }

  /** `x`'s serialized structure references the path ID of `y`. */
  predicate References(x: Asset, y: Asset) {
    RefsOf(x).Some? && y.pathId in RefsOf(x).value
  }

  /**
   The inclusion rule for a referenced asset: a plain MonoBehaviour, that is,
   of class MonoBehaviour, an IMonoBehaviour, neither a scriptable object nor a
   scene object.
   */
  predicate Eligible(a: Asset) {
    && a.classId == MonoBehaviourClassId
    && a.kind.Behaviour?
    && !a.kind.isScriptable
    && !a.kind.isScene
  }

  /** `x` pulls `y` into its export group: `y` is eligible and `x` references it. */
  predicate Pulls(x: Asset, y: Asset) {
    Eligible(y) && References(x, y)
  }

  /** A collection as its owner guarantees it: one collection ID, unique path IDs. */
  ghost predicate WellFormedCollection(coll: seq<Asset>) {
    && (forall i, j :: 0 <= i < |coll| && 0 <= j < |coll| ==> coll[i].collectionId == coll[j].collectionId)
    && (forall i, j :: 0 <= i < j < |coll| ==> coll[i].pathId != coll[j].pathId)
  }
}
