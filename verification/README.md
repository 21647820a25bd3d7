# AssetExportCollection export groups, in Dafny

This project models how AssetRipper's Unity-project exporter builds an
`AssetExportCollection`. An asset export collection is the group of assets written into one
output file around a single primary asset. The model covers these steps:

- **Construction.** A MonoBehaviour that is a scene object is refused as a primary. Otherwise
  the group is seeded with the primary and the primary's export ID.
- **The closure walk (`RecursiveAddAssets`).** It runs when the exporter is a
  `ScriptableObjectExporter` and the primary is a MonoBehaviour. It is a depth-first search over
  the primary's collection. The edges are the referenced path IDs (`pathIDS`) in each
  behaviour's serialized structure. A referenced asset joins only if it is a plain
  MonoBehaviour: class ID 114, neither a scriptable object nor a scene object. It is appended
  and given its export ID before the walk descends into it.
- **Export IDs (`GetExportIDHelper`).** A MonoBehaviour keeps its path ID. Any other asset gets
  the main-export-ID policy's value.
- **Queries.** `Contains`, `GetExportID` and `CreateExportPointer` work on the finished group.
- **The write step, reduced to one rule.** The meta file, carrying the GUID and the primary's
  export ID, is written only when the inner export succeeded.

Modules:

- `Wrappers` (wrappers.dfy): `Option` and `Result`.
- `Assets` (assets.dfy): the asset data model. It holds the identity key `AssetInfo` and the
  tagged `Kind`, which is `Ordinary` or `Behaviour(isScriptable, isScene, structure)` and
  stands for the `as IMonoBehaviour` cast. It also holds the three-way `Structure`
  (`Loaded`, `Unloaded` with `LoadStructure()`'s result fixed in advance, `Absent`) and the
  inclusion rule `Eligible`.
- `ExportCollection` (export_collection.dfy): the accumulator, the mutually recursive `Walk`
  and `Scan`, construction, queries and the write step. Termination uses the number of
  collection assets not yet members, then the scan index.
- `Closure` (closure.dfy): an independent description of the member set. It is the least set
  that contains the primary and is closed under "pulls in".
- `Scenarios` (scenarios.dfy): concrete collections that fix exclusion, depth-first order and
  cycle behaviour.

Collaborators the model cannot see are parameters:

- `ExportIdHandler.GetMainExportID` is `mainExportId: Asset -> int`.
- `AssetExporter.ToExportType` is `Exporter.toExportType`.
- Whether the exporter is a `ScriptableObjectExporter` is `Exporter.isScriptableObjectExporter`.
- `UnityGuid.NewGuid()` is the `guid` argument.
- `UnloadedStructure.LoadStructure()` is the payload of `Unloaded`.
- `ExportInner`'s result is the `innerSucceeded` argument.
- The primary's own collection (`Asset.Collection`, which the walk iterates as
  `mainBehaviour.Collection`) is the `coll` argument. `Build` requires it to hold the primary.
  Every asset the walk adds comes from it, so in a well-formed collection every member carries
  the primary's collection ID.

The queries require `Valid(g)`: distinct member keys, and an ID table with exactly one entry per
member holding that member's export ID. `Build` establishes `Valid` for every group it returns.
A `Group` value written out by hand is outside the queries' contracts unless it meets `Valid`.

Two details of the code decide the model's shape:

- The walk runs when the exporter is a `ScriptableObjectExporter` and the primary is an
  `IMonoBehaviour` (`AssetExportCollection.cs:28-34`, `:152`). The primary's own scriptable and
  scene flags are not consulted there. A scene primary is refused earlier, by the constructor.
- The export-ID rule tests `ClassID == MonoBehaviour` (114), not the `IMonoBehaviour` cast. The
  model therefore keeps the class ID apart from the `Kind` that stands for the cast.

## Model

| member | source | states |
|---|---|---|
| Assets.ReferencedPathIds | Source/AssetRipper.Export.UnityProjects/AssetExportCollection.cs:41-52 | A node yields references exactly when it has a loaded structure, or an unloaded one that loads, whose `pathIDS` is non-null. The set yielded is that structure's `pathIDS`. With no structure, or one that fails to load, there are none. |
| Assets.Eligible | Source/AssetRipper.Export.UnityProjects/AssetExportCollection.cs:58-66 | The inclusion rule: class MonoBehaviour, an `IMonoBehaviour`, neither a scriptable object nor a scene object. It has no contract of its own. `ExportCollection.Build`, `ExportCollection.WalkSound` and `ExportCollection.WalkCloses` state it of every added member, in both directions. |
| ExportCollection.ExportIdOf | Source/AssetRipper.Export.UnityProjects/AssetExportCollection.cs:79-87 | The `GetExportIDHelper` rule: the path ID for class 114, the main-export-ID policy otherwise. It has no contract of its own. `ExportCollection.Build` (through `Valid`) and `ExportCollection.GetExportId` state that the ID table holds this value for every member. |
| ExportCollection.Walks | Source/AssetRipper.Export.UnityProjects/AssetExportCollection.cs:28-34 | Whether the constructor walks: a `ScriptableObjectExporter` and an `IMonoBehaviour` primary. It has no contract of its own. `ExportCollection.Build` states that without it the group is `[primary]`, and that with it every member is closed. |
| ExportCollection.Append | Source/AssetRipper.Export.UnityProjects/AssetExportCollection.cs:69-70 | The paired `Add`s: the asset joins the list and its export ID joins the table. It has no contract of its own. `ExportCollection.AppendKeepsInv` states what it preserves. |
| ExportCollection.AppendKeepsInv | Source/AssetRipper.Export.UnityProjects/AssetExportCollection.cs:69-70 | Appending an asset whose key is not yet present, together with its export ID, keeps the invariant: no duplicate keys, and exactly one ID entry per member holding that member's export ID. |
| ExportCollection.Walk | Source/AssetRipper.Export.UnityProjects/AssetExportCollection.cs:39-77 | The walk only appends to the member list; everything already there stays, in order. A node whose structure yields no referenced path IDs adds nothing. |
| ExportCollection.Scan | Source/AssetRipper.Export.UnityProjects/AssetExportCollection.cs:54-74 | The loop over the collection only appends. It terminates even on reference cycles, because each append shrinks the number of collection assets that are not yet members. |
| ExportCollection.Admits | Source/AssetRipper.Export.UnityProjects/AssetExportCollection.cs:56-66 | The loop body's test for one asset: referenced path ID, key not yet a member, eligible. It has no contract of its own. `ExportCollection.ScanDescendsFirst` and `ExportCollection.WalkDescendsFirst` are stated in terms of it. `ExportCollection.ScanSound` and `ExportCollection.ScanCloses` state what it lets in and that it misses nothing. |
| ExportCollection.ScanDescendsFirst | Source/AssetRipper.Export.UnityProjects/AssetExportCollection.cs:54-72 | Depth-first order, over all inputs: if `coll[k]` is the first asset the loop admits from index `i` on, the loop's result equals resuming at `k + 1` after appending `coll[k]` and walking its whole subtree. That subtree's walk is a prefix of the result. |
| ExportCollection.WalkDescendsFirst | Source/AssetRipper.Export.UnityProjects/AssetExportCollection.cs:39-72 | For a node's first admitted asset `coll[k]`: it is appended directly after the existing members, its own walk's additions follow it, and everything any later sibling adds comes after them. Breadth-first or collection-order discovery would break this. |
| ExportCollection.WalkKeepsInv | Source/AssetRipper.Export.UnityProjects/AssetExportCollection.cs:39-77 | The walk keeps the accumulator invariant. No key is appended twice, and members and ID table stay one-to-one with each member's export ID. |
| ExportCollection.ScanKeepsInv | Source/AssetRipper.Export.UnityProjects/AssetExportCollection.cs:54-74 | The same invariant is kept by the loop. The `!components.Contains(asset)` test guards every append. |
| ExportCollection.WalkSound | Source/AssetRipper.Export.UnityProjects/AssetExportCollection.cs:39-77 | Soundness: every member the walk adds is an eligible asset of the collection. It is referenced by a member appended before it. |
| ExportCollection.ScanSound | Source/AssetRipper.Export.UnityProjects/AssetExportCollection.cs:54-74 | Soundness of the loop. An added asset passed the path-ID test and the class and MonoBehaviour tests. Some member earlier in the list references it. |
| ExportCollection.WalkCloses | Source/AssetRipper.Export.UnityProjects/AssetExportCollection.cs:39-77 | Completeness: after walking `b`, every eligible collection asset that `b` references is a member by key. So is every eligible asset referenced by a member the walk added. |
| ExportCollection.ScanCloses | Source/AssetRipper.Export.UnityProjects/AssetExportCollection.cs:54-74 | Completeness of the loop from index `i` on. Every eligible asset at or after `i` that `b` references is a member afterwards, and the members the loop adds are closed. |
| ExportCollection.Build | Source/AssetRipper.Export.UnityProjects/AssetExportCollection.cs:15-37 | Takes a collection that holds the primary, as the primary's own collection (`Asset.Collection`, the `File` property at line 154) does; the walk iterates that same collection. Fails with `InvalidPrimaryObject` exactly when the primary is a scene-object MonoBehaviour. On success: the primary is first, keys are distinct, members and ID map correspond one-to-one, and the primary's ID follows the ID rule. The group is `[primary]` unless the exporter is a ScriptableObjectExporter and the primary a MonoBehaviour. Every later member is an eligible collection asset with an earlier referrer, and its ID is its path ID. When walked, every member is closed. |
| ExportCollection.BuildStaysInCollection | Source/AssetRipper.Export.UnityProjects/AssetExportCollection.cs:54 | The walk iterates the primary's own collection. So in a well-formed collection holding the primary, every member of the group has the primary's collection ID. |
| ExportCollection.Contains | Source/AssetRipper.Export.UnityProjects/AssetExportCollection.cs:109-112 | True exactly when some member has the asset's `AssetInfo` key. |
| ExportCollection.GetExportId | Source/AssetRipper.Export.UnityProjects/AssetExportCollection.cs:114-117 | Succeeds exactly when `Contains` holds, and fails with `NotAMember` otherwise. The ID returned is the matching member's ID under the GetExportIDHelper rule: path ID for class 114, the main-export-ID policy otherwise. |
| ExportCollection.CreateExportPointer | Source/AssetRipper.Export.UnityProjects/AssetExportCollection.cs:119-125 | Fails for a non-member. For a member it gives a local pointer with only the member's export ID when `isLocal` holds. Otherwise it gives a foreign pointer with that ID, the group's GUID and `ToExportType(primary)`. |
| ExportCollection.ExportStep | Source/AssetRipper.Export.UnityProjects/AssetExportCollection.cs:99-106 | Returns the inner export's result. A meta record is written exactly when that succeeded. It carries the GUID and the primary's export ID as the importer's main object file ID. |
| Closure.MembersWithinEveryClosedSet | Source/AssetRipper.Export.UnityProjects/AssetExportCollection.cs:54-72 | Soundness: every member lies in every set that contains the primary and is closed under "pulls in" over the collection. |
| Closure.BuildIsLeastClosure | Source/AssetRipper.Export.UnityProjects/AssetExportCollection.cs:28-77 | For a walked group over a well-formed collection holding the primary, the member set is exactly the least closed set containing the primary, which is the set of assets reachable from the primary. |
| Scenarios.SceneReferenceExcluded | Source/AssetRipper.Export.UnityProjects/AssetExportCollection.cs:56-66 | The primary references 5 and 9, and 9 is a scene object. The group is `[primary, 5]`. |
| Scenarios.DepthFirstOrder | Source/AssetRipper.Export.UnityProjects/AssetExportCollection.cs:69-72 | The primary references 5 and 8, and 5 (through an unloaded structure) references 7. The group is `[primary, 5, 7, 8]`: discovery is depth-first, not collection order. |
| Scenarios.CycleVisitedOnce | Source/AssetRipper.Export.UnityProjects/AssetExportCollection.cs:56 | Two plain behaviours that reference each other each join exactly once: `[primary, B, C]`. |

## Left out

- `Export` path building (lines 91-98) is not modelled: `FixInvalidPathCharacters`, `GetUniqueFileName`, `Directory.CreateDirectory` and the file write are file-system I/O. Only the rule "meta only after a successful inner export" is kept, in `ExportStep`.
- `CreateImporter` (lines 139-148) is reduced to the importer's main object file ID. The `NativeFormatImporter` class and the version-dependent asset bundle name are generated code outside this model.
- `UnityGuid.NewGuid()` is random. The GUID is a parameter instead.
- `GetMainExportID`, `ToExportType` and `LoadStructure` are opaque calls, modelled as parameters or values fixed in advance. `GetBestName` (the `Name` property) and `File` are not modelled.
- `Console.WriteLine` (line 68) is diagnostic output only.
- The `ArgumentNullException` checks (lines 17-18) cannot fail on Dafny datatypes.
- The walk's `components.Contains(asset)` compares object references. The model compares `AssetInfo` keys. The two agree because path IDs are unique within a collection. For the same reason, the `Dictionary.Add` exception on a duplicate key never arises in the model.
- The generic parameter `T` and the runtime casts are replaced by the closed `Kind` variant.
