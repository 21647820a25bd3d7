/**
 AssetExportCollection: the export group built around one primary asset.
 Construction seeds the member list with the primary, and, for a scriptable
 object exporter and a MonoBehaviour primary, walks the referenced path IDs
 depth-first, pulling in every reachable plain MonoBehaviour of the same
 collection. Afterwards the group answers membership, export-ID and pointer
 queries.
 */
module ExportCollection {
  import opened Wrappers
  import opened Assets

  /** The asset-type discriminator carried by a foreign pointer (AssetType). */
  type AssetType = int

  /** A Unity GUID: four 32-bit words. */
  datatype UnityGuid = UnityGuid(d0: bv32, d1: bv32, d2: bv32, d3: bv32)

  /**
   The exporter the group was created with: whether it is a
   ScriptableObjectExporter, and its ToExportType mapping.
   */
  datatype Exporter = Exporter(isScriptableObjectExporter: bool, toExportType: Asset -> AssetType)

  /** A reference to a member: local to the same file, or foreign (GUID plus type). */
  datatype MetaPtr =
    | LocalPtr(fileId: int)
    | ForeignPtr(fileId: int, guid: UnityGuid, assetType: AssetType)

  datatype Error = InvalidPrimaryObject | NotAMember

  /**
   A built group: the primary asset, the members in discovery order
   (componentArray), the export-ID table keyed by AssetInfo (m_exportIDs), the
   GUID, and the GetMainExportID policy the IDs were computed with.
   */
  datatype Group = Group(
    exporter: Exporter,
    primary: Asset,
    members: seq<Asset>,
    exportIds: map<AssetInfo, int>,
    guid: UnityGuid,
    mainExportId: Asset -> int)

  /** The in-progress state the walk threads through: member list and ID table. */
  datatype Acc = Acc(members: seq<Asset>, ids: map<AssetInfo, int>)

  /** The identity keys of a member list. */
  function Infos(ms: seq<Asset>): set<AssetInfo> {
    set a | a in ms :: a.Info()
  }

  /** GetExportIDHelper: a MonoBehaviour keeps its path ID; anything else asks the policy. */
  function ExportIdOf(a: Asset, mainExportId: Asset -> int): int {
    if a.classId == MonoBehaviourClassId then a.pathId else mainExportId(a)
  }

  /** No two members share an identity key. */
  ghost predicate DistinctInfos(ms: seq<Asset>) {
    forall i, j :: 0 <= i < j < |ms| ==> ms[i].Info() != ms[j].Info()
  }

  /** The ID table has exactly one entry per member, holding that member's export ID. */
  ghost predicate IdsMatch(ms: seq<Asset>, ids: map<AssetInfo, int>, mainExportId: Asset -> int) {
    && ids.Keys == Infos(ms)
    && forall a :: a in ms ==> a.Info() in ids && ids[a.Info()] == ExportIdOf(a, mainExportId)
  }

  ghost predicate AccInv(acc: Acc, mainExportId: Asset -> int) {
    DistinctInfos(acc.members) && IdsMatch(acc.members, acc.ids, mainExportId)
  }

  /** The invariant every constructed group keeps. */
  ghost predicate Valid(g: Group) {
    && |g.members| > 0
    && g.members[0] == g.primary
    && DistinctInfos(g.members)
    && IdsMatch(g.members, g.exportIds, g.mainExportId)
  }

  /** `r` only appended to `acc`'s member list. */
  ghost predicate Extends(acc: Acc, r: Acc) {
    acc.members <= r.members
  }

  /** Every member `acc` did not have is a pulled-in asset of the collection with an earlier referrer. */
  ghost predicate NewMembersSound(coll: seq<Asset>, acc: Acc, r: Acc) {
    && (forall j :: |acc.members| <= j < |r.members| ==> r.members[j] in coll && Eligible(r.members[j]))
    && (forall j {:trigger HasParent(r.members, j)} :: |acc.members| <= j < |r.members| ==> HasParent(r.members, j))
  }

  /** Member `j` is referenced by a member before it. */
  ghost predicate HasParent(ms: seq<Asset>, j: int) {
    exists i :: 0 <= i < j < |ms| && References(ms[i], ms[j])
  }

  /** Every asset of the collection that `x` pulls in is a member of `ms` (by key). */
  ghost predicate Closed(coll: seq<Asset>, x: Asset, ms: seq<Asset>) {
    forall k :: 0 <= k < |coll| && Pulls(x, coll[k]) ==> coll[k].Info() in Infos(ms)
  }

  /** Every member `acc` did not have is closed in `r`. */
  ghost predicate NewMembersClosed(coll: seq<Asset>, acc: Acc, r: Acc) {
    forall j :: |acc.members| <= j < |r.members| ==> Closed(coll, r.members[j], r.members)
  }

  /** The number of collection assets whose key is outside `keys`: the walk's measure. */
  function CountOutside(coll: seq<Asset>, keys: set<AssetInfo>): nat {
    if coll == [] then 0
    else CountOutside(coll[..|coll| - 1], keys) + (if coll[|coll| - 1].Info() in keys then 0 else 1)
  }

  lemma {:induction false} CountOutsideMono(coll: seq<Asset>, k1: set<AssetInfo>, k2: set<AssetInfo>)
    requires k1 <= k2
    ensures CountOutside(coll, k2) <= CountOutside(coll, k1)
  {
    if coll != [] {
      CountOutsideMono(coll[..|coll| - 1], k1, k2);
    }
  }

  lemma {:induction false} CountOutsideStrict(coll: seq<Asset>, k1: set<AssetInfo>, k2: set<AssetInfo>, a: Asset)
    requires k1 <= k2 && a in coll && a.Info() in k2 && a.Info() !in k1
    ensures CountOutside(coll, k2) < CountOutside(coll, k1)
  {
    var init := coll[..|coll| - 1];
    if a == coll[|coll| - 1] {
      CountOutsideMono(init, k1, k2);
    } else {
      assert a in init by {
        var i :| 0 <= i < |coll| && coll[i] == a;
        assert init[i] == a;
      }
      CountOutsideStrict(init, k1, k2, a);
    }
  }

  lemma InfosPrefix(ms: seq<Asset>, ns: seq<Asset>)
    requires ms <= ns
    ensures Infos(ms) <= Infos(ns)
    ensures forall a :: a in ms ==> a in ns
  {
    forall a | a in ms ensures a in ns {
      var i :| 0 <= i < |ms| && ms[i] == a;
      assert ns[i] == a;
    }
  }

  lemma InfosAppend(ms: seq<Asset>, a: Asset)
    ensures Infos(ms + [a]) == Infos(ms) + {a.Info()}
  {
    assert forall x :: x in ms + [a] <==> x in ms || x == a;
  }

  /** Appending a fresh-keyed asset with its export ID keeps the accumulator invariant. */
  lemma AppendKeepsInv(acc: Acc, a: Asset, mainExportId: Asset -> int)
    requires AccInv(acc, mainExportId)
    requires a.Info() !in Infos(acc.members)
    ensures AccInv(Append(acc, a, mainExportId), mainExportId)
  {
    var r := Append(acc, a, mainExportId);
    InfosAppend(acc.members, a);
    forall i, j | 0 <= i < j < |r.members| ensures r.members[i].Info() != r.members[j].Info() {
      if j == |acc.members| {
        assert r.members[i] in acc.members;
      }
    }
    forall x | x in r.members ensures x.Info() in r.ids && r.ids[x.Info()] == ExportIdOf(x, mainExportId) {
      if x != a {
        assert x in acc.members;
      }
    }
  }

  /** components.Add(asset) together with m_exportIDs.Add(asset.AssetInfo, ...). */
  function Append(acc: Acc, a: Asset, mainExportId: Asset -> int): Acc {
    Acc(acc.members + [a], acc.ids[a.Info() := ExportIdOf(a, mainExportId)])
  }

  /** Appending a collection asset whose key is new shrinks the measure. */
  lemma AppendShrinks(coll: seq<Asset>, a: Asset, acc: Acc, mainExportId: Asset -> int)
    requires a in coll && a.Info() !in Infos(acc.members)
    ensures CountOutside(coll, Infos(Append(acc, a, mainExportId).members)) < CountOutside(coll, Infos(acc.members))
  {
    InfosAppend(acc.members, a);
    CountOutsideStrict(coll, Infos(acc.members), Infos(acc.members + [a]), a);
  }

  /** Extending the member list never grows the measure. */
  lemma ExtendsShrinks(coll: seq<Asset>, acc: Acc, r: Acc)
    requires Extends(acc, r)
    ensures CountOutside(coll, Infos(r.members)) <= CountOutside(coll, Infos(acc.members))
  {
    InfosPrefix(acc.members, r.members);
    CountOutsideMono(coll, Infos(acc.members), Infos(r.members));
  }

  /**
   The foreach body's test for one asset: its path ID is referenced, its key is
   not yet a member, and it is eligible.
   */
  predicate Admits(refs: set<int>, acc: Acc, a: Asset) {
    a.pathId in refs && a.Info() !in Infos(acc.members) && Eligible(a)
  }

  /**
   RecursiveAddAssets(b): read b's referenced path IDs (loading an unloaded
   structure); with none, nothing is added; otherwise scan the collection.
   */
  function Walk(coll: seq<Asset>, b: Asset, acc: Acc, mainExportId: Asset -> int): (r: Acc)
    requires b.kind.Behaviour?
    ensures Extends(acc, r)
    ensures RefsOf(b).None? ==> r == acc
    decreases CountOutside(coll, Infos(acc.members)), |coll| + 1
  {
    match RefsOf(b)
    case None => acc
    case Some(refs) => Scan(coll, b, refs, 0, acc, mainExportId)
  }

  /**
   The foreach over the collection in RecursiveAddAssets, from index `i` on:
   an asset whose path ID `b` references and that is not yet a member is
   appended, given its export ID and walked before the scan moves on, provided
   it is eligible; any other asset is skipped.
   */
  function Scan(coll: seq<Asset>, b: Asset, refs: set<int>, i: nat, acc: Acc, mainExportId: Asset -> int): (r: Acc)
    requires i <= |coll|
    requires RefsOf(b) == Some(refs)
    ensures Extends(acc, r)
    decreases CountOutside(coll, Infos(acc.members)), |coll| - i
  {
    if i == |coll| then acc
    else
      var a := coll[i];
      if Admits(refs, acc, a) then
        var acc1 := Append(acc, a, mainExportId);
        AppendShrinks(coll, a, acc, mainExportId);
        var acc2 := Walk(coll, a, acc1, mainExportId);
        ExtendsShrinks(coll, acc1, acc2);
        Scan(coll, b, refs, i + 1, acc2, mainExportId)
      else
        Scan(coll, b, refs, i + 1, acc, mainExportId)
  }

  /**
   The walk keeps members and ID table in one-to-one correspondence with no
   duplicate keys: each asset is appended with its ID only when its key is new.
   */
  lemma {:induction false} WalkKeepsInv(coll: seq<Asset>, b: Asset, acc: Acc, mainExportId: Asset -> int)
    requires b.kind.Behaviour?
    requires AccInv(acc, mainExportId)
    ensures AccInv(Walk(coll, b, acc, mainExportId), mainExportId)
    decreases CountOutside(coll, Infos(acc.members)), |coll| + 1
  {
    match RefsOf(b)
    case None =>
    case Some(refs) =>
      ScanKeepsInv(coll, b, refs, 0, acc, mainExportId);
  }

  lemma {:induction false} ScanKeepsInv(coll: seq<Asset>, b: Asset, refs: set<int>, i: nat, acc: Acc, mainExportId: Asset -> int)
    requires i <= |coll|
    requires RefsOf(b) == Some(refs)
    requires AccInv(acc, mainExportId)
    ensures AccInv(Scan(coll, b, refs, i, acc, mainExportId), mainExportId)
    decreases CountOutside(coll, Infos(acc.members)), |coll| - i
  {
    if i < |coll| {
      var a := coll[i];
      if a.pathId in refs && a.Info() !in Infos(acc.members) && Eligible(a) {
        var acc1 := Append(acc, a, mainExportId);
        AppendShrinks(coll, a, acc, mainExportId);
        AppendKeepsInv(acc, a, mainExportId);
        var acc2 := Walk(coll, a, acc1, mainExportId);
        ExtendsShrinks(coll, acc1, acc2);
        WalkKeepsInv(coll, a, acc1, mainExportId);
        ScanKeepsInv(coll, b, refs, i + 1, acc2, mainExportId);
      } else {
        ScanKeepsInv(coll, b, refs, i + 1, acc, mainExportId);
      }
    }
  }

  /**
   Soundness of the walk: every member it adds is an eligible asset of the
   collection, referenced by a member appended before it.
   */
  lemma {:induction false} WalkSound(coll: seq<Asset>, b: Asset, acc: Acc, mainExportId: Asset -> int)
    requires b.kind.Behaviour?
    requires b in acc.members
    ensures NewMembersSound(coll, acc, Walk(coll, b, acc, mainExportId))
    decreases CountOutside(coll, Infos(acc.members)), |coll| + 1
  {
    match RefsOf(b)
    case None =>
    case Some(refs) =>
      ScanSound(coll, b, refs, 0, acc, mainExportId);
  }

  /** Soundness of the scan from index `i` on. */
  lemma {:induction false} ScanSound(coll: seq<Asset>, b: Asset, refs: set<int>, i: nat, acc: Acc, mainExportId: Asset -> int)
    requires i <= |coll|
    requires RefsOf(b) == Some(refs)
    requires b in acc.members
    ensures NewMembersSound(coll, acc, Scan(coll, b, refs, i, acc, mainExportId))
    decreases CountOutside(coll, Infos(acc.members)), |coll| - i
  {
    if i < |coll| {
      var a := coll[i];
      if a.pathId in refs && a.Info() !in Infos(acc.members) && Eligible(a) {
        var acc1 := Append(acc, a, mainExportId);
        AppendShrinks(coll, a, acc, mainExportId);
        var acc2 := Walk(coll, a, acc1, mainExportId);
        ExtendsShrinks(coll, acc1, acc2);
        WalkSound(coll, a, acc1, mainExportId);
        InfosPrefix(acc1.members, acc2.members);
        ScanSound(coll, b, refs, i + 1, acc2, mainExportId);
        var r := Scan(coll, b, refs, i + 1, acc2, mainExportId);
        ScanStepSound(coll, b, i, acc, acc1, acc2, r);
      } else {
        ScanSound(coll, b, refs, i + 1, acc, mainExportId);
      }
    }
  }

  /** Glue for the appending branch of ScanSound: the three stages compose. */
  lemma ScanStepSound(coll: seq<Asset>, b: Asset, i: nat, acc: Acc, acc1: Acc, acc2: Acc, r: Acc)
    requires i < |coll| && b in acc.members
    requires acc1.members == acc.members + [coll[i]] && Pulls(b, coll[i])
    requires Extends(acc1, acc2) && Extends(acc2, r)
    requires NewMembersSound(coll, acc1, acc2) && NewMembersSound(coll, acc2, r)
    ensures NewMembersSound(coll, acc, r)
  {
    var n := |acc.members|;
    assert r.members[n] == coll[i];
    forall j | n <= j < |r.members|
      ensures r.members[j] in coll && Eligible(r.members[j]) && HasParent(r.members, j)
    {
      if j == n {
        var p :| 0 <= p < n && acc.members[p] == b;
        assert r.members[p] == b;
        if j < |acc2.members| {
          assert acc2.members[j] == coll[i];
        }
      } else if j < |acc2.members| {
        assert r.members[j] == acc2.members[j];
        assert HasParent(acc2.members, j);
        var p :| 0 <= p < j && References(acc2.members[p], acc2.members[j]);
        assert r.members[p] == acc2.members[p];
      }
    }
  }

  /**
   Completeness of the walk: after walking `b`, every asset of the collection
   that `b` pulls in is a member, and so is everything pulled in by a member
   the walk added.
   */
  lemma {:induction false} WalkCloses(coll: seq<Asset>, b: Asset, acc: Acc, mainExportId: Asset -> int)
    requires b.kind.Behaviour?
    ensures NewMembersClosed(coll, acc, Walk(coll, b, acc, mainExportId))
    ensures Closed(coll, b, Walk(coll, b, acc, mainExportId).members)
    decreases CountOutside(coll, Infos(acc.members)), |coll| + 1
  {
    match RefsOf(b)
    case None =>
    case Some(refs) =>
      ScanCloses(coll, b, refs, 0, acc, mainExportId);
  }

  /** Completeness of the scan from index `i` on. */
  lemma {:induction false} ScanCloses(coll: seq<Asset>, b: Asset, refs: set<int>, i: nat, acc: Acc, mainExportId: Asset -> int)
    requires i <= |coll|
    requires RefsOf(b) == Some(refs)
    ensures NewMembersClosed(coll, acc, Scan(coll, b, refs, i, acc, mainExportId))
    ensures forall k :: i <= k < |coll| && Pulls(b, coll[k]) ==>
      coll[k].Info() in Infos(Scan(coll, b, refs, i, acc, mainExportId).members)
    decreases CountOutside(coll, Infos(acc.members)), |coll| - i
  {
    if i < |coll| {
      var a := coll[i];
      var r := Scan(coll, b, refs, i, acc, mainExportId);
      if a.pathId in refs && a.Info() !in Infos(acc.members) && Eligible(a) {
        var acc1 := Append(acc, a, mainExportId);
        AppendShrinks(coll, a, acc, mainExportId);
        var acc2 := Walk(coll, a, acc1, mainExportId);
        ExtendsShrinks(coll, acc1, acc2);
        WalkCloses(coll, a, acc1, mainExportId);
        ScanCloses(coll, b, refs, i + 1, acc2, mainExportId);
        assert r == Scan(coll, b, refs, i + 1, acc2, mainExportId);
        ScanStepCloses(coll, i, acc, acc1, acc2, r);
        CoverageStep(coll, b, i, r);
      } else {
        ScanCloses(coll, b, refs, i + 1, acc, mainExportId);
        assert r == Scan(coll, b, refs, i + 1, acc, mainExportId);
        InfosPrefix(acc.members, r.members);
        assert Pulls(b, a) ==> a.Info() in Infos(acc.members);
        CoverageStep(coll, b, i, r);
      }
    }
  }

  /** The scan's coverage extends from index `i + 1` down to `i`. */
  lemma CoverageStep(coll: seq<Asset>, b: Asset, i: nat, r: Acc)
    requires i < |coll|
    requires Pulls(b, coll[i]) ==> coll[i].Info() in Infos(r.members)
    requires forall k :: i + 1 <= k < |coll| && Pulls(b, coll[k]) ==> coll[k].Info() in Infos(r.members)
    ensures forall k :: i <= k < |coll| && Pulls(b, coll[k]) ==> coll[k].Info() in Infos(r.members)
  {
  }

  /** Glue for the appending branch of ScanCloses. */
  lemma ScanStepCloses(coll: seq<Asset>, i: nat, acc: Acc, acc1: Acc, acc2: Acc, r: Acc)
    requires i < |coll|
    requires acc1.members == acc.members + [coll[i]]
    requires Extends(acc1, acc2) && Extends(acc2, r)
    requires NewMembersClosed(coll, acc1, acc2) && NewMembersClosed(coll, acc2, r)
    requires Closed(coll, coll[i], acc2.members)
    ensures NewMembersClosed(coll, acc, r)
    ensures coll[i].Info() in Infos(r.members)
  {
    InfosPrefix(acc2.members, r.members);
    InfosPrefix(acc1.members, acc2.members);
    var n := |acc.members|;
    assert r.members[n] == coll[i];
    forall j | n <= j < |r.members| ensures Closed(coll, r.members[j], r.members) {
      if j == n {
        assert Closed(coll, coll[i], acc2.members);
      } else if j < |acc2.members| {
        assert r.members[j] == acc2.members[j];
      }
    }
  }

  /**
   Depth-first order of the scan: when the first asset the scan admits from
   index `i` on is `coll[k]`, the scan appends it, walks its whole subtree, and
   only then resumes at `k + 1`; so that subtree's walk is a prefix of the result.
   */
  lemma {:induction false} ScanDescendsFirst(
    coll: seq<Asset>, b: Asset, refs: set<int>, i: nat, acc: Acc, mainExportId: Asset -> int, k: nat)
    requires i <= k < |coll| && RefsOf(b) == Some(refs)
    requires Admits(refs, acc, coll[k])
    requires forall j :: i <= j < k ==> !Admits(refs, acc, coll[j])
    ensures var sub := Walk(coll, coll[k], Append(acc, coll[k], mainExportId), mainExportId);
      && Scan(coll, b, refs, i, acc, mainExportId) == Scan(coll, b, refs, k + 1, sub, mainExportId)
      && sub.members <= Scan(coll, b, refs, i, acc, mainExportId).members
    decreases k - i
  {
    if i < k {
      ScanDescendsFirst(coll, b, refs, i + 1, acc, mainExportId, k);
    }
  }

  /**
   Depth-first order of the walk: the first collection asset `b` admits is
   appended right after the existing members, and everything its own walk adds
   comes before any later sibling.
   */
  lemma WalkDescendsFirst(coll: seq<Asset>, b: Asset, acc: Acc, mainExportId: Asset -> int, k: nat)
    requires b.kind.Behaviour? && RefsOf(b).Some? && k < |coll|
    requires Admits(RefsOf(b).value, acc, coll[k])
    requires forall j :: 0 <= j < k ==> !Admits(RefsOf(b).value, acc, coll[j])
    ensures var sub := Walk(coll, coll[k], Append(acc, coll[k], mainExportId), mainExportId);
      && Walk(coll, b, acc, mainExportId) == Scan(coll, b, RefsOf(b).value, k + 1, sub, mainExportId)
      && acc.members + [coll[k]] <= sub.members <= Walk(coll, b, acc, mainExportId).members
  {
    ScanDescendsFirst(coll, b, RefsOf(b).value, 0, acc, mainExportId, k);
  }

  /** The walk runs only for a ScriptableObjectExporter and a MonoBehaviour primary. */
  predicate Walks(exporter: Exporter, primary: Asset) {
    exporter.isScriptableObjectExporter && primary.kind.Behaviour?
  }

  /**
   The constructor: refuses a scene-object MonoBehaviour as primary; otherwise
   seeds the group with the primary and its export ID and, when `Walks`, adds
   the closure of the primary's references over `coll`, the primary's own
   collection, which therefore holds the primary. `guid` stands for
   UnityGuid.NewGuid().
   */
  function Build(exporter: Exporter, primary: Asset, coll: seq<Asset>, guid: UnityGuid, mainExportId: Asset -> int): (r: Result<Group, Error>)
    requires primary in coll
    ensures r.Failure? <==> primary.kind.Behaviour? && primary.kind.isScene
    ensures r.Failure? ==> r.error == InvalidPrimaryObject
    ensures r.Success? ==>
      && Valid(r.value)
      && r.value.primary == primary
      && r.value.exporter == exporter
      && r.value.guid == guid
      && r.value.mainExportId == mainExportId
    ensures r.Success? && !Walks(exporter, primary) ==> r.value.members == [primary]
    ensures r.Success? ==> r.value.exportIds[primary.Info()] == ExportIdOf(primary, mainExportId)
    ensures r.Success? ==> forall j :: 1 <= j < |r.value.members| ==>
      && r.value.members[j] in coll
      && Eligible(r.value.members[j])
      && r.value.exportIds[r.value.members[j].Info()] == r.value.members[j].pathId
    ensures r.Success? ==>
      forall j {:trigger HasParent(r.value.members, j)} :: 1 <= j < |r.value.members| ==> HasParent(r.value.members, j)
    ensures r.Success? && Walks(exporter, primary) ==>
      forall j :: 0 <= j < |r.value.members| ==> Closed(coll, r.value.members[j], r.value.members)
  {
    if primary.kind.Behaviour? && primary.kind.isScene then
      Failure(InvalidPrimaryObject)
    else
      var seed := Acc([primary], map[primary.Info() := ExportIdOf(primary, mainExportId)]);
      assert AccInv(seed, mainExportId) by {
        assert Infos([primary]) == {primary.Info()};
      }
      if Walks(exporter, primary) then
        var acc := Walk(coll, primary, seed, mainExportId);
        WalkKeepsInv(coll, primary, seed, mainExportId);
        WalkSound(coll, primary, seed, mainExportId);
        WalkClosesFromSeed(coll, primary, seed, mainExportId, acc);
        assert acc.members[0] == primary;
        Success(Group(exporter, primary, acc.members, acc.ids, guid, mainExportId))
      else
        Success(Group(exporter, primary, seed.members, seed.ids, guid, mainExportId))
  }

  /**
   The inclusion rule's "same collection" part: in a well-formed collection
   holding the primary, every member of the group shares the primary's
   collection ID, since the walk only draws from that collection.
   */
  lemma BuildStaysInCollection(
    exporter: Exporter, primary: Asset, coll: seq<Asset>, guid: UnityGuid, mainExportId: Asset -> int)
    requires primary in coll
    requires WellFormedCollection(coll)
    requires Build(exporter, primary, coll, guid, mainExportId).Success?
    ensures var ms := Build(exporter, primary, coll, guid, mainExportId).value.members;
      forall j :: 0 <= j < |ms| ==> ms[j].collectionId == primary.collectionId
  {
  }

  /** Every member of a walked group is closed: glue between Build and WalkCloses. */
  lemma WalkClosesFromSeed(coll: seq<Asset>, primary: Asset, seed: Acc, mainExportId: Asset -> int, r: Acc)
    requires primary.kind.Behaviour?
    requires seed.members == [primary]
    requires r == Walk(coll, primary, seed, mainExportId)
    ensures forall j :: 0 <= j < |r.members| ==> Closed(coll, r.members[j], r.members)
  {
    WalkCloses(coll, primary, seed, mainExportId);
  }

  /** Contains: whether an asset's key has an entry in the export-ID table. */
  function Contains(g: Group, a: Asset): (r: bool)
    requires Valid(g)
    ensures r <==> exists m :: m in g.members && m.Info() == a.Info()
  {
    a.Info() in g.exportIds
  }

  /**
   GetExportID: the ID stored for the asset's key; the dictionary lookup throws
   (NotAMember) for an asset outside the group.
   */
  function GetExportId(g: Group, a: Asset): (r: Result<int, Error>)
    requires Valid(g)
    ensures r.Success? <==> Contains(g, a)
    ensures r.Failure? ==> r.error == NotAMember
    ensures forall m :: m in g.members && m.Info() == a.Info() ==> r == Success(ExportIdOf(m, g.mainExportId))
  {
    if a.Info() in g.exportIds then Success(g.exportIds[a.Info()]) else Failure(NotAMember)
  }

  /**
   CreateExportPointer: the member's export ID, bare when `isLocal`, otherwise
   with the group's GUID and the exporter's type for the primary asset.
   */
  function CreateExportPointer(g: Group, a: Asset, isLocal: bool): (r: Result<MetaPtr, Error>)
    requires Valid(g)
    ensures r.Success? <==> Contains(g, a)
    ensures r.Failure? ==> r.error == NotAMember
    ensures forall m :: m in g.members && m.Info() == a.Info() ==>
      r == Success(
        if isLocal then LocalPtr(ExportIdOf(m, g.mainExportId))
        else ForeignPtr(ExportIdOf(m, g.mainExportId), g.guid, g.exporter.toExportType(g.primary)))
  {
    var id :- GetExportId(g, a);
    Success(if isLocal then LocalPtr(id) else ForeignPtr(id, g.guid, g.exporter.toExportType(g.primary)))
  }

  /** The meta record written beside the exported file: GUID and the importer's main object file ID. */
  datatype Meta = Meta(guid: UnityGuid, mainObjectFileId: int)

  /** What the write step returns and which meta record, if any, it writes. */
  datatype ExportOutcome = ExportOutcome(succeeded: bool, meta: Option<Meta>)

  /**
   Export, abstracted from the file system: `innerSucceeded` is ExportInner's
   result. The meta record is written, and true returned, only when it succeeded.
   */
  function ExportStep(g: Group, innerSucceeded: bool): (r: ExportOutcome)
    requires Valid(g)
    ensures r.succeeded == innerSucceeded
    ensures r.meta.Some? <==> innerSucceeded
    ensures r.meta.Some? ==>
      r.meta.value == Meta(g.guid, ExportIdOf(g.primary, g.mainExportId))
  {
    if innerSucceeded then
      var mainFileId := GetExportId(g, g.primary).value;
      ExportOutcome(true, Some(Meta(g.guid, mainFileId)))
    else
      ExportOutcome(false, None)
  }
}
