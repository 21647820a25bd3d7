/** Concrete groups built from small collections, fixing exclusions, discovery order and cycles. */
module Scenarios {
  import opened Wrappers
  import opened Assets
  import opened ExportCollection

  const Guid: UnityGuid := UnityGuid(1, 2, 3, 4)
  const SoExporter: Exporter := Exporter(true, (a: Asset) => 2)

  function NoPolicy(a: Asset): int { 0 }

  /** A plain MonoBehaviour of collection 7 whose structure is already loaded. */
  function Plain(pathId: int, refs: Option<set<int>>): Asset {
    Asset(7, pathId, MonoBehaviourClassId, Behaviour(false, false, Loaded(refs)))
  }

  /** A scriptable MonoBehaviour of collection 7, the usual primary. */
  function ScriptablePrimary(pathId: int, refs: set<int>): Asset {
    Asset(7, pathId, MonoBehaviourClassId, Behaviour(true, false, Loaded(Some(refs))))
  }

  /** The accumulator the constructor starts from. */
  function Seed(p: Asset): Acc {
    Acc([p], map[p.Info() := ExportIdOf(p, NoPolicy)])
  }

  /** A scan from `i` that meets no appendable asset leaves the accumulator as it is. */
  lemma {:induction false} ScanAddsNothing(coll: seq<Asset>, b: Asset, refs: set<int>, i: nat, acc: Acc)
    requires i <= |coll| && RefsOf(b) == Some(refs)
    requires forall k :: i <= k < |coll| ==>
      coll[k].pathId !in refs || coll[k].Info() in Infos(acc.members) || !Eligible(coll[k])
    ensures Scan(coll, b, refs, i, acc, NoPolicy) == acc
    decreases |coll| - i
  {
    if i < |coll| {
      ScanAddsNothing(coll, b, refs, i + 1, acc);
    }
  }

  /** The scan meets an appendable asset at `i`: append it, walk it, go on from `i + 1`. */
  lemma ScanAppends(coll: seq<Asset>, b: Asset, refs: set<int>, i: nat, acc: Acc)
    requires i < |coll| && RefsOf(b) == Some(refs)
    requires coll[i].pathId in refs && coll[i].Info() !in Infos(acc.members) && Eligible(coll[i])
    ensures Scan(coll, b, refs, i, acc, NoPolicy) ==
      Scan(coll, b, refs, i + 1, Walk(coll, coll[i], Append(acc, coll[i], NoPolicy), NoPolicy), NoPolicy)
  {
  }

  /** The scan skips the asset at `i`. */
  lemma ScanSkips(coll: seq<Asset>, b: Asset, refs: set<int>, i: nat, acc: Acc)
    requires i < |coll| && RefsOf(b) == Some(refs)
    requires coll[i].pathId !in refs || coll[i].Info() in Infos(acc.members) || !Eligible(coll[i])
    ensures Scan(coll, b, refs, i, acc, NoPolicy) == Scan(coll, b, refs, i + 1, acc, NoPolicy)
  {
  }

  /** An asset whose path ID differs from every member's is not a member by key. */
  lemma InfoAbsent(ms: seq<Asset>, a: Asset)
    requires forall i :: 0 <= i < |ms| ==> ms[i].pathId != a.pathId
    ensures a.Info() !in Infos(ms)
  {
  }

  /** Build's result for a walking primary, given the walk's result. */
  lemma BuildWalks(p: Asset, coll: seq<Asset>, r: Acc)
    requires p.kind.Behaviour? && !p.kind.isScene && p in coll
    requires Walk(coll, p, Seed(p), NoPolicy) == r
    ensures Build(SoExporter, p, coll, Guid, NoPolicy).Success?
    ensures Build(SoExporter, p, coll, Guid, NoPolicy).value.members == r.members
  {
  }

  // The exclusion scenario: 9 is a scene object.
  const EP: Asset := ScriptablePrimary(1, {5, 9})
  const E5: Asset := Plain(5, None)
  const E9: Asset := Asset(7, 9, MonoBehaviourClassId, Behaviour(false, true, Loaded(Some({1}))))
  const EColl: seq<Asset> := [EP, E5, E9]

  /**
   The primary references path IDs 5 and 9; 5 is a plain behaviour and 9 a
   scene object: the group is the primary and 5, in that order.
   */
  lemma SceneReferenceExcluded()
    ensures
      var r := Build(SoExporter, EP, EColl, Guid, NoPolicy);
      r.Success? && r.value.members == [EP, E5]
  {
    var seed := Seed(EP);
    var acc1 := Append(seed, E5, NoPolicy);
    ScanSkips(EColl, EP, {5, 9}, 0, seed);
    InfoAbsent(seed.members, E5);
    ScanAppends(EColl, EP, {5, 9}, 1, seed);
    assert Walk(EColl, E5, acc1, NoPolicy) == acc1;
    ScanAddsNothing(EColl, EP, {5, 9}, 2, acc1);
    BuildWalks(EP, EColl, acc1);
  }

  // The depth-first scenario.
  const DP: Asset := ScriptablePrimary(1, {5, 8})
  const D5: Asset := Asset(7, 5, MonoBehaviourClassId, Behaviour(false, false, Unloaded(Some(Some({7})))))
  const D8: Asset := Plain(8, None)
  const D7: Asset := Plain(7, Some({}))
  const DColl: seq<Asset> := [DP, D5, D8, D7]

  /** Inside 5: indices 0 to 2 are skipped, 7 is appended at index 3 and has no references. */
  lemma DepthFirstInner(acc1: Acc)
    requires acc1.members == [DP, D5]
    ensures Walk(DColl, D5, acc1, NoPolicy).members == [DP, D5, D7]
  {
    ScanSkips(DColl, D5, {7}, 0, acc1);
    ScanSkips(DColl, D5, {7}, 1, acc1);
    ScanSkips(DColl, D5, {7}, 2, acc1);
    InfoAbsent(acc1.members, D7);
    ScanAppends(DColl, D5, {7}, 3, acc1);
    var acc2 := Append(acc1, D7, NoPolicy);
    ScanAddsNothing(DColl, D7, {}, 0, acc2);
    ScanAddsNothing(DColl, D5, {7}, 4, acc2);
  }

  /** Back in the primary: 8 is appended at index 2; 7 at index 3 is not referenced. */
  lemma DepthFirstTail(acc2: Acc)
    requires acc2.members == [DP, D5, D7]
    ensures Scan(DColl, DP, {5, 8}, 2, acc2, NoPolicy).members == [DP, D5, D7, D8]
  {
    InfoAbsent(acc2.members, D8);
    ScanAppends(DColl, DP, {5, 8}, 2, acc2);
    var acc3 := Append(acc2, D8, NoPolicy);
    assert Walk(DColl, D8, acc3, NoPolicy) == acc3;
    ScanAddsNothing(DColl, DP, {5, 8}, 3, acc3);
  }

  /** In the primary: index 0 is skipped, 5 is appended at index 1 and walked. */
  lemma DepthFirstHead()
    ensures Append(Seed(DP), D5, NoPolicy).members == [DP, D5]
    ensures Walk(DColl, DP, Seed(DP), NoPolicy) ==
      Scan(DColl, DP, {5, 8}, 2, Walk(DColl, D5, Append(Seed(DP), D5, NoPolicy), NoPolicy), NoPolicy)
  {
    ScanSkips(DColl, DP, {5, 8}, 0, Seed(DP));
    InfoAbsent(Seed(DP).members, D5);
    ScanAppends(DColl, DP, {5, 8}, 1, Seed(DP));
  }

  /**
   The primary references 5 and 8, and 5 (whose structure is still unloaded)
   references 7. The walk descends into 5 before moving on to 8, so 7 comes
   before 8 even though 8 precedes 7 in the collection.
   */
  lemma DepthFirstOrder()
    ensures
      var r := Build(SoExporter, DP, DColl, Guid, NoPolicy);
      r.Success? && r.value.members == [DP, D5, D7, D8]
  {
    DepthFirstHead();
    var w := Walk(DColl, D5, Append(Seed(DP), D5, NoPolicy), NoPolicy);
    DepthFirstInner(Append(Seed(DP), D5, NoPolicy));
    DepthFirstTail(w);
    BuildWalks(DP, DColl, Walk(DColl, DP, Seed(DP), NoPolicy));
  }

  // The cycle scenario: B and C reference each other.
  const CP: Asset := ScriptablePrimary(1, {2})
  const CB: Asset := Plain(2, Some({3}))
  const CC: Asset := Plain(3, Some({2}))
  const CColl: seq<Asset> := [CP, CB, CC]

  /** Inside B: C is appended at index 2; C references B, which is already a member. */
  lemma CycleInner(acc1: Acc)
    requires acc1.members == [CP, CB]
    ensures Walk(CColl, CB, acc1, NoPolicy).members == [CP, CB, CC]
  {
    ScanSkips(CColl, CB, {3}, 0, acc1);
    ScanSkips(CColl, CB, {3}, 1, acc1);
    InfoAbsent(acc1.members, CC);
    ScanAppends(CColl, CB, {3}, 2, acc1);
    var acc2 := Append(acc1, CC, NoPolicy);
    assert CB in acc2.members;
    ScanAddsNothing(CColl, CC, {2}, 0, acc2);
    ScanAddsNothing(CColl, CB, {3}, 3, acc2);
  }

  /** In the primary: index 0 is skipped, B is appended at index 1 and walked; C at index 2 is not referenced. */
  lemma CycleHead()
    ensures Append(Seed(CP), CB, NoPolicy).members == [CP, CB]
    ensures Walk(CColl, CP, Seed(CP), NoPolicy) ==
      Scan(CColl, CP, {2}, 2, Walk(CColl, CB, Append(Seed(CP), CB, NoPolicy), NoPolicy), NoPolicy)
  {
    ScanSkips(CColl, CP, {2}, 0, Seed(CP));
    InfoAbsent(Seed(CP).members, CB);
    ScanAppends(CColl, CP, {2}, 1, Seed(CP));
  }

  /**
   Two plain behaviours reference each other: the walk still ends, and each
   joins the group exactly once.
   */
  lemma CycleVisitedOnce()
    ensures
      var r := Build(SoExporter, CP, CColl, Guid, NoPolicy);
      r.Success? && r.value.members == [CP, CB, CC]
  {
    CycleHead();
    var w := Walk(CColl, CB, Append(Seed(CP), CB, NoPolicy), NoPolicy);
    CycleInner(Append(Seed(CP), CB, NoPolicy));
    ScanAddsNothing(CColl, CP, {2}, 2, w);
    BuildWalks(CP, CColl, Walk(CColl, CP, Seed(CP), NoPolicy));
  }
}
