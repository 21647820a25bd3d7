/**
 The member set of a built group characterised independently of the walk:
 it is the least set of assets that contains the primary and is closed under
 "pulls in" over the primary's collection.
 */
module Closure {
  import opened Assets
  import opened ExportCollection

  /**
   `S` holds every asset of `coll` that one of its elements pulls in. Sets of
   assets by value, not `AssetInfo` keys, keep this description independent of
   the walk's bookkeeping; `WellFormedCollection` relates the two.
   */
  ghost predicate ClosedSet(coll: seq<Asset>, S: set<Asset>) {
    forall x, k :: x in S && 0 <= k < |coll| && Pulls(x, coll[k]) ==> coll[k] in S
  }

  /** Every member of a list whose later members each have a referring earlier member lies in `S`. */
  lemma {:induction false} MemberInClosedSet(coll: seq<Asset>, ms: seq<Asset>, S: set<Asset>, j: nat)
    requires j < |ms| && ms[0] in S && ClosedSet(coll, S)
    requires forall i :: 1 <= i < |ms| ==> ms[i] in coll && Eligible(ms[i])
    requires forall i {:trigger HasParent(ms, i)} :: 1 <= i < |ms| ==> HasParent(ms, i)
    ensures ms[j] in S
    decreases j
  {
    if j > 0 {
      assert HasParent(ms, j);
      var p :| 0 <= p < j && References(ms[p], ms[j]);
      MemberInClosedSet(coll, ms, S, p);
      var k :| 0 <= k < |coll| && coll[k] == ms[j];
      assert Pulls(ms[p], coll[k]);
    }
  }

  /**
   Soundness: every member of a built group belongs to every set that
   contains the primary and is closed under pulling in, so the walk adds
   nothing that is not reachable from the primary.
   */
  lemma MembersWithinEveryClosedSet(
    exporter: Exporter, primary: Asset, coll: seq<Asset>, guid: UnityGuid, mainExportId: Asset -> int, S: set<Asset>)
    requires primary in coll
    requires Build(exporter, primary, coll, guid, mainExportId).Success?
    requires primary in S && ClosedSet(coll, S)
    ensures forall m :: m in Build(exporter, primary, coll, guid, mainExportId).value.members ==> m in S
  {
    var ms := Build(exporter, primary, coll, guid, mainExportId).value.members;
    forall m | m in ms ensures m in S {
      var j :| 0 <= j < |ms| && ms[j] == m;
      MemberInClosedSet(coll, ms, S, j);
    }
  }

  /**
   Exactness: when the walk runs over a well-formed collection that holds the
   primary, the member set contains the primary, is closed, and lies inside
   every closed set containing the primary, so it is the reachable set.
   */
  lemma BuildIsLeastClosure(
    exporter: Exporter, primary: Asset, coll: seq<Asset>, guid: UnityGuid, mainExportId: Asset -> int)
    requires primary in coll
    requires Build(exporter, primary, coll, guid, mainExportId).Success?
    requires Walks(exporter, primary)
    requires WellFormedCollection(coll)
    ensures var M := set m | m in Build(exporter, primary, coll, guid, mainExportId).value.members;
      && primary in M
      && ClosedSet(coll, M)
      && forall S :: primary in S && ClosedSet(coll, S) ==> M <= S
  {
    var ms := Build(exporter, primary, coll, guid, mainExportId).value.members;
    var M := set m | m in ms;
    assert ms[0] == primary;
    forall x, k | x in M && 0 <= k < |coll| && Pulls(x, coll[k]) ensures coll[k] in M {
      var j :| 0 <= j < |ms| && ms[j] == x;
      assert Closed(coll, ms[j], ms);
      assert coll[k].Info() in Infos(ms);
      var m :| m in ms && m.Info() == coll[k].Info();
      var jm :| 0 <= jm < |ms| && ms[jm] == m;
      assert m in coll by {
        if jm > 0 {
          assert ms[jm] in coll;
        }
      }
      var km :| 0 <= km < |coll| && coll[km] == m;
      assert km == k;
    }
    forall S | primary in S && ClosedSet(coll, S) ensures M <= S {
      MembersWithinEveryClosedSet(exporter, primary, coll, guid, mainExportId, S);
    }
  }
}
