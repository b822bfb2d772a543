/** Tables and clusters on which selection and offboarding do not do what they are meant to. */
module PlacementExamples {
  import opened Wrappers
  import opened ValidatorStatus
  import opened Sorting
  import opened ClusterKeys
  import opened Chain
  import opened Replay
  import opened Placement

  const EXAMPLE_LIMIT: nat := 500

  function Serving(fee: nat): Operator { Operator("key", fee, true, 0, 0) }

  /** An empty cluster that has been used before: its balance is still on the network. */
  function UsedCluster(ids: seq<nat>): Cluster { Cluster(ids, Snapshot(0, 7, 9, true, 100), {}, 50, 40, 50) }

  /** A sorted list of exactly the usable operators is the pre-selection. */
  lemma PreSelectionIs(ops: Operators, limit: nat, sorted: seq<Candidate>)
    requires Sorted(FeeLeq, sorted) && NoDuplicates(sorted)
    requires forall x :: x in sorted <==> x.id in ops && Usable(ops[x.id], limit) && x.fee == ops[x.id].fee
    ensures PreSelection(ops, limit) == sorted
  {
    PreSelectionMembers(ops, limit);
    SortedOnce(PreSelection(ops, limit), sorted);
  }

  lemma SortsTo(a: seq<nat>, b: seq<nat>)
    requires multiset(a) == multiset(b) && Ascending(b)
    ensures SortIds(a) == b
  {
    SortedUnique(IdLeq, SortIds(a), b);
  }

  lemma KeysDiffer(a: seq<nat>, b: seq<nat>)
    requires a != b
    ensures ClusterKey(a) != ClusterKey(b)
  {
    if ClusterKey(a) == ClusterKey(b) {
      ClusterKeyInjective(a, b);
    }
  }

  // ---- A block whose fee order is not its id order ----

  /** Eight operators: the second costs 1, the first 2, the others 3. */
  function ExampleFee(id: nat): nat { if id == 1 then 2 else if id == 2 then 1 else 3 }

  const EXAMPLE_OPS: Operators := map id | 1 <= id <= 8 :: id := Serving(ExampleFee(id))

  function ExampleId(i: nat): nat { if i == 0 then 2 else if i == 1 then 1 else i + 1 }

  const EXAMPLE_SORTED: seq<Candidate> :=
    seq(8, i requires 0 <= i < 8 => Candidate(ExampleFee(ExampleId(i)), ExampleId(i)))

  lemma ExampleMembers()
    ensures forall x :: x in EXAMPLE_SORTED <==>
      x.id in EXAMPLE_OPS && Usable(EXAMPLE_OPS[x.id], EXAMPLE_LIMIT) && x.fee == EXAMPLE_OPS[x.id].fee
  {
    forall x: Candidate | x.id in EXAMPLE_OPS && x.fee == EXAMPLE_OPS[x.id].fee ensures x in EXAMPLE_SORTED {
      var i := if x.id == 1 then 1 else if x.id == 2 then 0 else x.id - 1;
      assert EXAMPLE_SORTED[i] == x;
    }
  }

  lemma ExamplePreSelection()
    ensures PreSelection(EXAMPLE_OPS, EXAMPLE_LIMIT) == EXAMPLE_SORTED
  {
    ExampleMembers();
    PreSelectionIs(EXAMPLE_OPS, EXAMPLE_LIMIT, EXAMPLE_SORTED);
  }

  lemma ExampleCandidates(cand: seq<nat>)
    requires cand == Affordable(EXAMPLE_SORTED, 3)
    ensures |cand| == 8 && forall i :: 0 <= i < 8 ==> cand[i] == ExampleId(i)
  {
    AffordableIsPrefix(EXAMPLE_SORTED, 3);
    assert EXAMPLE_SORTED[7].fee <= 3;
  }

  lemma ExampleBlock(ids: seq<nat>, cand: seq<nat>)
    requires ids == [1, 2, 3, 4] && |cand| == 8 && forall i :: 0 <= i < 8 ==> cand[i] == ExampleId(i)
    ensures Block(cand, 0) != ids && multiset(Block(cand, 0)) == multiset(ids)
  {
    assert Block(cand, 0) == [2, 1, 3, 4];
    assert [2, 1, 3, 4][0] != ids[0];
    assert multiset([2, 1, 3, 4]) == multiset{2, 1, 3, 4} == multiset(ids);
  }

  lemma ExampleNewIds(ids: seq<nat>)
    requires ids == [1, 2, 3, 4]
    ensures PreSelects(EXAMPLE_OPS, EXAMPLE_LIMIT)
    ensures NewIds(map[ClusterKey(ids) := UsedCluster(ids)], EXAMPLE_OPS, EXAMPLE_LIMIT) == Some(ids)
  {
    ExamplePreSelection();
    var cand := Affordable(EXAMPLE_SORTED, 3);
    ExampleCandidates(cand);
    ExampleBlock(ids, cand);
    SortsTo(Block(cand, 0), ids);
    KeysDiffer(Block(cand, 0), ids);
    PickBlockStep(cand, {ClusterKey(ids)}, 0);
    assert map[ClusterKey(ids) := UsedCluster(ids)].Keys == {ClusterKey(ids)};
  }

  lemma OnlyClusterUpdated(clusters: Clusters, key: string, c: Cluster, clusters': Clusters, r: string)
    requires clusters.Keys == {key} && clusters' == clusters[key := c] && r in clusters'
    ensures r == key && clusters' == map[key := c]
  {
  }

  lemma OnlyClusterJudged(clusters: Clusters, ids: seq<nat>, ops: Operators, limit: nat)
    requires Keyed(clusters) && clusters.Keys == {ClusterKey(ids)} && clusters[ClusterKey(ids)].managing == {}
    requires PreSelects(ops, limit) && NewIds(clusters, ops, limit) == Some(ids)
    ensures AllRejected(clusters, ops, limit) && !SomeMissing(clusters, ops, limit)
    ensures !NoBlockLeft(Candidates(ops, limit), clusters.Keys)
  {
    NewIdsAccepted(clusters, ops, limit);
    ClusterKeyInjective(clusters[ClusterKey(ids)].operatorIds, ids);
    NoneLeftExactly(clusters, ops, limit);
  }

  /** When there is only one cluster, empty and overwritten, it is the one selected. */
  lemma OnlyClusterSelected(
    clusters: Clusters, ids: seq<nat>, ops: Operators, limit: nat, clusters': Clusters, r: Option<string>)
    requires Keyed(clusters) && clusters.Keys == {ClusterKey(ids)} && clusters[ClusterKey(ids)].managing == {}
    requires Selects(clusters, ops, limit, clusters', r) && PreSelects(ops, limit)
    requires NewIds(clusters, ops, limit) == Some(ids)
    ensures r == Some(ClusterKey(ids)) && clusters' == map[ClusterKey(ids) := NewCluster(ids)]
  {
    OnlyClusterJudged(clusters, ids, ops, limit);
    SelectionLeaves(clusters, ops, limit, clusters', r);
    SelectedIsStored(clusters, ops, limit, clusters', r);
    SelectionFailsExactly(clusters, ops, limit, clusters', r);
    OnlyClusterUpdated(clusters, ClusterKey(ids), NewCluster(ids), clusters', r.value);
  }

  lemma OnlyClusterCanBeSelected(clusters: Clusters, ids: seq<nat>, ops: Operators, limit: nat)
    requires Keyed(clusters) && clusters.Keys == {ClusterKey(ids)} && clusters[ClusterKey(ids)].managing == {}
    requires PreSelects(ops, limit) && NewIds(clusters, ops, limit) == Some(ids)
    ensures Selects(clusters, ops, limit, clusters[ClusterKey(ids) := NewCluster(ids)], Some(ClusterKey(ids)))
  {
    hide AllRejected, SomeMissing, JudgeCluster, Keyed, ClusterKey, PreSelects;
    var after := clusters[ClusterKey(ids) := NewCluster(ids)];
    OnlyClusterJudged(clusters, ids, ops, limit);
    FirstFindsNone(clusters, ops, limit);
    assert AfterFetch(clusters, ops, limit) == Some(after);
    FetchKeepsMissing(clusters, ops, limit);
    assert forall key :: key in Eligible(after, ops, limit, false) ==> key in after;
    assert forall key :: key in after ==> key == ClusterKey(ids);
  }

  /** A used cluster is overwritten: in fee order the block is 2, 1, 3, 4, whose key is not stored, but the cluster is
      saved under 1, 2, 3, 4, whose key is. Its snapshot and counters are lost, and it is the cluster returned. */
  lemma UsedClusterIsOverwritten(ids: seq<nat>, clusters': Clusters, r: Option<string>)
    requires ids == [1, 2, 3, 4]
    requires Selects(map[ClusterKey(ids) := UsedCluster(ids)], EXAMPLE_OPS, EXAMPLE_LIMIT, clusters', r)
    ensures r == Some(ClusterKey(ids)) && clusters' == map[ClusterKey(ids) := NewCluster(ids)]
  {
    hide ClusterKey, Selects;
    ExampleNewIds(ids);
    OnlyClusterSelected(map[ClusterKey(ids) := UsedCluster(ids)], ids, EXAMPLE_OPS, EXAMPLE_LIMIT, clusters', r);
  }

  // ---- A last block that is never looked up ----

  /** Nine operators of one price, so that the candidates are the ids in ascending order. */
  const NINE_OPS: Operators := map id | 1 <= id <= 9 :: id := Operator("key", 3, true, 0, 0)

  const NINE_SORTED: seq<Candidate> := seq(9, i requires 0 <= i < 9 => Candidate(3, i + 1))

  lemma NinePreSelection()
    ensures PreSelection(NINE_OPS, EXAMPLE_LIMIT) == NINE_SORTED
  {
    forall x: Candidate | x.id in NINE_OPS && x.fee == NINE_OPS[x.id].fee ensures x in NINE_SORTED {
      assert NINE_SORTED[x.id - 1] == Candidate(3, x.id);
    }
    PreSelectionIs(NINE_OPS, EXAMPLE_LIMIT, NINE_SORTED);
  }

  lemma NineCandidates()
    ensures PreSelects(NINE_OPS, EXAMPLE_LIMIT)
    ensures var cand := Candidates(NINE_OPS, EXAMPLE_LIMIT); |cand| == 9 && forall i :: 0 <= i < 9 ==> cand[i] == i + 1
  {
    NinePreSelection();
    AffordableIsPrefix(NINE_SORTED, 3);
    assert NINE_SORTED[8].fee <= 3;
  }

  lemma LastBlockDisplaced(clusters: Clusters, ops: Operators, limit: nat, a: seq<nat>, b: seq<nat>)
    requires PreSelects(ops, limit) && |Candidates(ops, limit)| == 9
    requires Candidates(ops, limit)[..4] == a && Candidates(ops, limit)[5..] == b && Ascending(b)
    requires ClusterKey(a) in clusters && forall key :: key in clusters ==> clusters[key].managing == {}
    ensures Displaces(clusters, ops, limit, b)
  {
    var cand := Candidates(ops, limit);
    assert Block(cand, 0) == a && Block(cand, 1) == b;
    SortOfSorted(b);
    assert DisplacesAt(cand, clusters.Keys, b, 1);
  }

  lemma BecomesFresh(
    clusters: Clusters, ops: Operators, limit: nat, ids: seq<nat>, clusters': Clusters, r: Option<string>)
    requires Keyed(clusters) && Selects(clusters, ops, limit, clusters', r) && Displaces(clusters, ops, limit, ids)
    requires ClusterKey(ids) in clusters && clusters[ClusterKey(ids)] == UsedCluster(ids)
    ensures ClusterKey(ids) in clusters' && clusters'[ClusterKey(ids)] == NewCluster(ids)
  {
    var key := ClusterKey(ids);
    OverwritesExactly(clusters, ops, limit, clusters', r, key);
    PlacementKeepsValidators(clusters, ops, limit, clusters', r);
    ClusterKeyInjective(clusters'[key].operatorIds, ids);
  }

  lemma TwoUsed(a: seq<nat>, b: seq<nat>, clusters: Clusters)
    requires Ascending(a) && Ascending(b) && a != b
    requires clusters == map[ClusterKey(a) := UsedCluster(a), ClusterKey(b) := UsedCluster(b)]
    ensures Keyed(clusters) && ClusterKey(a) in clusters
    ensures ClusterKey(b) in clusters && clusters[ClusterKey(b)] == UsedCluster(b)
    ensures forall key :: key in clusters ==> clusters[key].managing == {}
  {
    KeysDiffer(a, b);
  }

  lemma NineSlices(cand: seq<nat>, a: seq<nat>, b: seq<nat>)
    requires |cand| == 9 && forall i :: 0 <= i < 9 ==> cand[i] == i + 1
    requires |a| == 4 == |b| && forall i :: 0 <= i < 4 ==> a[i] == i + 1 && b[i] == i + 6
    ensures cand[..4] == a && cand[5..] == b && Ascending(a) && Ascending(b) && a != b
  {
    assert a[0] != b[0];
  }

  /** With the clusters 1, 2, 3, 4 and 6, 7, 8, 9 stored, used and empty, the loop skips the first, never looks up the
      second, and every selection replaces it by a fresh one. */
  lemma LastBlockIsOverwritten(a: seq<nat>, b: seq<nat>, clusters: Clusters, clusters': Clusters, r: Option<string>)
    requires |a| == 4 == |b| && forall i :: 0 <= i < 4 ==> a[i] == i + 1 && b[i] == i + 6
    requires clusters == map[ClusterKey(a) := UsedCluster(a), ClusterKey(b) := UsedCluster(b)]
    requires Selects(clusters, NINE_OPS, EXAMPLE_LIMIT, clusters', r)
    ensures ClusterKey(b) in clusters' && clusters'[ClusterKey(b)] == NewCluster(b)
  {
    NineCandidates();
    NineSlices(Candidates(NINE_OPS, EXAMPLE_LIMIT), a, b);
    TwoUsed(a, b, clusters);
    LastBlockDisplaced(clusters, NINE_OPS, EXAMPLE_LIMIT, a, b);
    BecomesFresh(clusters, NINE_OPS, EXAMPLE_LIMIT, b, clusters', r);
  }

  // ---- An operator that is not in the table ----

  /** One emptied cluster with an operator that is not in the table makes every selection fail. */
  lemma EmptiedClusterBlocksSelection(ids: seq<nat>, clusters: Clusters, clusters': Clusters, r: Option<string>)
    requires |ids| == 4 && (forall i :: 0 <= i < 4 ==> ids[i] == i + 10)
    requires clusters == map[ClusterKey(ids) := UsedCluster(ids)]
    requires Selects(clusters, NINE_OPS, EXAMPLE_LIMIT, clusters', r)
    ensures PreSelects(NINE_OPS, EXAMPLE_LIMIT) && r == None
  {
    NineCandidates();
    UnknownFirstIsMissing(ids, clusters, NINE_OPS, EXAMPLE_LIMIT, clusters', r);
  }

  lemma UnknownFirstIsMissing(
    ids: seq<nat>, clusters: Clusters, ops: Operators, limit: nat, clusters': Clusters, r: Option<string>)
    requires ids != [] && ids[0] !in ops && Ascending(ids) && clusters == map[ClusterKey(ids) := UsedCluster(ids)]
    requires Selects(clusters, ops, limit, clusters', r) && PreSelects(ops, limit)
    ensures r == None
  {
    assert JudgeCluster(clusters[ClusterKey(ids)], ops, limit) == Missing;
    SelectionFailsExactly(clusters, ops, limit, clusters', r);
  }

  /** The table of eight with an inactive operator 0. */
  const CRASH_OPS: Operators := EXAMPLE_OPS[0 := Operator("key", 1, false, 0, 0)]

  lemma CrashPreSelection()
    ensures PreSelection(CRASH_OPS, EXAMPLE_LIMIT) == EXAMPLE_SORTED
  {
    ExampleMembers();
    PreSelectionIs(CRASH_OPS, EXAMPLE_LIMIT, EXAMPLE_SORTED);
  }

  lemma OneKnown(ids: seq<nat>, ops: Operators)
    requires |ids| > 1 && ids[0] in ops && ids[1] !in ops
    ensures KnownPrefix(ids, ops) == 1
  {
    assert ids[1..][0] == ids[1];
  }

  /** The activity loop stops at operator 0, and the fee loop reads operator 9, which is not in the table. */
  lemma OffboardingCrashes(st: ValStatus, c: Cluster)
    requires st == ValStatus(Staked, REGISTERED_VALID, ACTIVE_ON_BEACON) && c.operatorIds == [0, 9, 10, 11]
    ensures PreSelects(CRASH_OPS, EXAMPLE_LIMIT) && OffboardDecision(st, c, CRASH_OPS, EXAMPLE_LIMIT) == Crashed
  {
    CrashPreSelection();
    assert c.operatorIds[0] == 0 && c.operatorIds[1] == 9;
    OneKnown(c.operatorIds, CRASH_OPS);
    OffboardDecides(st, c, CRASH_OPS, EXAMPLE_LIMIT);
  }

  // ---- A dear operator ----

  /** Ten operators that cost what their ids say. */
  const TEN_OPS: Operators := map id | 1 <= id <= 10 :: id := Serving(id)

  function UpTo(n: nat): (r: set<nat>)
    ensures |r| == n && forall i: nat :: i in r <==> 1 <= i <= n
  {
    if n == 0 then {} else UpTo(n - 1) + {n}
  }

  lemma TenServe()
    ensures |Placement.Serving(TEN_OPS, EXAMPLE_LIMIT)| == 10 && TooDear(TEN_OPS, EXAMPLE_LIMIT, 10)
  {
    hide UpTo;
    assert Placement.Serving(TEN_OPS, EXAMPLE_LIMIT) == UpTo(10);
    assert ServingBelow(TEN_OPS, EXAMPLE_LIMIT, 10) == UpTo(9);
  }

  /** Of the ten the dearest makes its cluster unfit, and an active validator in it leaves. */
  lemma DearOperatorOffboards(c: Cluster)
    requires c.operatorIds == [1, 2, 3, 10]
    ensures !Fits(c, TEN_OPS, EXAMPLE_LIMIT)
    ensures OffboardDecision(ValStatus(Staked, 1, 1), c, TEN_OPS, EXAMPLE_LIMIT) == Offboard
  {
    hide TooDear, OffboardDecision, Placement.Serving;
    TenServe();
    OffboardsExactly(ValStatus(Staked, 1, 1), c, TEN_OPS, EXAMPLE_LIMIT);
    assert forall id :: id in c.operatorIds ==> 1 <= id <= 10;
    var id := c.operatorIds[3];
    assert id in c.operatorIds && id in TEN_OPS && TEN_OPS[id].fee == 10;
    assert RemovalDue(ValStatus(Staked, 1, 1), c, TEN_OPS, EXAMPLE_LIMIT);
  }
}
