/** The client's cluster and operator tables with the selection methods that read and extend them. */
module ClusterBook {
  import opened Wrappers
  import opened ValidatorStatus
  import opened Sorting
  import opened ClusterKeys
  import opened Chain
  import opened Replay
  import opened Placement

  /** Iteration over a map: every key once, in an order the caller cannot predict. */
  method IterationOrder<T(==,!new)>(keys: set<T>) returns (order: seq<T>)
    ensures Enumerates(order, keys)
  {
    order := [];
    var rest := keys;
    while rest != {}
      invariant rest <= keys && NoDuplicates(order)
      invariant forall x :: x in order <==> x in keys && x !in rest
      decreases rest
    {
      var x :| x in rest;
      order := order + [x];
      rest := rest - {x};
    }
  }

  /** What the candidate loop leaves: the picked block, or a run that is too short. */
  ghost predicate Picked(ids: seq<nat>, stored: set<string>, selected: seq<nat>) {
    var j := PickBlock(ids, stored, 0);
    if j.None? then |selected| != CLUSTER_OP_AMOUNT
    else 5 * j.value + 4 <= |ids| && selected == Block(ids, j.value)
  }

  /** Inside the candidate loop at position `p`, with `j` blocks skipped. */
  ghost predicate Running(ids: seq<nat>, stored: set<string>, j: nat, p: nat, selected: seq<nat>) {
    && 5 * j <= p <= |ids| && |selected| == p - 5 * j <= CLUSTER_OP_AMOUNT
    && selected == ids[5 * j..p]
    && PickBlock(ids, stored, 0) == PickBlock(ids, stored, j)
  }

  lemma RunningOn(ids: seq<nat>, stored: set<string>, j: nat, p: nat, selected: seq<nat>)
    requires Running(ids, stored, j, p, selected) && p < |ids| && |selected| < CLUSTER_OP_AMOUNT
    ensures Running(ids, stored, j, p + 1, selected + [ids[p]])
  {
  }

  lemma RunningSkips(ids: seq<nat>, stored: set<string>, j: nat, p: nat, selected: seq<nat>)
    requires Running(ids, stored, j, p, selected) && p < |ids| && |selected| == CLUSTER_OP_AMOUNT
    requires ClusterKey(selected) in stored
    ensures Running(ids, stored, j + 1, p + 1, [])
  {
    assert selected == Block(ids, j);
    PickBlockStep(ids, stored, j);
  }

  lemma RunningEnds(ids: seq<nat>, stored: set<string>, j: nat, p: nat, selected: seq<nat>)
    requires Running(ids, stored, j, p, selected)
    requires p == |ids| || (|selected| == CLUSTER_OP_AMOUNT && ClusterKey(selected) !in stored)
    ensures Picked(ids, stored, selected)
  {
    PickBlockStep(ids, stored, j);
    if |selected| == CLUSTER_OP_AMOUNT {
      assert selected == Block(ids, j);
    }
  }

  ghost predicate Fetched(clusters: Clusters, ops: Operators, limit: nat, clusters': Clusters, ok: bool) {
    if !PreSelects(ops, limit) || NewIds(clusters, ops, limit).None? then !ok && clusters' == clusters
    else
      var ids := NewIds(clusters, ops, limit).value;
      ok && clusters' == clusters[ClusterKey(ids) := NewCluster(ids)]
  }

  lemma PickedNewIds(clusters: Clusters, ops: Operators, limit: nat, selected: seq<nat>)
    requires PreSelects(ops, limit)
    requires Picked(Candidates(ops, limit), clusters.Keys, selected)
    ensures NewIds(clusters, ops, limit) == if |selected| == CLUSTER_OP_AMOUNT then Some(SortIds(selected)) else None
  {
  }

  /** One cluster of four serving operators, none too dear, has been written, and nothing else. */
  ghost predicate GainsFitting(clusters: Clusters, ops: Operators, limit: nat, clusters': Clusters) {
    exists key ::
      && key in clusters' && |clusters'[key].operatorIds| == 4 && Fits(clusters'[key], ops, limit)
      && clusters' == clusters[key := clusters'[key]]
  }

  lemma FetchedFits(clusters: Clusters, ops: Operators, limit: nat, clusters': Clusters)
    requires Fetched(clusters, ops, limit, clusters', true)
    ensures GainsFitting(clusters, ops, limit, clusters')
  {
    hide Fits, JudgeCluster;
    NewIdsAccepted(clusters, ops, limit);
    var ids := NewIds(clusters, ops, limit).value;
    AcceptedExactly(NewCluster(ids), ops, limit);
    assert clusters'[ClusterKey(ids)] == NewCluster(ids);
  }

  lemma EnumerationOfEmpty<T(!new)>(order: seq<T>, keys: set<T>)
    requires Enumerates(order, keys)
    ensures order == [] <==> keys == {}
  {
    if order != [] {
      assert order[0] in order;
    }
  }

  class ClusterBook {
    var clusters: map<string, Cluster>
    var targetOperators: map<nat, Operator>
    var validatorsPerOperatorLimit: nat

    constructor (clusters: map<string, Cluster>, operators: map<nat, Operator>, limit: nat)
      ensures this.clusters == clusters && targetOperators == operators && validatorsPerOperatorLimit == limit
    {
      this.clusters, targetOperators, validatorsPerOperatorLimit := clusters, operators, limit;
    }

    method PreSelectOperators() returns (r: Result<seq<Candidate>>)
      ensures r.Ok? <==> PreSelects(targetOperators, validatorsPerOperatorLimit)
      ensures r.Ok? <==> |Serving(targetOperators, validatorsPerOperatorLimit)| >= 8
      ensures r.Ok? ==> r.value == PreSelection(targetOperators, validatorsPerOperatorLimit)
    {
      var order := IterationOrder(targetOperators.Keys);
      var preSelected: seq<Candidate> := [];
      for i := 0 to |order|
        invariant preSelected == UsableIn(order[..i], targetOperators, validatorsPerOperatorLimit)
      {
        assert order[..i + 1][..i] == order[..i];
        assert order[i] in order;
        var operator := targetOperators[order[i]];
        if |operator.publicKey| == 0 {
          continue;
        }
        if !operator.active {
          continue;
        }
        if operator.validatorCount + VAL_AMOUNT_THRESHOLD > validatorsPerOperatorLimit {
          continue;
        }
        preSelected := preSelected + [Candidate(operator.fee, order[i])];
      }
      assert order[..|order|] == order;
      PreSelectionOrderIndependent(order, targetOperators, validatorsPerOperatorLimit);
      EightServe(targetOperators, validatorsPerOperatorLimit);
      SortSorts(FeeLeq, preSelected);
      if |preSelected| < CLUSTER_OP_AMOUNT * 2 {
        return Err;
      }
      return Ok(Sort(FeeLeq, preSelected));
    }

    /** The candidate loop: runs of four, reset when the run's key is stored, stopped by the middle fee. */
    method PickOperators(pre: seq<Candidate>, midFee: nat) returns (selected: seq<nat>)
      requires Sorted(FeeLeq, pre)
      ensures Picked(Affordable(pre, midFee), clusters.Keys, selected)
    {
      ghost var ids := Affordable(pre, midFee);
      AffordableIsPrefix(pre, midFee);
      ghost var stored := clusters.Keys;
      selected := [];
      ghost var j: nat := 0;
      var p := 0;
      while p < |pre|
        invariant p <= |ids| && Running(ids, stored, j, p, selected)
      {
        if pre[p].fee > midFee {
          break;
        }
        if |selected| == CLUSTER_OP_AMOUNT {
          var cltKey := BuildClusterKey(selected);
          if cltKey in clusters {
            RunningSkips(ids, stored, j, p, selected);
            selected := [];
            p, j := p + 1, j + 1;
            continue;
          }
          RunningEnds(ids, stored, j, p, selected);
          return;
        }
        RunningOn(ids, stored, j, p, selected);
        selected := selected + [pre[p].id];
        p := p + 1;
      }
      RunningEnds(ids, stored, j, p, selected);
    }

    method FetchNewClusterAndSave() returns (ok: bool)
      modifies this`clusters
      ensures Fetched(old(clusters), targetOperators, validatorsPerOperatorLimit, clusters, ok)
      ensures ok ==> GainsFitting(old(clusters), targetOperators, validatorsPerOperatorLimit, clusters)
    {
      hide GainsFitting;
      var preSelected := PreSelectOperators();
      if preSelected.Err? {
        return false;
      }
      var pre := preSelected.value;
      PreSelectionMembers(targetOperators, validatorsPerOperatorLimit);
      var selected := PickOperators(pre, pre[|pre| / 2].fee);
      PickedNewIds(clusters, targetOperators, validatorsPerOperatorLimit, selected);
      if |selected| != CLUSTER_OP_AMOUNT {
        return false;
      }
      selected := SortIds(selected);
      var cltKey := BuildClusterKey(selected);
      clusters := clusters[cltKey := Cluster(selected, Snapshot(0, 0, 0, true, 0), {}, 0, 0, 0)];
      FetchedFits(old(clusters), targetOperators, validatorsPerOperatorLimit, clusters);
      return true;
    }

    method JudgeOperators(ids: seq<nat>, midFee: nat) returns (verdict: Verdict)
      ensures verdict == Judge(ids, targetOperators, validatorsPerOperatorLimit, midFee)
    {
      for i := 0 to |ids|
        invariant Judge(ids, targetOperators, validatorsPerOperatorLimit, midFee)
               == Judge(ids[i..], targetOperators, validatorsPerOperatorLimit, midFee)
      {
        if ids[i] !in targetOperators {
          return Missing;
        }
        var operator := targetOperators[ids[i]];
        if |operator.publicKey| == 0 || operator.validatorCount + VAL_AMOUNT_THRESHOLD > validatorsPerOperatorLimit
          || !operator.active || operator.fee > midFee {
          return Rejected;
        }
      }
      return Accepted;
    }

    method SelectLocalClusterForRegister(isFirst: bool) returns (r: Result<seq<string>>)
      ensures r.Err? <==> LocalFails(clusters, targetOperators, validatorsPerOperatorLimit, isFirst)
      ensures r.Ok? ==>
        Enumerates(r.value, Eligible(clusters, targetOperators, validatorsPerOperatorLimit, isFirst))
      ensures r.Ok? ==> forall key :: key in r.value <==>
        && key in clusters && (isFirst ==> clusters[key].managing != {})
        && Fits(clusters[key], targetOperators, validatorsPerOperatorLimit)
    {
      hide PreSelection, Judge, Usable;
      var preSelected := PreSelectOperators();
      if preSelected.Err? {
        return Err;
      }
      var midFee := preSelected.value[|preSelected.value| / 2].fee;
      var order := IterationOrder(clusters.Keys);
      var selected: seq<string> := [];
      ghost var eligible := Eligible(clusters, targetOperators, validatorsPerOperatorLimit, isFirst);
      for i := 0 to |order|
        invariant NoDuplicates(selected)
        invariant forall key :: key in selected <==> key in order[..i] && key in eligible
        invariant forall key :: key in order[..i] && Considered(clusters[key], isFirst) ==>
          JudgeCluster(clusters[key], targetOperators, validatorsPerOperatorLimit) != Missing
      {
        var key := order[i];
        assert key in order && order[..i + 1] == order[..i] + [key] && key !in order[..i];
        if isFirst && clusters[key].managing == {} {
          continue;
        }
        var verdict := JudgeOperators(clusters[key].operatorIds, midFee);
        if verdict == Missing {
          return Err;
        }
        if verdict == Accepted {
          selected := selected + [key];
        }
      }
      assert order[..|order|] == order;
      forall key | key in clusters
        ensures key in selected <==>
          (isFirst ==> clusters[key].managing != {})
          && Fits(clusters[key], targetOperators, validatorsPerOperatorLimit)
      {
        AcceptedExactly(clusters[key], targetOperators, validatorsPerOperatorLimit);
      }
      return Ok(selected);
    }

    /** The first element of the slice sorted by load. */
    method LeastLoaded(keys: seq<string>) returns (key: string)
      requires keys != [] && forall k :: k in keys ==> k in clusters
      ensures key in keys
      ensures forall other :: other in keys ==> |clusters[key].managing| <= |clusters[other].managing|
    {
      key := keys[0];
      for i := 1 to |keys|
        invariant key in keys[..i]
        invariant forall other :: other in keys[..i] ==> |clusters[key].managing| <= |clusters[other].managing|
      {
        assert keys[..i + 1] == keys[..i] + [keys[i]];
        if |clusters[keys[i]].managing| < |clusters[key].managing| {
          key := keys[i];
        }
      }
      assert keys[..|keys|] == keys;
    }

    method SelectClusterForRegister() returns (r: Option<string>)
      modifies this`clusters
      ensures Selects(old(clusters), targetOperators, validatorsPerOperatorLimit, clusters, r)
      ensures r.Some? ==>
        && r.value in clusters && Fits(clusters[r.value], targetOperators, validatorsPerOperatorLimit)
        && forall key :: key in clusters && Fits(clusters[key], targetOperators, validatorsPerOperatorLimit) ==>
             |clusters[r.value].managing| <= |clusters[key].managing|
    {
      var first := SelectLocalClusterForRegister(true);
      if first.Err? {
        return None;
      }
      ghost var eligible := Eligible(clusters, targetOperators, validatorsPerOperatorLimit, true);
      EnumerationOfEmpty(first.value, eligible);
      if |first.value| == 0 {
        var fetched := FetchNewClusterAndSave();
        if !fetched {
          return None;
        }
      }
      assert AfterFetch(old(clusters), targetOperators, validatorsPerOperatorLimit) == Some(clusters);
      var final := SelectLocalClusterForRegister(false);
      if final.Err? {
        return None;
      }
      EnumerationOfEmpty(final.value, Eligible(clusters, targetOperators, validatorsPerOperatorLimit, false));
      if |final.value| == 0 {
        return None;
      }
      var key := LeastLoaded(final.value);
      return Some(key);
    }

    method ScanActivity(ids: seq<nat>) returns (r: Offboarding)
      ensures r == ActivityScan(ids, targetOperators)
    {
      for i := 0 to |ids|
        invariant ActivityScan(ids, targetOperators) == ActivityScan(ids[i..], targetOperators)
      {
        if ids[i] !in targetOperators {
          return Failed;
        }
        if !targetOperators[ids[i]].active {
          return Offboard;
        }
      }
      return Keep;
    }

    method ScanFees(ids: seq<nat>, midFee: nat) returns (r: Offboarding)
      ensures r == FeeScan(ids, targetOperators, midFee)
    {
      for i := 0 to |ids|
        invariant FeeScan(ids, targetOperators, midFee) == FeeScan(ids[i..], targetOperators, midFee)
      {
        if ids[i] !in targetOperators {
          return Crashed;
        }
        if targetOperators[ids[i]].fee > midFee {
          return Offboard;
        }
      }
      return Keep;
    }

    /** The decision part of offboarding for one validator with a known cluster. */
    method DecideOffboard(st: ValStatus, cluster: Cluster) returns (r: Offboarding)
      ensures r == OffboardDecision(st, cluster, targetOperators, validatorsPerOperatorLimit)
      ensures r == Offboard ==> RemovalDue(st, cluster, targetOperators, validatorsPerOperatorLimit)
      ensures r == Keep ==> !RemovalDue(st, cluster, targetOperators, validatorsPerOperatorLimit)
    {
      OffboardsExactly(st, cluster, targetOperators, validatorsPerOperatorLimit);
      var shouldOffboard := false;
      if st.onSsv == REGISTERED_INVALID {
        shouldOffboard := true;
      }
      if st.onStafi == Staked && (st.onSsv == REGISTERED_VALID || st.onSsv == REGISTERED_INVALID)
        && st.onBeacon == EXITED_ON_BEACON {
        shouldOffboard := true;
      }
      if st.onStafi == Staked && (st.onSsv == REGISTERED_VALID || st.onSsv == REGISTERED_INVALID)
        && st.onBeacon == ACTIVE_ON_BEACON {
        var activity := ScanActivity(cluster.operatorIds);
        if activity == Failed {
          return Failed;
        }
        shouldOffboard := shouldOffboard || activity == Offboard;

        var preSelected := PreSelectOperators();
        if preSelected.Err? {
          return Failed;
        }
        var fees := ScanFees(cluster.operatorIds, preSelected.value[|preSelected.value| / 2].fee);
        if fees == Crashed {
          return Crashed;
        }
        shouldOffboard := shouldOffboard || fees == Offboard;
      }
      return if shouldOffboard then Offboard else Keep;
    }
  }
}
