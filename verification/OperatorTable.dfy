/** The operator table: completing it with the operators in use and debouncing their reported activity. */
module OperatorTable {
  import opened Wrappers
  import opened ValidatorStatus
  import opened Replay
  import opened Placement
  import opened ClusterBook

  const INACTIVITY_SECONDS: int := 1 * 60 * 60

  datatype Poll = Poll(active: bool, now: int)

  /** One poll. Time 0 in the table stands for "not seen inactive". */
  function Debounce(op: Operator, poll: Poll): Operator {
    if poll.active then op.(active := true, lastNotActiveTime := 0)
    else if op.lastNotActiveTime == 0 then op.(active := true, lastNotActiveTime := poll.now)
    else op.(active := !(poll.now - op.lastNotActiveTime > INACTIVITY_SECONDS))
  }

  function DebounceAll(op: Operator, polls: seq<Poll>): Operator {
    if polls == [] then op else Debounce(DebounceAll(op, polls[..|polls| - 1]), polls[|polls| - 1])
  }

  /** Positive times that never run backwards. */
  ghost predicate Timed(polls: seq<Poll>) {
    && (forall i :: 0 <= i < |polls| ==> 0 < polls[i].now)
    && (forall i, j :: 0 <= i < j < |polls| ==> polls[i].now <= polls[j].now)
  }

  /** Every poll from the `k`-th on reported the operator inactive. */
  ghost predicate InactiveSince(polls: seq<Poll>, k: nat) {
    k < |polls| && forall j :: k <= j < |polls| ==> !polls[j].active
  }

  /** Index of the first inactive poll after the last active one; the length if the last poll was active. */
  function RunStart(polls: seq<Poll>): (k: nat)
    ensures k <= |polls|
  {
    if polls == [] then 0
    else if polls[|polls| - 1].active then |polls|
    else RunStart(polls[..|polls| - 1])
  }

  lemma {:induction false} RunStartIsFirst(polls: seq<Poll>, k: nat)
    ensures InactiveSince(polls, k) <==> RunStart(polls) <= k < |polls|
  {
    if polls != [] {
      var init := polls[..|polls| - 1];
      RunStartIsFirst(init, k);
      if !polls[|polls| - 1].active && k < |init| {
        assert InactiveSince(polls, k) <==> InactiveSince(init, k);
      }
    }
  }

  lemma {:induction false} DebounceState(op: Operator, polls: seq<Poll>)
    requires op.lastNotActiveTime == 0 && Timed(polls)
    ensures var r, k := DebounceAll(op, polls), RunStart(polls);
      if k == |polls| then (polls != [] || op.active ==> r.active) && r.lastNotActiveTime == 0
      else
        && r.lastNotActiveTime == polls[k].now
        && (!r.active <==> polls[|polls| - 1].now - polls[k].now > INACTIVITY_SECONDS)
  {
    if polls != [] {
      DebounceState(op, polls[..|polls| - 1]);
    }
  }

  /** After any sequence of polls an operator is marked inactive exactly when all polls since some moment reported it
      inactive and that moment lies more than an hour back; this also holds of one taken in as inactive. */
  lemma InactiveExactlyAfterAnHour(op: Operator, polls: seq<Poll>)
    requires op.lastNotActiveTime == 0 && (op.active || polls != []) && Timed(polls)
    ensures !DebounceAll(op, polls).active <==>
      exists k: nat :: InactiveSince(polls, k) && polls[|polls| - 1].now - polls[k].now > 3600
  {
    DebounceState(op, polls);
    var start := RunStart(polls);
    RunStartIsFirst(polls, start);
    forall k: nat | InactiveSince(polls, k) ensures start < |polls| && polls[start].now <= polls[k].now {
      RunStartIsFirst(polls, k);
    }
    if start < |polls| && polls[|polls| - 1].now - polls[start].now > INACTIVITY_SECONDS {
      assert InactiveSince(polls, start);
    }
  }

  // ---- The update ----

  datatype OnChain = OnChain(fee: nat, validatorCount: nat)

  function Refreshed(op: Operator, active: bool, chain: OnChain, now: int): Operator {
    Debounce(op, Poll(active, now)).(fee := chain.fee, validatorCount := chain.validatorCount)
  }

  function ChainOrZero(id: nat, chain: map<nat, OnChain>): OnChain {
    if id in chain then chain[id] else OnChain(0, 0)
  }

  /** An operator taken in; fee and count are only asked for when it is active. */
  function NewOperator(id: nat, pubkeys: map<nat, string>, active: bool, chain: OnChain): Operator {
    Operator(if id in pubkeys then pubkeys[id] else "",
             if active then chain.fee else 0, active, if active then chain.validatorCount else 0, 0)
  }

  function IdsIn(ids: seq<nat>): set<nat> { set id | id in ids }

  function IdsOf(c: Cluster): set<nat> { IdsIn(c.operatorIds) }

  /** Operators of the clusters that manage validators. */
  function UsedBy(clusters: Clusters): set<nat> {
    set key, id | key in clusters && clusters[key].managing != {} && id in clusters[key].operatorIds :: id
  }

  ghost predicate Completed(
    before: Operators, after: Operators, added: set<nat>, pubkeys: map<nat, string>, graph: map<nat, bool>,
    chain: map<nat, OnChain>)
  {
    && after.Keys == before.Keys + added
    && (forall id :: id in before ==> after[id] == before[id])
    && (forall id :: id in added && id !in before ==>
          && id in graph && (graph[id] ==> id in chain)
          && after[id] == NewOperator(id, pubkeys, graph[id], ChainOrZero(id, chain)))
  }

  /** What holds even when completion breaks off: no entry has changed and only operators in use have come in. */
  ghost predicate Extended(before: Operators, after: Operators, added: set<nat>) {
    before.Keys <= after.Keys <= before.Keys + added && forall id :: id in before ==> after[id] == before[id]
  }

  lemma CompletedJoin(
    before: Operators, mid: Operators, after: Operators, used: set<nat>, added: set<nat>, pubkeys: map<nat, string>,
    graph: map<nat, bool>, chain: map<nat, OnChain>)
    requires Completed(before, mid, used, pubkeys, graph, chain)
    requires Completed(mid, after, added, pubkeys, graph, chain)
    ensures Completed(before, after, used + added, pubkeys, graph, chain)
  {
  }

  lemma ExtendedStep(
    before: Operators, mid: Operators, after: Operators, used: set<nat>, added: set<nat>, all: set<nat>)
    requires Extended(before, mid, used) && Extended(mid, after, added) && used <= all && added <= all
    ensures Extended(before, after, all)
  {
  }

  lemma UsedIn(clusters: Clusters, key: string)
    requires key in clusters && clusters[key].managing != {}
    ensures IdsOf(clusters[key]) <= UsedBy(clusters)
  {
  }

  lemma UsedCovered(clusters: Clusters, used: set<nat>)
    requires forall key :: key in clusters && clusters[key].managing != {} ==> IdsOf(clusters[key]) <= used
    ensures UsedBy(clusters) <= used
  {
    forall id | id in UsedBy(clusters) ensures id in used {
      var key :| key in clusters && clusters[key].managing != {} && id in clusters[key].operatorIds;
      assert id in IdsOf(clusters[key]);
    }
  }

  /** What the calls of one update answer. The two queries for the graph, before and after completing the table, may
      answer differently; an id without an answer is a failing call. */
  datatype Answers = Answers(
    limit: Option<nat>, pubkeys: map<nat, string>, newGraph: map<nat, bool>, newChain: map<nat, OnChain>,
    graph: map<nat, bool>, chain: map<nat, OnChain>, now: int)

  ghost predicate PolledOnce(before: Operator, after: Operator, id: nat, a: Answers) {
    id in a.graph && id in a.chain && after == Refreshed(before, a.graph[id], a.chain[id], a.now)
  }

  /** The table is complete and every operator has been polled once. */
  ghost predicate Updated(before: Operators, after: Operators, limit: nat, clusters: Clusters, a: Answers) {
    && Some(limit) == a.limit && after.Keys == before.Keys + UsedBy(clusters)
    && (forall id :: id in after && id in before ==> PolledOnce(before[id], after[id], id, a))
    && (forall id :: id in after && id !in before ==>
          && id in a.newGraph
          && PolledOnce(NewOperator(id, a.pubkeys, a.newGraph[id], ChainOrZero(id, a.newChain)), after[id], id, a))
  }

  ghost predicate PartlyUpdated(before: Operators, after: Operators, clusters: Clusters, a: Answers) {
    && before.Keys <= after.Keys <= before.Keys + UsedBy(clusters)
    && (forall id :: id in before ==> after[id] == before[id] || PolledOnce(before[id], after[id], id, a))
  }

  class OperatorTable {
    var targetOperators: map<nat, Operator>
    var validatorsPerOperatorLimit: nat

    constructor (operators: map<nat, Operator>, limit: nat)
      ensures targetOperators == operators && validatorsPerOperatorLimit == limit
    {
      targetOperators, validatorsPerOperatorLimit := operators, limit;
    }

    method CompleteOne(id: nat, pubkeys: map<nat, string>, graph: map<nat, bool>, chain: map<nat, OnChain>)
      returns (ok: bool)
      modifies this`targetOperators
      ensures ok ==> Completed(old(targetOperators), targetOperators, {id}, pubkeys, graph, chain)
      ensures !ok ==> targetOperators == old(targetOperators)
    {
      if id !in targetOperators {
        if id !in graph {
          return false;
        }
        if graph[id] && id !in chain {
          return false;
        }
        targetOperators := targetOperators[id := NewOperator(id, pubkeys, graph[id], ChainOrZero(id, chain))];
      }
      return true;
    }

    /** Add the operators of one cluster that are not in the table yet. */
    method Complete(ids: seq<nat>, pubkeys: map<nat, string>, graph: map<nat, bool>, chain: map<nat, OnChain>)
      returns (ok: bool)
      modifies this`targetOperators
      ensures ok ==> Completed(old(targetOperators), targetOperators, IdsIn(ids), pubkeys, graph, chain)
      ensures Extended(old(targetOperators), targetOperators, IdsIn(ids))
    {
      ghost var added: set<nat> := {};
      for i := 0 to |ids|
        invariant added == IdsIn(ids[..i])
        invariant Completed(old(targetOperators), targetOperators, added, pubkeys, graph, chain)
      {
        assert ids[..i + 1] == ids[..i] + [ids[i]];
        ghost var mid := targetOperators;
        ok := CompleteOne(ids[i], pubkeys, graph, chain);
        if !ok {
          return;
        }
        CompletedJoin(old(targetOperators), mid, targetOperators, added, {ids[i]}, pubkeys, graph, chain);
        added := added + {ids[i]};
      }
      assert ids[..|ids|] == ids;
      return true;
    }

    /** The loop over the clusters, in whatever order the map gives them. */
    method CompleteAll(
      clusters: Clusters, pubkeys: map<nat, string>, graph: map<nat, bool>, chain: map<nat, OnChain>)
      returns (ok: bool)
      modifies this`targetOperators
      ensures ok ==> Completed(old(targetOperators), targetOperators, UsedBy(clusters), pubkeys, graph, chain)
      ensures Extended(old(targetOperators), targetOperators, UsedBy(clusters))
    {
      var order := IterationOrder(clusters.Keys);
      ghost var before, used := targetOperators, {};
      for i := 0 to |order|
        invariant Completed(before, targetOperators, used, pubkeys, graph, chain) && used <= UsedBy(clusters)
        invariant forall k :: 0 <= k < i && clusters[order[k]].managing != {} ==> IdsOf(clusters[order[k]]) <= used
      {
        assert order[i] in order;
        var c := clusters[order[i]];
        if c.managing != {} {
          ghost var mid := targetOperators;
          UsedIn(clusters, order[i]);
          ok := Complete(c.operatorIds, pubkeys, graph, chain);
          if !ok {
            ExtendedStep(before, mid, targetOperators, used, IdsOf(c), UsedBy(clusters));
            return;
          }
          CompletedJoin(before, mid, targetOperators, used, IdsOf(c), pubkeys, graph, chain);
          used := used + IdsOf(c);
        }
      }
      assert forall key :: key in clusters ==> key in order;
      UsedCovered(clusters, used);
      return true;
    }

    /** Poll every operator. An operator without a response ends the update; those after it keep what they have. */
    method PollAll(graph: map<nat, bool>, chain: map<nat, OnChain>, now: int) returns (ok: bool)
      modifies this`targetOperators
      ensures targetOperators.Keys == old(targetOperators).Keys
      ensures forall id :: id in targetOperators ==>
        || (!ok && targetOperators[id] == old(targetOperators)[id])
        || (id in graph && id in chain
            && targetOperators[id] == Refreshed(old(targetOperators)[id], graph[id], chain[id], now))
    {
      var order := IterationOrder(targetOperators.Keys);
      for i := 0 to |order|
        invariant targetOperators.Keys == old(targetOperators).Keys
        invariant forall k :: i <= k < |order| ==> targetOperators[order[k]] == old(targetOperators)[order[k]]
        invariant forall k :: 0 <= k < i ==>
          var id := order[k];
          id in graph && id in chain
          && targetOperators[id] == Refreshed(old(targetOperators)[id], graph[id], chain[id], now)
      {
        var id := order[i];
        assert id in order;
        if id !in chain || id !in graph {
          return false;
        }
        var op := targetOperators[id];
        if graph[id] {
          op := op.(active := true, lastNotActiveTime := 0);
        } else if op.lastNotActiveTime == 0 {
          op := op.(active := true, lastNotActiveTime := now);
        } else if now - op.lastNotActiveTime > 1 * 60 * 60 {
          op := op.(active := false);
        } else {
          op := op.(active := true);
        }
        targetOperators := targetOperators[id := op.(fee := chain[id].fee, validatorCount := chain[id].validatorCount)];
      }
      return true;
    }

    /** The handler. A failing call can leave operators taken in or polled, but never an entry that is neither its old
        self nor polled once. */
    method UpdateOperatorStatus(stateIsLatest: bool, clusters: Clusters, a: Answers) returns (ok: bool)
      modifies this
      ensures !stateIsLatest ==> ok && targetOperators == old(targetOperators)
      ensures ok && stateIsLatest ==>
        Updated(old(targetOperators), targetOperators, validatorsPerOperatorLimit, clusters, a)
      ensures !ok ==> PartlyUpdated(old(targetOperators), targetOperators, clusters, a)
    {
      if !stateIsLatest {
        return true;
      }
      if a.limit.None? {
        return false;
      }
      validatorsPerOperatorLimit := a.limit.value;
      ok := CompleteAll(clusters, a.pubkeys, a.newGraph, a.newChain);
      if !ok {
        return;
      }
      ok := PollAll(a.graph, a.chain, a.now);
    }
  }

  /** What an update leaves, operator by operator: fee and count are the chain's; a known operator keeps its public
      key, and is active unless it has been reported inactive for more than an hour; a new one has the configured key,
      and serves exactly when it has one and room for five more validators, whatever was reported of it. */
  lemma UpdatedMeans(before: Operators, after: Operators, limit: nat, clusters: Clusters, a: Answers, id: nat)
    requires Updated(before, after, limit, clusters, a) && id in after
    ensures id in a.graph && id in a.chain
    ensures after[id].fee == a.chain[id].fee && after[id].validatorCount == a.chain[id].validatorCount
    ensures id in before ==>
      && after[id].publicKey == before[id].publicKey
      && (after[id].active <==>
            a.graph[id] || before[id].lastNotActiveTime == 0 || a.now - before[id].lastNotActiveTime <= 3600)
    ensures id !in before ==>
      && after[id].publicKey == (if id in a.pubkeys then a.pubkeys[id] else "")
      && (id in Serving(after, limit) <==>
            id in a.pubkeys && a.pubkeys[id] != "" && a.chain[id].validatorCount + 5 <= limit)
  {
    if id in before {
      assert PolledOnce(before[id], after[id], id, a);
    }
  }

  lemma {:induction false} KnownIsNotMissing(ids: seq<nat>, ops: Operators, limit: nat, mid: nat)
    requires forall id :: id in ids ==> id in ops
    ensures Judge(ids, ops, limit, mid) != Missing
  {
    if ids != [] {
      assert ids[0] in ids;
      KnownIsNotMissing(ids[1..], ops, limit, mid);
    }
  }

  lemma CompletedIsNotMissing(clusters: Clusters, ops: Operators, limit: nat, key: string)
    requires UsedBy(clusters) <= ops.Keys && PreSelects(ops, limit) && key in clusters && clusters[key].managing != {}
    ensures JudgeCluster(clusters[key], ops, limit) != Missing
  {
    assert forall id :: id in clusters[key].operatorIds ==> id in UsedBy(clusters);
    KnownIsNotMissing(clusters[key].operatorIds, ops, limit, MidFee(PreSelection(ops, limit)));
  }

  /** An empty cluster is stored whose first unsuitable operator is not in the table. */
  ghost predicate EmptiedMissing(clusters: Clusters, ops: Operators, limit: nat)
    requires PreSelects(ops, limit)
  {
    exists key :: key in clusters && clusters[key].managing == {} && JudgeCluster(clusters[key], ops, limit) == Missing
  }

  /** Exactly when no cluster is selected although the table has been completed: too few usable operators, an emptied
      cluster with an operator that completion has left out, or no cluster and no block to be had. */
  lemma CompletedTableSelects(clusters: Clusters, ops: Operators, limit: nat, clusters': Clusters, r: Option<string>)
    requires UsedBy(clusters) <= ops.Keys && Keyed(clusters) && Selects(clusters, ops, limit, clusters', r)
    ensures r.None? <==>
      || !PreSelects(ops, limit)
      || EmptiedMissing(clusters, ops, limit)
      || (AllRejected(clusters, ops, limit) && NoBlockLeft(Candidates(ops, limit), clusters.Keys))
  {
    SelectionFailsExactly(clusters, ops, limit, clusters', r);
    if PreSelects(ops, limit) && SomeMissing(clusters, ops, limit) {
      var key :| key in clusters && JudgeCluster(clusters[key], ops, limit) == Missing;
      if clusters[key].managing != {} {
        CompletedIsNotMissing(clusters, ops, limit, key);
      }
    }
  }

  /** With a completed table offboarding never fails over an unknown operator, and never crashes. */
  lemma CompletedTableOffboards(clusters: Clusters, ops: Operators, limit: nat, key: string, st: ValStatus)
    requires UsedBy(clusters) <= ops.Keys && key in clusters && clusters[key].managing != {}
    ensures var decision := OffboardDecision(st, clusters[key], ops, limit);
      decision != Crashed && (decision == Failed <==> Living(st) && !PreSelects(ops, limit))
  {
    var ids := clusters[key].operatorIds;
    UsedIn(clusters, key);
    assert forall k :: 0 <= k < |ids| ==> ids[k] in IdsOf(clusters[key]);
    if Living(st) {
      ScansEnd(ids, ops, if PreSelects(ops, limit) then MidFee(PreSelection(ops, limit)) else 0);
    }
  }
}
