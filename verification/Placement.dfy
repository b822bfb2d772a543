/** Choosing the cluster for a registration, and the offboarding rule that must not contradict it. */
module Placement {
  import opened Wrappers
  import opened ValidatorStatus
  import opened Sorting
  import opened ClusterKeys
  import opened Chain
  import opened Replay
  import opened Registry

  /** An operator of the target table; its id is the key it is stored under. */
  datatype Operator = Operator(
    publicKey: string, fee: nat, active: bool, validatorCount: nat, lastNotActiveTime: int)

  type Operators = map<nat, Operator>

  const VAL_AMOUNT_THRESHOLD: nat := 5
  const CLUSTER_OP_AMOUNT: nat := 4

  predicate Usable(op: Operator, limit: nat) {
    op.publicKey != "" && op.active && op.validatorCount + VAL_AMOUNT_THRESHOLD <= limit
  }

  // ---- Pre-selection: independent of map order ----

  /** The two fields of a pre-selected operator that selection looks at. */
  datatype Candidate = Candidate(fee: nat, id: nat)

  predicate FeeLeq(a: Candidate, b: Candidate) { a.fee < b.fee || (a.fee == b.fee && a.id <= b.id) }

  predicate NoDuplicates<T(==)>(s: seq<T>) { forall i, j :: 0 <= i < j < |s| ==> s[i] != s[j] }

  /** One of the orders in which a map with these keys may be iterated. */
  ghost predicate Enumerates<T(!new)>(order: seq<T>, keys: set<T>) {
    NoDuplicates(order) && (forall x :: x in order <==> x in keys)
  }

  function UsableIn(order: seq<nat>, ops: Operators, limit: nat): seq<Candidate> {
    if order == [] then []
    else
      var rest, id := UsableIn(order[..|order| - 1], ops, limit), order[|order| - 1];
      if id in ops && Usable(ops[id], limit) then rest + [Candidate(ops[id].fee, id)] else rest
  }

  ghost function SomeOrder(keys: set<nat>): (order: seq<nat>)
    ensures Enumerates(order, keys)
  {
    if keys == {} then []
    else
      var x :| x in keys;
      var rest := SomeOrder(keys - {x});
      assert forall i :: 0 <= i < |rest| ==> rest[i] in keys - {x};
      [x] + rest
  }

  /** The pre-selected operators by ascending fee, then id. */
  ghost function PreSelection(ops: Operators, limit: nat): seq<Candidate> {
    Sort(FeeLeq, UsableIn(SomeOrder(ops.Keys), ops, limit))
  }

  lemma {:induction false} UsableInMembers(order: seq<nat>, ops: Operators, limit: nat)
    requires NoDuplicates(order)
    ensures var r := UsableIn(order, ops, limit);
      && (forall x :: x in r <==> x.id in order && x.id in ops && Usable(ops[x.id], limit) && x.fee == ops[x.id].fee)
      && NoDuplicates(r)
  {
    if order != [] {
      var init := order[..|order| - 1];
      UsableInMembers(init, ops, limit);
      assert order == init + [order[|order| - 1]];
      var r := UsableIn(init, ops, limit);
      forall i | 0 <= i < |r| ensures r[i].id != order[|order| - 1] {
        assert r[i] in r;
        assert r[i].id in init;
      }
    }
  }

  lemma {:induction false} CountOfUnique<T>(s: seq<T>, x: T)
    requires NoDuplicates(s)
    ensures multiset(s)[x] == if x in s then 1 else 0
  {
    if s != [] {
      var init := s[..|s| - 1];
      CountOfUnique(init, x);
      assert s == init + [s[|s| - 1]];
    }
  }

  lemma SameMembersSameMultiset<T(!new)>(a: seq<T>, b: seq<T>)
    requires NoDuplicates(a) && NoDuplicates(b) && (forall x :: x in a <==> x in b)
    ensures multiset(a) == multiset(b)
  {
    forall x ensures multiset(a)[x] == multiset(b)[x] {
      CountOfUnique(a, x);
      CountOfUnique(b, x);
    }
  }

  /** There is one way to sort given candidates. */
  lemma SortedOnce(a: seq<Candidate>, b: seq<Candidate>)
    requires Sorted(FeeLeq, a) && Sorted(FeeLeq, b) && NoDuplicates(a) && NoDuplicates(b)
    requires forall x :: x in a <==> x in b
    ensures a == b
  {
    SameMembersSameMultiset(a, b);
    SortedUnique(FeeLeq, a, b);
  }

  /** Whatever order the operator map is iterated in, the sorted pre-selection is the same. */
  lemma PreSelectionOrderIndependent(order: seq<nat>, ops: Operators, limit: nat)
    requires Enumerates(order, ops.Keys)
    ensures Sort(FeeLeq, UsableIn(order, ops, limit)) == PreSelection(ops, limit)
  {
    var other := SomeOrder(ops.Keys);
    UsableInMembers(order, ops, limit);
    UsableInMembers(other, ops, limit);
    var a, b := UsableIn(order, ops, limit), UsableIn(other, ops, limit);
    SameMembersSameMultiset(a, b);
    SortSorts(FeeLeq, a);
    SortSorts(FeeLeq, b);
    SortedUnique(FeeLeq, Sort(FeeLeq, a), Sort(FeeLeq, b));
  }

  lemma SameMultisetNoDuplicates<T(!new)>(a: seq<T>, b: seq<T>)
    requires NoDuplicates(a) && multiset(a) == multiset(b)
    ensures NoDuplicates(b) && forall x :: x in b <==> x in a
  {
    forall x ensures x in b <==> x in a {
      assert x in b <==> x in multiset(b);
      assert x in a <==> x in multiset(a);
    }
    forall i, j | 0 <= i < j < |b| ensures b[i] != b[j] {
      CountOfUnique(a, b[i]);
      assert b == b[..j] + b[j..];
    }
  }

  lemma PreSelectionMembers(ops: Operators, limit: nat)
    ensures var pre := PreSelection(ops, limit);
      && Sorted(FeeLeq, pre) && NoDuplicates(pre)
      && (forall x :: x in pre <==> x.id in ops && Usable(ops[x.id], limit) && x.fee == ops[x.id].fee)
  {
    var order := SomeOrder(ops.Keys);
    UsableInMembers(order, ops, limit);
    var a, pre := UsableIn(order, ops, limit), PreSelection(ops, limit);
    SortSorts(FeeLeq, a);
    SameMultisetNoDuplicates(a, pre);
  }

  ghost predicate PreSelects(ops: Operators, limit: nat) {
    |PreSelection(ops, limit)| >= CLUSTER_OP_AMOUNT * 2
  }

  function MidFee(pre: seq<Candidate>): nat
    requires pre != []
  {
    pre[|pre| / 2].fee
  }

  /** Ids of the leading candidates whose fee does not exceed `mid`. */
  function Affordable(pre: seq<Candidate>, mid: nat): seq<nat> {
    if pre == [] || pre[0].fee > mid then [] else [pre[0].id] + Affordable(pre[1..], mid)
  }

  lemma {:induction false} AffordableIsPrefix(pre: seq<Candidate>, mid: nat)
    requires Sorted(FeeLeq, pre)
    ensures var ids := Affordable(pre, mid);
      && |ids| <= |pre|
      && (forall i :: 0 <= i < |ids| ==> ids[i] == pre[i].id)
      && (forall i :: 0 <= i < |pre| ==> (pre[i].fee <= mid <==> i < |ids|))
  {
    if pre != [] && pre[0].fee <= mid {
      AffordableIsPrefix(pre[1..], mid);
      forall i | 0 < i < |pre| ensures pre[i] == pre[1..][i - 1] {}
    }
  }

  /** The ids a new cluster is made from, cheapest first. */
  ghost function Candidates(ops: Operators, limit: nat): seq<nat>
    requires PreSelects(ops, limit)
  {
    Affordable(PreSelection(ops, limit), MidFee(PreSelection(ops, limit)))
  }

  /** More than half of the pre-selected operators, and never fewer than five, cost at most the middle fee. */
  lemma MedianIsAffordable(ops: Operators, limit: nat)
    requires PreSelects(ops, limit)
    ensures |Candidates(ops, limit)| >= |PreSelection(ops, limit)| / 2 + 1 >= 5
  {
    PreSelectionMembers(ops, limit);
    var pre := PreSelection(ops, limit);
    AffordableIsPrefix(pre, MidFee(pre));
  }

  // ---- Pre-selection and the middle fee, counted in the table ----

  /** The operators a cluster may be made of. */
  function Serving(ops: Operators, limit: nat): set<nat> {
    set id | id in ops && ops[id].publicKey != "" && ops[id].active && ops[id].validatorCount + 5 <= limit
  }

  function ServingBelow(ops: Operators, limit: nat, fee: nat): set<nat> {
    set id | id in Serving(ops, limit) && ops[id].fee < fee
  }

  /** More than half of the serving operators cost strictly less. */
  predicate TooDear(ops: Operators, limit: nat, fee: nat) {
    |ServingBelow(ops, limit, fee)| >= |Serving(ops, limit)| / 2 + 1
  }

  function IdsOfAll(s: seq<Candidate>): set<nat> { set x | x in s :: x.id }

  lemma {:induction false} IdsCounted(s: seq<Candidate>)
    requires forall i, j :: 0 <= i < j < |s| ==> s[i].id != s[j].id
    ensures |IdsOfAll(s)| == |s|
  {
    if s != [] {
      var init, last := s[..|s| - 1], s[|s| - 1];
      IdsCounted(init);
      assert s == init + [last];
      assert IdsOfAll(s) == IdsOfAll(init) + {last.id};
      assert last.id !in IdsOfAll(init);
    }
  }

  lemma PreSelectionIds(ops: Operators, limit: nat)
    ensures var pre := PreSelection(ops, limit);
      && (forall i, j :: 0 <= i < j < |pre| ==> pre[i].id != pre[j].id)
      && IdsOfAll(pre) == Serving(ops, limit)
  {
    PreSelectionMembers(ops, limit);
    var pre := PreSelection(ops, limit);
    forall i, j | 0 <= i < j < |pre| ensures pre[i].id != pre[j].id {
      assert pre[i] in pre && pre[j] in pre;
    }
    forall id ensures id in IdsOfAll(pre) <==> id in Serving(ops, limit) {
      if id in Serving(ops, limit) {
        assert Candidate(ops[id].fee, id) in pre;
      }
    }
  }

  /** There is a middle fee exactly when eight operators serve. */
  lemma EightServe(ops: Operators, limit: nat)
    ensures |PreSelection(ops, limit)| == |Serving(ops, limit)|
    ensures PreSelects(ops, limit) <==> |Serving(ops, limit)| >= 8
  {
    PreSelectionIds(ops, limit);
    IdsCounted(PreSelection(ops, limit));
  }

  /** In a sorted list the candidates below a fee are a prefix. */
  lemma {:induction false} BelowIsPrefix(pre: seq<Candidate>, fee: nat) returns (n: nat)
    requires Sorted(FeeLeq, pre)
    ensures n <= |pre| && forall i :: 0 <= i < |pre| ==> (pre[i].fee < fee <==> i < n)
  {
    n := 0;
    if pre != [] {
      n := BelowIsPrefix(pre[..|pre| - 1], fee);
      var last := |pre| - 1;
      if pre[last].fee < fee {
        assert forall i :: 0 <= i < last ==> FeeLeq(pre[i], pre[last]);
        n := |pre|;
      }
    }
  }

  /** A fee is above the middle fee exactly when it is too dear: when at least half of the serving operators and one
      more cost strictly less. */
  lemma TooDearExactly(ops: Operators, limit: nat, fee: nat)
    requires PreSelects(ops, limit)
    ensures fee > MidFee(PreSelection(ops, limit)) <==> TooDear(ops, limit, fee)
  {
    var pre := PreSelection(ops, limit);
    PreSelectionMembers(ops, limit);
    PreSelectionIds(ops, limit);
    EightServe(ops, limit);
    var n := BelowIsPrefix(pre, fee);
    IdsCounted(pre[..n]);
    forall id ensures id in IdsOfAll(pre[..n]) <==> id in ServingBelow(ops, limit, fee) {
      if id in ServingBelow(ops, limit, fee) {
        var x := Candidate(ops[id].fee, id);
        assert x in pre;
        var i :| 0 <= i < |pre| && pre[i] == x;
        assert pre[..n][i] == x;
      }
      if id in IdsOfAll(pre[..n]) {
        var i :| 0 <= i < n && pre[i].id == id;
        assert pre[i] in pre;
      }
    }
    assert IdsOfAll(pre[..n]) == ServingBelow(ops, limit, fee);
  }

  /** The candidates are the serving operators that are not too dear, by ascending fee and then id, each once. */
  lemma CandidatesExactly(ops: Operators, limit: nat)
    requires PreSelects(ops, limit)
    ensures var cand := Candidates(ops, limit);
      && (forall id :: id in cand <==> id in Serving(ops, limit) && !TooDear(ops, limit, ops[id].fee))
      && (forall i, j :: 0 <= i < j < |cand| ==>
            && cand[i] in ops && cand[j] in ops
            && (ops[cand[i]].fee < ops[cand[j]].fee || (ops[cand[i]].fee == ops[cand[j]].fee && cand[i] < cand[j])))
  {
    var pre, cand := PreSelection(ops, limit), Candidates(ops, limit);
    PreSelectionMembers(ops, limit);
    PreSelectionIds(ops, limit);
    AffordableIsPrefix(pre, MidFee(pre));
    forall id ensures id in cand <==> id in Serving(ops, limit) && !TooDear(ops, limit, ops[id].fee) {
      if id in ops {
        TooDearExactly(ops, limit, ops[id].fee);
      }
      if id in cand {
        var i :| 0 <= i < |cand| && cand[i] == id;
        assert pre[i] in pre;
      }
      if id in Serving(ops, limit) {
        var x := Candidate(ops[id].fee, id);
        assert x in pre;
        var i :| 0 <= i < |pre| && pre[i] == x;
        assert i < |cand| ==> cand[i] == id;
      }
    }
    forall i, j | 0 <= i < j < |cand|
      ensures cand[i] in ops && cand[j] in ops
      ensures ops[cand[i]].fee < ops[cand[j]].fee || (ops[cand[i]].fee == ops[cand[j]].fee && cand[i] < cand[j])
    {
      assert pre[i] in pre && pre[j] in pre && FeeLeq(pre[i], pre[j]);
    }
  }

  // ---- A new cluster ----

  function Block(ids: seq<nat>, j: nat): seq<nat>
    requires 5 * j + 4 <= |ids|
  {
    ids[5 * j..5 * j + 4]
  }

  /** The loop moves past block `j`: a candidate follows it and its key, in fee order, is stored. */
  predicate Skipped(ids: seq<nat>, stored: set<string>, j: nat) {
    5 * j + 4 < |ids| && ClusterKey(Block(ids, j)) in stored
  }

  function PickBlock(ids: seq<nat>, stored: set<string>, j: nat): Option<nat>
    decreases |ids| - 5 * j
  {
    if 5 * j + 4 > |ids| then None
    else if Skipped(ids, stored, j) then PickBlock(ids, stored, j + 1)
    else Some(j)
  }

  lemma PickBlockStep(ids: seq<nat>, stored: set<string>, j: nat)
    ensures 5 * j + 4 > |ids| ==> PickBlock(ids, stored, j) == None
    ensures Skipped(ids, stored, j) ==> PickBlock(ids, stored, j) == PickBlock(ids, stored, j + 1)
    ensures 5 * j + 4 <= |ids| && !Skipped(ids, stored, j) ==> PickBlock(ids, stored, j) == Some(j)
  {
  }

  /** Closed form of the candidate loop: the least block that is not skipped, and an error only if there is none. */
  lemma {:induction false} PickBlockIsLeast(ids: seq<nat>, stored: set<string>, j: nat)
    ensures var r := PickBlock(ids, stored, j);
      && (r.Some? ==>
            && j <= r.value && 5 * r.value + 4 <= |ids| && !Skipped(ids, stored, r.value)
            && (forall i: nat :: j <= i < r.value ==> Skipped(ids, stored, i)))
      && (r.None? ==> forall i: nat :: j <= i && 5 * i + 4 <= |ids| ==> Skipped(ids, stored, i))
    decreases |ids| - 5 * j
  {
    if 5 * j + 4 <= |ids| && Skipped(ids, stored, j) {
      PickBlockIsLeast(ids, stored, j + 1);
    }
  }

  function NewCluster(ids: seq<nat>): Cluster { Cluster(ids, FRESH, {}, 0, 0, 0) }

  type Clusters = map<string, Cluster>

  /** The ascending ids the new-cluster path settles on, if it finds any. */
  ghost function NewIds(clusters: Clusters, ops: Operators, limit: nat): Option<seq<nat>>
    requires PreSelects(ops, limit)
  {
    var ids := Candidates(ops, limit);
    var j := PickBlock(ids, clusters.Keys, 0);
    if j.None? then None
    else
      PickBlockIsLeast(ids, clusters.Keys, 0);
      Some(SortIds(Block(ids, j.value)))
  }

  // ---- Choosing among stored clusters ----

  datatype Verdict = Missing | Rejected | Accepted

  function Judge(ids: seq<nat>, ops: Operators, limit: nat, mid: nat): Verdict {
    if ids == [] then Accepted
    else if ids[0] !in ops then Missing
    else if !Usable(ops[ids[0]], limit) || ops[ids[0]].fee > mid then Rejected
    else Judge(ids[1..], ops, limit, mid)
  }

  lemma {:induction false} AcceptedMeans(ids: seq<nat>, ops: Operators, limit: nat, mid: nat)
    ensures Judge(ids, ops, limit, mid) == Accepted <==>
      forall id :: id in ids ==> id in ops && Usable(ops[id], limit) && ops[id].fee <= mid
  {
    if ids != [] {
      AcceptedMeans(ids[1..], ops, limit, mid);
      assert ids == [ids[0]] + ids[1..];
    }
  }

  ghost function JudgeCluster(c: Cluster, ops: Operators, limit: nat): Verdict
    requires PreSelects(ops, limit)
  {
    Judge(c.operatorIds, ops, limit, MidFee(PreSelection(ops, limit)))
  }

  /** All operators of the cluster serve and none is too dear. */
  predicate Fits(c: Cluster, ops: Operators, limit: nat) {
    forall id :: id in c.operatorIds ==> id in Serving(ops, limit) && !TooDear(ops, limit, ops[id].fee)
  }

  /** A cluster is accepted exactly when it fits. */
  lemma AcceptedExactly(c: Cluster, ops: Operators, limit: nat)
    requires PreSelects(ops, limit)
    ensures JudgeCluster(c, ops, limit) == Accepted <==> Fits(c, ops, limit)
  {
    AcceptedMeans(c.operatorIds, ops, limit, MidFee(PreSelection(ops, limit)));
    forall id | id in ops ensures ops[id].fee > MidFee(PreSelection(ops, limit)) <==> TooDear(ops, limit, ops[id].fee) {
      TooDearExactly(ops, limit, ops[id].fee);
    }
  }

  predicate Considered(c: Cluster, isFirst: bool) { isFirst ==> c.managing != {} }

  ghost predicate LocalFails(clusters: Clusters, ops: Operators, limit: nat, isFirst: bool) {
    !PreSelects(ops, limit) ||
    exists key ::
      key in clusters && Considered(clusters[key], isFirst) && JudgeCluster(clusters[key], ops, limit) == Missing
  }

  ghost function Eligible(clusters: Clusters, ops: Operators, limit: nat, isFirst: bool): set<string>
    requires PreSelects(ops, limit)
  {
    set key |
      key in clusters && Considered(clusters[key], isFirst) && JudgeCluster(clusters[key], ops, limit) == Accepted
  }

  /** The clusters after the first selection and, if that found nothing, the new-cluster path. */
  ghost function AfterFetch(clusters: Clusters, ops: Operators, limit: nat): Option<Clusters> {
    if LocalFails(clusters, ops, limit, true) then None
    else if Eligible(clusters, ops, limit, true) != {} then Some(clusters)
    else
      var ids := NewIds(clusters, ops, limit);
      if ids.None? then None else Some(clusters[ClusterKey(ids.value) := NewCluster(ids.value)])
  }

  /** Outcomes of `selectClusterForRegister`: the clusters it leaves and the key it returns, `None` for an error.
      Among equally loaded clusters the unstable sort may return any. */
  ghost predicate Selects(clusters: Clusters, ops: Operators, limit: nat, clusters': Clusters, r: Option<string>) {
    var fetched := AfterFetch(clusters, ops, limit);
    if fetched.None? then clusters' == clusters && r.None?
    else
      && clusters' == fetched.value
      && if LocalFails(clusters', ops, limit, false) then r.None?
         else
           var eligible := Eligible(clusters', ops, limit, false);
           if eligible == {} then r.None?
           else
             && r.Some? && r.value in eligible
             && forall key :: key in eligible ==> |clusters'[r.value].managing| <= |clusters'[key].managing|
  }

  ghost predicate Keyed(clusters: Clusters) {
    forall key :: key in clusters ==>
      key == ClusterKey(clusters[key].operatorIds) && Ascending(clusters[key].operatorIds)
  }

  /** The ids of a new cluster are all acceptable. */
  lemma NewIdsAccepted(clusters: Clusters, ops: Operators, limit: nat)
    requires PreSelects(ops, limit) && NewIds(clusters, ops, limit).Some?
    ensures var ids := NewIds(clusters, ops, limit).value;
      JudgeCluster(NewCluster(ids), ops, limit) == Accepted && |ids| == 4 && Ascending(ids)
  {
    PreSelectionMembers(ops, limit);
    var pre := PreSelection(ops, limit);
    var mid := MidFee(pre);
    var cand := Affordable(pre, mid);
    AffordableIsPrefix(pre, mid);
    PickBlockIsLeast(cand, clusters.Keys, 0);
    var block := Block(cand, PickBlock(cand, clusters.Keys, 0).value);
    var ids := SortIds(block);
    SameElements(ids, block);
    forall id | id in ids ensures id in ops && Usable(ops[id], limit) && ops[id].fee <= mid {
      assert id in cand;
      var i :| 0 <= i < |cand| && cand[i] == id;
      assert pre[i] in pre;
    }
    AcceptedMeans(ids, ops, limit, mid);
  }

  /** The new-cluster path only ever overwrites an empty cluster. */
  lemma NewKeyIsEmpty(clusters: Clusters, ops: Operators, limit: nat)
    requires Keyed(clusters) && PreSelects(ops, limit) && NewIds(clusters, ops, limit).Some?
    requires Eligible(clusters, ops, limit, true) == {}
    ensures var key := ClusterKey(NewIds(clusters, ops, limit).value);
      key in clusters ==> clusters[key].managing == {}
  {
    NewIdsAccepted(clusters, ops, limit);
    var ids := NewIds(clusters, ops, limit).value;
    var key := ClusterKey(ids);
    if key in clusters {
      ClusterKeyInjective(clusters[key].operatorIds, ids);
      assert key !in Eligible(clusters, ops, limit, true);
    }
  }

  /** Placement never loses a validator: every cluster that manages one is left as it was. The only cluster that can
      change is an absent or empty one, and it becomes a fresh cluster. */
  lemma PlacementKeepsValidators(
    clusters: Clusters, ops: Operators, limit: nat, clusters': Clusters, r: Option<string>)
    requires Keyed(clusters) && Selects(clusters, ops, limit, clusters', r)
    ensures Keyed(clusters') && clusters.Keys <= clusters'.Keys
    ensures forall key :: key in clusters && clusters[key].managing != {} ==> clusters'[key] == clusters[key]
    ensures forall key :: key in clusters' && !(key in clusters && clusters'[key] == clusters[key]) ==>
      && clusters'[key] == NewCluster(clusters'[key].operatorIds)
      && clusters'[key].latestCluster == Snapshot(0, 0, 0, true, 0) && clusters'[key].managing == {}
  {
    if PreSelects(ops, limit) && clusters' != clusters {
      NewKeyIsEmpty(clusters, ops, limit);
      NewIdsAccepted(clusters, ops, limit);
    }
  }

  /** No cluster with validators can take another one, and none has an operator that is not in the table. */
  ghost predicate AllRejected(clusters: Clusters, ops: Operators, limit: nat)
    requires PreSelects(ops, limit)
  {
    forall key ::
      key in clusters && clusters[key].managing != {} ==> JudgeCluster(clusters[key], ops, limit) == Rejected
  }

  lemma FirstFindsNone(clusters: Clusters, ops: Operators, limit: nat)
    ensures !LocalFails(clusters, ops, limit, true) && Eligible(clusters, ops, limit, true) == {} <==>
      PreSelects(ops, limit) && AllRejected(clusters, ops, limit)
  {
    if PreSelects(ops, limit) && !AllRejected(clusters, ops, limit) {
      var key :| key in clusters && clusters[key].managing != {}
        && JudgeCluster(clusters[key], ops, limit) != Rejected;
      assert JudgeCluster(clusters[key], ops, limit) == Accepted ==> key in Eligible(clusters, ops, limit, true);
    }
  }

  /** The loop comes to block `j`, whose ids are these in another order, or which no candidate follows. In both cases
      the cluster of these ids is not looked up. */
  ghost predicate DisplacesAt(cand: seq<nat>, stored: set<string>, ids: seq<nat>, j: nat) {
    && 5 * j + 4 <= |cand| && (forall i: nat :: i < j ==> Skipped(cand, stored, i))
    && SortIds(Block(cand, j)) == ids
    && (5 * j + 4 == |cand| || !Ascending(Block(cand, j)))
  }

  ghost predicate Displaces(clusters: Clusters, ops: Operators, limit: nat, ids: seq<nat>) {
    && PreSelects(ops, limit) && AllRejected(clusters, ops, limit)
    && exists j: nat :: DisplacesAt(Candidates(ops, limit), clusters.Keys, ids, j)
  }

  /** A stored key is that of ascending ids, so no block in another order is found. */
  lemma NotStoredUnlessAscending(clusters: Clusters, block: seq<nat>)
    requires Keyed(clusters) && ClusterKey(block) in clusters
    ensures Ascending(block) && clusters[ClusterKey(block)].operatorIds == block
  {
    ClusterKeyInjective(clusters[ClusterKey(block)].operatorIds, block);
  }

  lemma PickedAt(cand: seq<nat>, stored: set<string>, j: nat)
    requires 5 * j + 4 <= |cand| && !Skipped(cand, stored, j) && forall i: nat :: i < j ==> Skipped(cand, stored, i)
    ensures PickBlock(cand, stored, 0) == Some(j)
  {
    PickBlockIsLeast(cand, stored, 0);
  }

  /** The block picked has the ids of a stored cluster exactly when the loop has not looked that cluster up. */
  lemma PicksStoredIds(clusters: Clusters, cand: seq<nat>, ids: seq<nat>)
    requires Keyed(clusters) && ClusterKey(ids) in clusters && clusters[ClusterKey(ids)].operatorIds == ids
    ensures var j := PickBlock(cand, clusters.Keys, 0);
      (j.Some? && 5 * j.value + 4 <= |cand| && SortIds(Block(cand, j.value)) == ids) <==>
        exists j: nat :: DisplacesAt(cand, clusters.Keys, ids, j)
  {
    var j := PickBlock(cand, clusters.Keys, 0);
    PickBlockIsLeast(cand, clusters.Keys, 0);
    if j.Some? && SortIds(Block(cand, j.value)) == ids {
      if Ascending(Block(cand, j.value)) {
        SortOfSorted(Block(cand, j.value));
      }
      assert DisplacesAt(cand, clusters.Keys, ids, j.value);
    }
    if k: nat :| DisplacesAt(cand, clusters.Keys, ids, k) {
      if Skipped(cand, clusters.Keys, k) {
        NotStoredUnlessAscending(clusters, Block(cand, k));
      }
      PickedAt(cand, clusters.Keys, k);
    }
  }

  /** What a selection leaves behind. */
  lemma SelectionLeaves(clusters: Clusters, ops: Operators, limit: nat, clusters': Clusters, r: Option<string>)
    requires Selects(clusters, ops, limit, clusters', r)
    ensures clusters' ==
      if PreSelects(ops, limit) && AllRejected(clusters, ops, limit) && NewIds(clusters, ops, limit).Some? then
        var ids := NewIds(clusters, ops, limit).value;
        clusters[ClusterKey(ids) := NewCluster(ids)]
      else clusters
  {
    FirstFindsNone(clusters, ops, limit);
  }

  lemma PickedIds(clusters: Clusters, ops: Operators, limit: nat, ids: seq<nat>)
    requires PreSelects(ops, limit)
    ensures var cand := Candidates(ops, limit);
      var j := PickBlock(cand, clusters.Keys, 0);
      NewIds(clusters, ops, limit) == Some(ids) <==>
        j.Some? && 5 * j.value + 4 <= |cand| && SortIds(Block(cand, j.value)) == ids
  {
    PickBlockIsLeast(Candidates(ops, limit), clusters.Keys, 0);
  }

  /** Exactly when a used cluster is overwritten: every cluster with validators is rejected, and the first block that
      the loop does not skip has the cluster's ids but was looked up in fee order, or, being the last, not at all. */
  lemma OverwritesExactly(
    clusters: Clusters, ops: Operators, limit: nat, clusters': Clusters, r: Option<string>, key: string)
    requires Keyed(clusters) && Selects(clusters, ops, limit, clusters', r)
    requires key in clusters && clusters[key] != NewCluster(clusters[key].operatorIds)
    ensures clusters'[key] != clusters[key] <==> Displaces(clusters, ops, limit, clusters[key].operatorIds)
  {
    SelectionLeaves(clusters, ops, limit, clusters', r);
    if PreSelects(ops, limit) && AllRejected(clusters, ops, limit) {
      var ids := clusters[key].operatorIds;
      PickedIds(clusters, ops, limit, ids);
      PicksStoredIds(clusters, Candidates(ops, limit), ids);
      var picked := NewIds(clusters, ops, limit);
      if picked.Some? && key == ClusterKey(picked.value) {
        ClusterKeyInjective(ids, picked.value);
      }
    }
  }

  /** Every block has ascending ids, and none ends at the last candidate. */
  ghost predicate BlocksLookedUp(cand: seq<nat>) {
    |cand| % 5 != 4 && forall j: nat :: 5 * j + 4 <= |cand| ==> Ascending(Block(cand, j))
  }

  lemma LookedUpIsNotDisplaced(cand: seq<nat>, stored: set<string>, ids: seq<nat>, j: nat)
    requires BlocksLookedUp(cand)
    ensures !DisplacesAt(cand, stored, ids, j)
  {
    assert (5 * j + 4) % 5 == 4;
  }

  /** When every block is looked up as it is stored, nothing that has been used is lost. */
  lemma NothingOverwritten(
    clusters: Clusters, ops: Operators, limit: nat, clusters': Clusters, r: Option<string>, key: string)
    requires Keyed(clusters) && Selects(clusters, ops, limit, clusters', r)
    requires PreSelects(ops, limit) ==> BlocksLookedUp(Candidates(ops, limit))
    requires key in clusters && clusters[key] != NewCluster(clusters[key].operatorIds)
    ensures clusters'[key] == clusters[key]
  {
    var ids := clusters[key].operatorIds;
    OverwritesExactly(clusters, ops, limit, clusters', r, key);
    if Displaces(clusters, ops, limit, ids) {
      var j: nat :| DisplacesAt(Candidates(ops, limit), clusters.Keys, ids, j);
      LookedUpIsNotDisplaced(Candidates(ops, limit), clusters.Keys, ids, j);
    }
  }

  // ---- The offboarding rule ----

  datatype Offboarding = Keep | Offboard | Failed | Crashed

  predicate OnSsv(st: ValStatus) {
    st.onStafi == Staked && (st.onSsv == REGISTERED_VALID || st.onSsv == REGISTERED_INVALID)
  }

  predicate Living(st: ValStatus) { OnSsv(st) && st.onBeacon == ACTIVE_ON_BEACON }

  /** First operator that is unknown or inactive, in order. */
  function ActivityScan(ids: seq<nat>, ops: Operators): Offboarding {
    if ids == [] then Keep
    else if ids[0] !in ops then Failed
    else if !ops[ids[0]].active then Offboard
    else ActivityScan(ids[1..], ops)
  }

  /** The fee loop reads the table without looking: an unknown operator is a nil dereference. */
  function FeeScan(ids: seq<nat>, ops: Operators, mid: nat): Offboarding {
    if ids == [] then Keep
    else if ids[0] !in ops then Crashed
    else if ops[ids[0]].fee > mid then Offboard
    else FeeScan(ids[1..], ops, mid)
  }

  ghost function OffboardDecision(st: ValStatus, c: Cluster, ops: Operators, limit: nat): Offboarding {
    var due := st.onSsv == REGISTERED_INVALID || (OnSsv(st) && st.onBeacon == EXITED_ON_BEACON);
    if !Living(st) then (if due then Offboard else Keep)
    else
      var activity := ActivityScan(c.operatorIds, ops);
      if activity == Failed || !PreSelects(ops, limit) then Failed
      else
        var fees := FeeScan(c.operatorIds, ops, MidFee(PreSelection(ops, limit)));
        if fees == Crashed then Crashed
        else if due || activity == Offboard || fees == Offboard then Offboard
        else Keep
  }

  /** How many leading operators are in the table. */
  function KnownPrefix(ids: seq<nat>, ops: Operators): (n: nat)
    ensures n <= |ids| && (forall k :: 0 <= k < n ==> ids[k] in ops) && (n < |ids| ==> ids[n] !in ops)
  {
    if ids == [] || ids[0] !in ops then 0 else 1 + KnownPrefix(ids[1..], ops)
  }

  predicate AllActive(ids: seq<nat>, ops: Operators) {
    forall k :: 0 <= k < KnownPrefix(ids, ops) ==> ops[ids[k]].active
  }

  predicate AllCheap(ids: seq<nat>, ops: Operators, mid: nat) {
    forall k :: 0 <= k < KnownPrefix(ids, ops) ==> ops[ids[k]].fee <= mid
  }

  lemma {:induction false} ScansEnd(ids: seq<nat>, ops: Operators, mid: nat)
    ensures ActivityScan(ids, ops) == Failed <==> KnownPrefix(ids, ops) < |ids| && AllActive(ids, ops)
    ensures FeeScan(ids, ops, mid) == Crashed <==> KnownPrefix(ids, ops) < |ids| && AllCheap(ids, ops, mid)
    ensures ActivityScan(ids, ops) == Offboard <==> !AllActive(ids, ops)
    ensures FeeScan(ids, ops, mid) == Offboard <==> !AllCheap(ids, ops, mid)
  {
    if ids != [] && ids[0] in ops {
      var n, rest := KnownPrefix(ids, ops), ids[1..];
      ScansEnd(rest, ops, mid);
      assert forall k :: 0 < k < n ==> ids[k] == rest[k - 1];
      assert AllActive(ids, ops) <==> ops[ids[0]].active && AllActive(rest, ops) by {
        assert forall k :: 0 <= k < n - 1 ==> rest[k] == ids[k + 1];
      }
      assert AllCheap(ids, ops, mid) <==> ops[ids[0]].fee <= mid && AllCheap(rest, ops, mid) by {
        assert forall k :: 0 <= k < n - 1 ==> rest[k] == ids[k + 1];
      }
    }
  }

  /** The decision read off the leading known operators. It crashes exactly when the activity loop has stopped at an
      inactive operator before one that is not in the table, and every operator up to that one is cheap enough for
      the fee loop to reach it. */
  lemma OffboardDecides(st: ValStatus, c: Cluster, ops: Operators, limit: nat)
    requires Living(st) && PreSelects(ops, limit)
    ensures var ids, mid := c.operatorIds, MidFee(PreSelection(ops, limit));
      var known, decision := KnownPrefix(ids, ops) == |ids|, OffboardDecision(st, c, ops, limit);
      && (decision == Failed <==> !known && AllActive(ids, ops))
      && (decision == Crashed <==> !known && !AllActive(ids, ops) && AllCheap(ids, ops, mid))
      && (decision == Keep <==>
            known && AllActive(ids, ops) && AllCheap(ids, ops, mid) && st.onSsv == REGISTERED_VALID)
  {
    ScansEnd(c.operatorIds, ops, MidFee(PreSelection(ops, limit)));
  }

  /** The rule, without the loops: a validator leaves when it is invalid on SSV, when it is registered and has exited,
      or when it is registered and active and an operator of its cluster is inactive or too dear. */
  predicate RemovalDue(st: ValStatus, c: Cluster, ops: Operators, limit: nat) {
    || st.onSsv == 2
    || (st.onStafi == Staked && st.onSsv == 1 && st.onBeacon == 2)
    || (st.onStafi == Staked && st.onSsv == 1 && st.onBeacon == 1
        && exists id :: id in c.operatorIds && id in ops && (!ops[id].active || TooDear(ops, limit, ops[id].fee)))
  }

  lemma ScansMeet(ids: seq<nat>, ops: Operators, limit: nat)
    requires PreSelects(ops, limit)
    ensures !AllActive(ids, ops) || !AllCheap(ids, ops, MidFee(PreSelection(ops, limit))) ==>
      exists id :: id in ids && id in ops && (!ops[id].active || TooDear(ops, limit, ops[id].fee))
    ensures KnownPrefix(ids, ops) == |ids| ==>
      (AllActive(ids, ops) && AllCheap(ids, ops, MidFee(PreSelection(ops, limit))) <==>
         !exists id :: id in ids && id in ops && (!ops[id].active || TooDear(ops, limit, ops[id].fee)))
  {
    forall id | id in ops ensures ops[id].fee > MidFee(PreSelection(ops, limit)) <==> TooDear(ops, limit, ops[id].fee) {
      TooDearExactly(ops, limit, ops[id].fee);
    }
  }

  /** Who is removed is due, who is kept is not; and with a middle fee and all operators known the decision is the
      rule. */
  lemma OffboardsExactly(st: ValStatus, c: Cluster, ops: Operators, limit: nat)
    ensures OffboardDecision(st, c, ops, limit) == Offboard ==> RemovalDue(st, c, ops, limit)
    ensures OffboardDecision(st, c, ops, limit) == Keep ==> !RemovalDue(st, c, ops, limit)
    ensures |Serving(ops, limit)| >= 8 && (forall id :: id in c.operatorIds ==> id in ops) ==>
      OffboardDecision(st, c, ops, limit) == if RemovalDue(st, c, ops, limit) then Offboard else Keep
  {
    EightServe(ops, limit);
    if Living(st) && PreSelects(ops, limit) {
      ScansEnd(c.operatorIds, ops, MidFee(PreSelection(ops, limit)));
      OffboardDecides(st, c, ops, limit);
      ScansMeet(c.operatorIds, ops, limit);
    }
  }

  lemma {:induction false} AcceptedScans(ids: seq<nat>, ops: Operators, limit: nat, mid: nat)
    requires Judge(ids, ops, limit, mid) == Accepted
    ensures ActivityScan(ids, ops) == Keep && FeeScan(ids, ops, mid) == Keep
  {
    if ids != [] {
      AcceptedScans(ids[1..], ops, limit, mid);
    }
  }

  lemma AcceptedIsKept(c: Cluster, ops: Operators, limit: nat, st: ValStatus)
    requires PreSelects(ops, limit) && JudgeCluster(c, ops, limit) == Accepted
    requires st.onSsv == REGISTERED_VALID && st.onBeacon != EXITED_ON_BEACON
    ensures OffboardDecision(st, c, ops, limit) == Keep
  {
    AcceptedScans(c.operatorIds, ops, limit, MidFee(PreSelection(ops, limit)));
  }

  /** Stable placement: the cluster returned is stored, is one of the least loaded eligible ones, and a valid, living
      validator put into it is not offboarded from it under the same operator table. */
  lemma PlacementIsStable(
    clusters: Clusters, ops: Operators, limit: nat, clusters': Clusters, key: string, st: ValStatus)
    requires Selects(clusters, ops, limit, clusters', Some(key))
    requires st.onSsv == REGISTERED_VALID && st.onBeacon != EXITED_ON_BEACON
    ensures key in clusters' && Fits(clusters'[key], ops, limit)
    ensures OffboardDecision(st, clusters'[key], ops, limit) == Keep
    ensures forall other :: other in clusters' && Fits(clusters'[other], ops, limit) ==>
      |clusters'[key].managing| <= |clusters'[other].managing|
  {
    var eligible := Eligible(clusters', ops, limit, false);
    assert key in eligible;
    AcceptedIsKept(clusters'[key], ops, limit, st);
    AcceptedExactly(clusters'[key], ops, limit);
    forall other | other in clusters' && Fits(clusters'[other], ops, limit)
      ensures |clusters'[key].managing| <= |clusters'[other].managing|
    {
      AcceptedExactly(clusters'[other], ops, limit);
      assert other in eligible;
    }
  }

  /** Every block the loop can come to is stored and has a candidate after it. */
  ghost predicate NoBlockLeft(cand: seq<nat>, stored: set<string>) {
    forall j: nat :: 5 * j + 4 <= |cand| ==> Skipped(cand, stored, j)
  }

  lemma NoneLeftExactly(clusters: Clusters, ops: Operators, limit: nat)
    requires PreSelects(ops, limit)
    ensures NewIds(clusters, ops, limit) == None <==> NoBlockLeft(Candidates(ops, limit), clusters.Keys)
  {
    PickBlockIsLeast(Candidates(ops, limit), clusters.Keys, 0);
  }

  ghost predicate SomeMissing(clusters: Clusters, ops: Operators, limit: nat)
    requires PreSelects(ops, limit)
  {
    exists key :: key in clusters && JudgeCluster(clusters[key], ops, limit) == Missing
  }

  /** The second selection judges every cluster; saving a new one does not change which are missing an operator. */
  lemma FetchKeepsMissing(clusters: Clusters, ops: Operators, limit: nat)
    requires Keyed(clusters) && PreSelects(ops, limit) && NewIds(clusters, ops, limit).Some?
    ensures var ids := NewIds(clusters, ops, limit).value;
      var after := clusters[ClusterKey(ids) := NewCluster(ids)];
      && (LocalFails(after, ops, limit, false) <==> SomeMissing(clusters, ops, limit))
      && ClusterKey(ids) in Eligible(after, ops, limit, false)
  {
    var ids := NewIds(clusters, ops, limit).value;
    var key := ClusterKey(ids);
    var after := clusters[key := NewCluster(ids)];
    NewIdsAccepted(clusters, ops, limit);
    if key in clusters {
      ClusterKeyInjective(clusters[key].operatorIds, ids);
    }
    if SomeMissing(clusters, ops, limit) {
      var k :| k in clusters && JudgeCluster(clusters[k], ops, limit) == Missing;
      assert k in after && after[k] == clusters[k] && Considered(after[k], false);
    }
    if LocalFails(after, ops, limit, false) {
      var k :| k in after && JudgeCluster(after[k], ops, limit) == Missing;
      assert k != key && k in clusters;
    }
  }

  lemma NotFetched(clusters: Clusters, ops: Operators, limit: nat)
    requires PreSelects(ops, limit) && !AllRejected(clusters, ops, limit)
    ensures LocalFails(clusters, ops, limit, false) <==> SomeMissing(clusters, ops, limit)
    ensures !SomeMissing(clusters, ops, limit) ==>
      !LocalFails(clusters, ops, limit, true) && Eligible(clusters, ops, limit, true) != {}
      && Eligible(clusters, ops, limit, false) != {}
  {
    assert forall key :: key in clusters ==> Considered(clusters[key], false);
    if !SomeMissing(clusters, ops, limit) {
      var key :| key in clusters && clusters[key].managing != {}
        && JudgeCluster(clusters[key], ops, limit) != Rejected;
      assert key in Eligible(clusters, ops, limit, true) && key in Eligible(clusters, ops, limit, false);
    }
  }

  /** Exactly when no cluster is selected: too few usable operators, some stored cluster, with validators or without,
      whose first unsuitable operator is not in the table, or no cluster and no block to be had. */
  lemma SelectionFailsExactly(clusters: Clusters, ops: Operators, limit: nat, clusters': Clusters, r: Option<string>)
    requires Keyed(clusters) && Selects(clusters, ops, limit, clusters', r)
    ensures r.None? <==>
      || !PreSelects(ops, limit)
      || SomeMissing(clusters, ops, limit)
      || (AllRejected(clusters, ops, limit) && NoBlockLeft(Candidates(ops, limit), clusters.Keys))
  {
    FirstFindsNone(clusters, ops, limit);
    if PreSelects(ops, limit) {
      NoneLeftExactly(clusters, ops, limit);
      if !AllRejected(clusters, ops, limit) {
        NotFetched(clusters, ops, limit);
      } else if NewIds(clusters, ops, limit).Some? {
        FetchKeepsMissing(clusters, ops, limit);
      }
    }
  }

  lemma SelectedIsStored(clusters: Clusters, ops: Operators, limit: nat, clusters': Clusters, r: Option<string>)
    requires Selects(clusters, ops, limit, clusters', r)
    ensures r.Some? ==> r.value in clusters'
  {
  }

  /** The final "no cluster" error cannot happen: once neither selection nor the new-cluster path has failed, a
      cluster is returned. */
  lemma SomeClusterIsSelected(
    clusters: Clusters, ops: Operators, limit: nat, clusters': Clusters, r: Option<string>)
    requires Selects(clusters, ops, limit, clusters', r)
    requires AfterFetch(clusters, ops, limit).Some? && !LocalFails(clusters', ops, limit, false)
    ensures r.Some?
  {
    if Eligible(clusters, ops, limit, true) != {} {
      var key :| key in Eligible(clusters, ops, limit, true);
      assert key in Eligible(clusters', ops, limit, false);
    } else {
      NewIdsAccepted(clusters, ops, limit);
      assert ClusterKey(NewIds(clusters, ops, limit).value) in Eligible(clusters', ops, limit, false);
    }
  }
}
