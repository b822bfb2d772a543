/** What is due to each handler, read off the state before it, and what it may send: written without the handlers. */
module Duties {
  import opened Wrappers
  import opened ValidatorStatus
  import opened Chain
  import opened Replay
  import opened Placement
  import opened Budget
  import opened Rounds
  import opened Paths
  import T = OperatorTable
  import V = ValInfo
  import Runway

  /** Where the client stands before its `i`-th handler, and back at the first after the last. */
  function Stage(i: nat): Pc {
    match i
    case 0 => Repairing
    case 1 => Syncing
    case 2 => Statuses
    case 3 => Operating
    case 4 => Staking
    case 5 => Depositing
    case 6 => FeeRecipient
    case 7 => Withdrawing
    case 8 => ReactiveGate
    case 9 => Onboarding
    case 10 => Offboarding
    case _ => Repairing
  }

  // ---- What a handler may send ----

  /** Between two states a handler has sent nothing on a cluster, or one transaction that satisfies `allowed`. */
  ghost predicate SendsOne(before: World, after: World, allowed: (World, Tx) -> bool) {
    || after.sent == before.sent
    || (&& |after.sent| == |before.sent| + 1 && before.sent <= after.sent
        && allowed(before, after.sent[|before.sent|]))
  }

  /** The cluster has no validators but a balance, as refreshed by the last pass; 0 is not recorded. */
  predicate EmptyWithBalance(w: World, balances: map<string, nat>, key: string) {
    && key in w.off.clusters && w.off.clusters[key].managing == {}
    && key in balances && balances[key] > 0
  }

  predicate Withdraws(before: World, balances: map<string, nat>, tx: Tx) {
    tx.kind == Withdraw && EmptyWithBalance(before, balances, tx.key)
  }

  /** What the network says of the clusters: which are liquidated, their balances, where one that cannot be asked for
      counts as 0, the network's fee and the liquidation period. */
  datatype Network = Network(liquidated: set<string>, balances: map<string, nat>, networkFee: nat, ltp: nat)

  function BalanceOf(net: Network, key: string): nat { if key in net.balances then net.balances[key] else 0 }

  /** The deposit that the cluster needs, if its operators are known. */
  function Needed(w: World, net: Network, key: string): Option<nat>
    requires key in w.off.clusters
  {
    var c := w.off.clusters[key];
    var fees := Runway.TotalFee(c.operatorIds, w.ops);
    if fees.None? then None
    else Some(Runway.NeedDeposit(BalanceOf(net, key), |c.managing|, fees.value + net.networkFee, net.ltp).0)
  }

  /** The cluster has validators and is liquidated, or needs a deposit. */
  predicate WantsRefill(w: World, net: Network, key: string) {
    && key in w.off.clusters && w.off.clusters[key].managing != {}
    && (key in net.liquidated || (Needed(w, net, key).Some? && Needed(w, net, key).value > 0))
  }

  /** The transaction reactivates a liquidated cluster or tops up another one. */
  predicate Refills(w: World, net: Network, tx: Tx) {
    && WantsRefill(w, net, tx.key)
    && tx.kind == if tx.key in net.liquidated then Reactivate else TopUp
  }

  /** On the cluster: nothing, or the refill it wants. */
  ghost predicate RefillsOne(before: World, after: World, net: Network, key: string) {
    || after.sent == before.sent
    || (&& |after.sent| == |before.sent| + 1 && before.sent <= after.sent
        && after.sent[|before.sent|].key == key && Refills(before, net, after.sent[|before.sent|]))
  }

  ghost predicate SentOn(before: World, after: World, key: string) {
    exists i :: |before.sent| <= i < |after.sent| && after.sent[i].key == key
  }

  /** Of the clusters visited some have been refilled as they want it, none twice. */
  ghost predicate Refilled(before: World, after: World, net: Network, visited: seq<string>) {
    && before.sent <= after.sent
    && (forall i :: |before.sent| <= i < |after.sent| ==>
          Refills(before, net, after.sent[i]) && after.sent[i].key in visited)
    && (forall i, j :: |before.sent| <= i < j < |after.sent| ==> after.sent[i].key != after.sent[j].key)
  }

  ghost predicate VisitedRefilled(before: World, after: World, net: Network, visited: seq<string>) {
    forall key :: key in visited && WantsRefill(before, net, key) ==> SentOn(before, after, key)
  }

  lemma SameWants(w0: World, w: World, net: Network)
    requires w.off == w0.off && w.ops == w0.ops
    ensures forall key :: WantsRefill(w0, net, key) <==> WantsRefill(w, net, key)
    ensures forall tx :: Refills(w0, net, tx) <==> Refills(w, net, tx)
  {
  }

  lemma RefilledOne(w0: World, w: World, w': World, net: Network, visited: seq<string>, key: string)
    requires Refilled(w0, w, net, visited) && key !in visited && w.off == w0.off && w.ops == w0.ops
    requires RefillsOne(w, w', net, key)
    ensures Refilled(w0, w', net, visited + [key])
    ensures VisitedRefilled(w0, w, net, visited) && (WantsRefill(w, net, key) ==> w'.sent != w.sent) ==>
      VisitedRefilled(w0, w', net, visited + [key])
  {
    SameWants(w0, w, net);
    hide Needed, WantsRefill, Refills;
    forall i | |w0.sent| <= i < |w'.sent|
      ensures Refills(w0, net, w'.sent[i]) && w'.sent[i].key in visited + [key]
    {
      if i < |w.sent| {
        assert w'.sent[i] == w.sent[i];
      }
    }
    forall k | k in visited && SentOn(w0, w, k) ensures SentOn(w0, w', k) {
      var i :| |w0.sent| <= i < |w.sent| && w.sent[i].key == k;
      assert w'.sent[i].key == k;
    }
    if w'.sent != w.sent {
      assert w'.sent[|w.sent|].key == key;
    }
  }

  /** What the pool has above its reserve. */
  function Spare(w: World): nat { if w.pool > w.reserved then w.pool - w.reserved else 0 }

  predicate StakeDue(w: World) {
    && w.dealed > w.latestTx && Spare(w) >= 31_000_000_000_000_000_000 && CountMatch(w.view) > 0
  }

  /** As many matched validators as the pool spares 31 ETH for have been staked, and no more. */
  ghost predicate StakedAll(before: World, after: World) {
    var chosen := Chosen(before, before.pool);
    && |chosen| == Smaller(CountMatch(before.view), Spare(before) / 31_000_000_000_000_000_000)
    && chosen != [] && after.stafi == MarkStaked(before.stafi, chosen)
    && after.pool + 31_000_000_000_000_000_000 * |chosen| >= before.pool
  }

  lemma DueIsChosen(w: World)
    ensures var chosen := Chosen(w, w.pool);
      && |chosen| == Smaller(CountMatch(w.view), Spare(w) / 31_000_000_000_000_000_000)
      && (Spare(w) >= 31_000_000_000_000_000_000 ==> (chosen != [] <==> CountMatch(w.view) > 0))
  {
    StakeCount(w.view, UsablePoolBalance(w.pool, w.reserved));
  }

  /** The transaction registers a staked validator that has waited. */
  predicate Registers(before: World, tx: Tx) {
    && tx.kind.Register? && tx.kind.val < |before.view| && before.view[tx.kind.val] == Staked
    && RemovedBlock(before.off, tx.kind.val) + MIGRATE_WAIT_BLOCK <= tx.head
  }

  /** Nothing is sent on a cluster but one registration of the validator. */
  ghost predicate RegistersOnly(before: World, after: World, val: nat, key: string) {
    after.sent == before.sent ||
    (&& |after.sent| == |before.sent| + 1 && before.sent <= after.sent
     && after.sent[|before.sent|].kind == Register(val) && after.sent[|before.sent|].key == key
     && before.head <= after.sent[|before.sent|].head)
  }

  /** The transaction removes a validator from the cluster its last registration named. */
  predicate RemovesFromOwn(before: World, tx: Tx) {
    && tx.kind.Remove? && tx.kind.val < |before.view|
    && tx.kind.val in before.off.clusterKeys && before.off.clusterKeys[tx.kind.val] == tx.key
  }

  // ---- The stored statuses ----

  /** The SSV and beacon statuses of the validators that have been polled. */
  type PolledStatuses = map<nat, (nat, nat)>

  function StatusAt(view: seq<Stafi>, polled: PolledStatuses, i: nat): ValStatus
    requires i < |view|
  {
    if i in polled then ValStatus(view[i], polled[i].0, polled[i].1) else ValStatus(view[i], 0, 0)
  }

  function StoredStatuses(view: seq<Stafi>, polled: PolledStatuses): seq<ValStatus> {
    seq(|view|, i requires 0 <= i < |view| => StatusAt(view, polled, i))
  }

  /** Only staked validators have other statuses. */
  ghost predicate PolledWhenStaked(view: seq<Stafi>, polled: PolledStatuses) {
    forall i :: i in polled ==> i < |view| && view[i] == Staked
  }

  function NowPolled(polled: PolledStatuses, i: nat, st: ValStatus): PolledStatuses {
    if st.onStafi == Staked then polled[i := (st.onSsv, st.onBeacon)] else polled
  }

  lemma OnePolled(view: seq<Stafi>, polled: PolledStatuses, i: nat, seen: V.Seen, fuel: nat)
    requires i < |view| && PolledWhenStaked(view, polled)
    ensures var st := V.Poll(StatusAt(view, polled, i), seen, fuel).st;
      && StoredStatuses(view[i := st.onStafi], NowPolled(polled, i, st)) == StoredStatuses(view, polled)[i := st]
      && PolledWhenStaked(view[i := st.onStafi], NowPolled(polled, i, st))
  {
    var st := V.Poll(StatusAt(view, polled, i), seen, fuel).st;
    assert view[i] == Staked ==> st.onStafi == Staked;
    assert st.onStafi != Staked ==> i !in polled && st.onSsv == 0 && st.onBeacon == 0;
  }

  /** The poll begun with `start` is the poll from `i` on of what it has made of it; or it has broken off. */
  ghost predicate PollGoesOn(
    start: seq<ValStatus>, seen: nat -> V.Seen, fuel: nat, sts: seq<ValStatus>, left: nat, i: nat, ok: bool)
  {
    V.PollFrom(start, seen, fuel, 0) == if ok then V.PollFrom(sts, seen, left, i) else V.Board(sts, left, false)
  }

  lemma PollBegins(start: seq<ValStatus>, seen: nat -> V.Seen, fuel: nat)
    ensures PollGoesOn(start, seen, fuel, start, fuel, 0, true)
  {
  }

  lemma PollEnds(
    start: seq<ValStatus>, seen: nat -> V.Seen, fuel: nat, sts: seq<ValStatus>, left: nat, i: nat, ok: bool)
    requires PollGoesOn(start, seen, fuel, sts, left, i, ok) && (ok ==> i == |sts|)
    ensures V.PollFrom(start, seen, fuel, 0) == V.Board(sts, left, ok)
  {
  }

  lemma StoredLength(view: seq<Stafi>, polled: PolledStatuses)
    ensures |StoredStatuses(view, polled)| == |view|
  {
  }

  lemma PollWentOn(
    start: seq<ValStatus>, seen: nat -> V.Seen, fuel: nat, sts: seq<ValStatus>, left: nat, i: nat)
    requires i < |sts| && PollGoesOn(start, seen, fuel, sts, left, i, true)
    ensures var r := V.Poll(sts[i], seen(i), left);
      PollGoesOn(start, seen, fuel, sts[i := r.st], r.left, i + 1, r.ok)
  {
  }

  /** A poll reads the contract's status, unless it fails before that. */
  lemma PollReadsContract(st: ValStatus, seen: V.Seen, fuel: nat, status: Stafi)
    requires Means(seen.stafi, status) && (st.onStafi == Staked ==> status == Staked)
    requires V.Ended(st) ==> st.onStafi == Staked
    ensures var r := V.Poll(st, seen, fuel);
      && (r.ok ==> r.st.onStafi == status) && (r.st.onStafi == status || r.st.onStafi == st.onStafi)
  {
    ClientStatusMeans(seen.stafi);
  }

  // ---- When something is due ----

  /** The size of a batch for the balance, limits and keys. */
  function BatchSize(w: World, slots: Uint64, byGas: Uint64): int {
    DepositLen(UsablePoolBalance(w.pool, w.reserved), |w.view|, slots, byGas)
  }

  /** The batch is paid for, fits the super node and the gas, and could not be larger. */
  predicate AsManyAsFit(w: World, slots: Uint64, byGas: Uint64, n: nat) {
    && 32_000_000_000_000_000_000 * n <= Spare(w) + 1600
    && |w.view| + n <= slots && n <= byGas
    && (n >= Spare(w) / 32_000_000_000_000_000_000 || |w.view| + n == slots || n == byGas)
  }

  lemma BatchFits(w: World, slots: Uint64, byGas: Uint64)
    ensures 0 < BatchSize(w, slots, byGas) ==> AsManyAsFit(w, slots, byGas, BatchSize(w, slots, byGas))
  {
    DepositLenBounds(UsablePoolBalance(w.pool, w.reserved), |w.view|, slots, byGas);
  }

  predicate DepositDue(w: World, slots: Uint64, byGas: Uint64) {
    && w.dealed > w.latestTx && Spare(w) >= 32_000_000_000_000_000_000
    && NonePending(w.view) && BatchSize(w, slots, byGas) != 0
  }

  /** The stored recipient is not the one it should be. */
  predicate RecipientDue(w: World, recipient: nat) { w.dealed > w.latestTx && w.off.feeRecipient != recipient }

  /** The stored statuses make the handler consider the validator. */
  predicate WantsCluster(w: World, polled: PolledStatuses, v: nat)
    requires v < |w.view|
  {
    V.WantsCluster(StatusAt(w.view, polled, v))
  }

  /** A least loaded one of the clusters whose operators all serve and are not too dear. */
  ghost predicate BestFit(w: World, key: string) {
    && key in w.off.clusters && Fits(w.off.clusters[key], w.ops, w.limit)
    && forall other :: other in w.off.clusters && Fits(w.off.clusters[other], w.ops, w.limit)
         ==> |w.off.clusters[key].managing| <= |w.off.clusters[other].managing|
  }

  predicate ClusterKnown(w: World, v: nat) { v in w.off.clusterKeys && w.off.clusterKeys[v] in w.off.clusters }

  /** By the offboarding rule, and by its stored statuses, the validator is to leave its cluster. */
  predicate LeaveDue(w: World, polled: PolledStatuses, v: nat)
    requires v < |w.view| && ClusterKnown(w, v)
  {
    RemovalDue(StatusAt(w.view, polled, v), w.off.clusters[w.off.clusterKeys[v]], w.ops, w.limit)
  }

  /** The first `n` validators have clusters and stay in them. */
  ghost predicate NoneDue(w: World, polled: PolledStatuses, n: nat) {
    n <= |w.view| && forall v: nat :: v < n ==> ClusterKnown(w, v) && !LeaveDue(w, polled, v)
  }

  // ---- What has been done ----

  ghost predicate UpdatedOperators(before: World, after: World, answers: T.Answers) {
    if before.dealed > before.latestTx then
      T.Updated(before.ops, after.ops, after.limit, before.off.clusters, answers)
    else after == before.(pc := Staking)
  }

  ghost predicate StakeDone(before: World, after: World) {
    if StakeDue(before) then StakedAll(before, after) else after == before.(pc := Depositing)
  }

  ghost predicate DepositDone(before: World, after: World, slots: Uint64, byGas: Uint64) {
    var n := BatchSize(before, slots, byGas);
    if DepositDue(before, slots, byGas) then
      0 < n && AsManyAsFit(before, slots, byGas, n) && DepositedExactly(before, after, true, n)
    else after == before.(pc := FeeRecipient)
  }

  predicate RecipientSet(before: World, after: World, recipient: nat) {
    if RecipientDue(before, recipient) then
      after.off == before.off.(feeRecipient := recipient) && before.head < after.latestTx
    else after == before.(pc := Withdrawing)
  }

  ghost predicate Withdrawn(before: World, after: World, balances: map<string, nat>) {
    if before.dealed > before.latestTx then
      && SendsOne(before, after, (w, tx) => Withdraws(w, balances, tx))
      && (after.sent == before.sent ==> forall key :: !EmptyWithBalance(before, balances, key))
    else after == before.(pc := ReactiveGate)
  }

  ghost predicate AllRefilled(before: World, after: World, net: Network) {
    if before.dealed > before.latestTx then
      && (exists order :: Refilled(before, after, net, order))
      && forall key :: WantsRefill(before, net, key) ==> SentOn(before, after, key)
    else after == before.(pc := Onboarding)
  }

  /** A registration is of a validator that wants a cluster, on one that fits best; and if there is none, although the
      cluster chosen is not liquidated, no validator that wants one has waited. */
  ghost predicate Onboarded(before: World, after: World, polled: PolledStatuses, isLiquidated: bool) {
    if before.dealed > before.latestTx then
      && SendsOne(before, after, Registers)
      && (after.sent != before.sent ==>
            var tx := after.sent[|before.sent|];
            WantsCluster(before, polled, tx.kind.val) && BestFit(after, tx.key))
      && (after.sent == before.sent && !isLiquidated ==>
            forall v: nat :: v < |before.view| && WantsCluster(before, polled, v) ==>
              RemovedBlock(before.off, v) + 96 > before.head)
    else after == before.(pc := Offboarding)
  }

  /** A removal is of the first validator that is due to leave; and if there is none, no validator is, up to the end or
      to the first without a known cluster. */
  ghost predicate Offboarded(before: World, after: World, polled: PolledStatuses) {
    if before.dealed > before.latestTx then
      && SendsOne(before, after, RemovesFromOwn)
      && (after.sent != before.sent ==>
            var v := after.sent[|before.sent|].kind.val;
            NoneDue(before, polled, v) && ClusterKnown(before, v) && LeaveDue(before, polled, v))
      && (after.sent == before.sent ==>
            exists n: nat :: NoneDue(before, polled, n) && (n == |before.view| || !ClusterKnown(before, n)))
    else after == before.(pc := Repairing)
  }

  /** The client with what is not part of the machine's state: the polled statuses, the two limits on a batch and the
      wanted fee recipient. */
  datatype Scene = Scene(w: World, polled: PolledStatuses, slots: Uint64, byGas: Uint64, recipient: nat)

  /** What calls answer in a round, where duties depend on it. */
  datatype Outside = Outside(answers: T.Answers, balances: map<string, nat>, net: Network, isLiquidated: bool)

  /** Between two handlers only the others act. */
  ghost predicate Waited(c: Blocks, s: Scene, s': Scene) {
    && Path(c, s.w, s'.w) && s' == s.(w := s'.w)
    && s'.w == s.w.(head := s'.w.head, pool := s'.w.pool, stafi := s'.w.stafi)
  }

  /** What the `i`-th handler has done when it returns. */
  ghost predicate Did(i: nat, s: Scene, s': Scene, out: Outside) {
    var before, after := s.w, s'.w;
    && before.pc == Stage(i) && after.pc == Stage(i + 1)
    && match i
       case 0 => |before.view| <= |before.stafi| && after.view == before.view + before.stafi[|before.view|..]
       case 1 => after.dealed == Max(before.dealed, if before.head > 2 then before.head - 2 else before.head)
       case 2 => |after.view| <= |after.stafi| && after.view == after.stafi[..|after.view|]
       case 3 => UpdatedOperators(before, after, out.answers)
       case 4 => StakeDone(before, after)
       case 5 => DepositDone(before, after, s.slots, s.byGas)
       case 6 => RecipientSet(before, after, s.recipient)
       case 7 => Withdrawn(before, after, out.balances)
       case 8 => AllRefilled(before, after, out.net)
       case 9 => Onboarded(before, after, s.polled, out.isLiquidated)
       case 10 => Offboarded(before, after, s.polled)
       case _ => true
  }
}
