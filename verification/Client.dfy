/** The handlers as the client runs them, one after the other, and the proof that whatever they do is a path of the
    state machine and what was due. A call out of the client is an arbitrary value; between calls blocks and donations
    arrive. */
module Client {
  import opened Wrappers
  import opened ValidatorStatus
  import opened Chain
  import opened Replay
  import opened Registry
  import opened Placement
  import opened Budget
  import opened Rounds
  import opened RoundsProof
  import opened Paths
  import opened Duties
  import R = OffchainState
  import B = ClusterBook
  import K = KeyTable
  import T = OperatorTable
  import V = ValInfo
  import Runway

  /** How a handler, and so a round, ends. A panic is recovered from outside the service, which is then over. */
  datatype Outcome = Returned | Erred | Panicked

  function OutcomeOf(ok: bool): Outcome { if ok then Returned else Erred }

  function FailuresInARow(outcomes: seq<Outcome>): nat {
    if outcomes == [] || outcomes[|outcomes| - 1] != Erred then 0
    else FailuresInARow(outcomes[..|outcomes| - 1]) + 1
  }

  /** A number from outside. */
  method Answer() returns (n: nat) {
    var any: int := *;
    return if any < 0 then 0 else any;
  }

  /** What the contract, whose statuses are `stafi`, SSV and the beacon chain answer for each validator. */
  method Answers(stafi: seq<Stafi>) returns (seen: nat -> V.Seen)
    ensures forall i: nat :: i < |stafi| ==> Means(seen(i).stafi, stafi[i])
  {
    var others: map<nat, V.Seen> := *;
    seen := (i: nat) =>
      (if i in others then others[i] else V.Seen(0, false, V.NotThere)).(
        stafi := if i < |stafi| then NumberOf(stafi[i]) else UNINITIAL);
  }

  class Client {
    const c: Blocks
    const reserved: nat
    const validatorsLimitByGas: Uint64
    const feeRecipientOnStafi: nat
    // the client
    var dealedEth1Block: nat
    var latestTxBlock: nat
    var off: Off
    var targetOperators: Operators
    var validatorsPerOperatorLimit: nat
    var validatorsPerSuperNodeLimit: Uint64
    var view: seq<Stafi>
    var polled: PolledStatuses
    // the world outside
    var head: nat
    var pool: nat
    var stafi: seq<Stafi>
    // bookkeeping of the proof
    ghost var pc: Pc
    ghost var sent: seq<Tx>
    ghost var base: Off
    ghost var baseDealed: nat
    ghost var reach: nat

    ghost function W(): World
      reads this
    {
      World(head, pc, off, dealedEth1Block, latestTxBlock, targetOperators, validatorsPerOperatorLimit,
            sent, base, baseDealed, reach, pool, reserved, stafi, view)
    }

    /** The client as the duties of its handlers see it. */
    ghost function S(): Scene
      reads this
    {
      Scene(W(), polled, validatorsPerSuperNodeLimit, validatorsLimitByGas, feeRecipientOnStafi)
    }

    constructor (
      c: Blocks, reserved: nat, byGas: Uint64, recipient: nat, operators: Operators, initialHeight: nat, head: nat,
      pool: nat, stafi: seq<Stafi>)
      requires initialHeight <= head && 3 <= head && Uninitiated !in stafi
      requires SUPER_NODE_STAKE_AMOUNT * PendingCount(stafi) <= UsablePoolBalance(pool, reserved) + 1600
      ensures Initial(initialHeight, W()) && this.c == c && PolledWhenStaked(view, polled)
    {
      this.c, this.reserved, this.head, this.pool, this.stafi := c, reserved, head, pool, stafi;
      dealedEth1Block, latestTxBlock, off, view, polled := initialHeight, 0, EMPTY, [], map[];
      validatorsLimitByGas, feeRecipientOnStafi, targetOperators := byGas, recipient, operators;
      validatorsPerOperatorLimit, validatorsPerSuperNodeLimit := 0, 0;
      pc, sent, base, baseDealed, reach := Repairing, [], EMPTY, initialHeight, initialHeight;
    }

    /** Time passes while a call is out. */
    method Wait()
      modifies this`head, this`pool
      ensures Path(c, old(W()), W()) && W() == old(W()).(head := head, pool := pool)
      ensures old(head) <= head && old(pool) <= pool
    {
      hide Path;
      var blocks := Answer();
      var donation := Answer();
      ghost var w := W();
      head, pool := head + blocks, pool + donation;
      StepTaken(c, w, Idle(blocks, donation), W());
    }

    predicate OffchainStateIsLatest()
      reads this
    {
      dealedEth1Block > latestTxBlock
    }

    /** The handler returns without having done anything. */
    ghost method Leave(ok: bool)
      requires ok ==> pc != Repairing && pc != Syncing && pc != Statuses && (pc == Operating ==> !Gate(W()))
      modifies this`pc
      ensures Path(c, old(W()), W()) && W() == old(W()).(pc := if ok then Following(old(pc)) else Repairing)
    {
      hide Path;
      ghost var w := W();
      pc := if ok then Following(pc) else Repairing;
      StepTaken(c, w, if ok then Skip else Fail, W());
    }

    /** Submit a transaction on a cluster with the stored snapshot and wait for it. */
    method SendOnCluster(kind: Action, key: string) returns (ok: bool)
      requires MayAct(W(), kind, key)
      modifies this`head, this`latestTxBlock, this`pc, this`sent
      ensures Path(c, old(W()), W())
      ensures pc == if ok then AfterTx(old(pc), key) else Repairing
      ensures sent == old(sent) + [Submitted(old(W()), kind, key, if ok then Some(latestTxBlock) else None)]
      ensures if ok then old(head) < latestTxBlock == head else head == old(head) && latestTxBlock == old(latestTxBlock)
    {
      hide Path;
      ghost var w := W();
      var accepted: bool := *;
      var block := Answer();
      ok := accepted && head < block && Emits(c, kind, key, block);
      ghost var mined := if ok then Some(block) else None;
      TxTaken(c, w, kind, key, mined);
      sent := sent + [Submitted(w, kind, key, mined)];
      pc := if ok then AfterTx(pc, key) else Repairing;
      if ok {
        latestTxBlock, head := block, block;
      }
    }

    /** The token approval before a registration. */
    method Approve() returns (ok: bool)
      requires pc.Registering?
      modifies this`head, this`latestTxBlock, this`pc
      ensures Path(c, old(W()), W()) && pc == (if ok then old(pc) else Repairing) && old(head) <= head
    {
      hide Path;
      ghost var w := W();
      var accepted: bool := *;
      var block := Answer();
      ok := accepted && head < block;
      if !ok {
        Leave(false);
        return;
      }
      latestTxBlock, head := block, block;
      StepTaken(c, w, Rounds.Approve(block), W());
    }

    method CheckAndRepairValNextKeyIndex() returns (ok: bool)
      requires pc == Repairing && |view| <= |stafi|
      modifies this`view, this`pc
      ensures Path(c, old(W()), W()) && pc == if ok then Syncing else Repairing
      ensures old(view) <= view && (ok ==> view == old(view) + stafi[|old(view)|..])
    {
      hide Path;
      ghost var w := W();
      var failed := false;
      while |view| < |stafi| && !failed
        invariant |w.view| <= |view| <= |stafi| && view == w.view + stafi[|w.view|..|view|]
        invariant W() == w.(view := view)
        decreases |stafi| - |view|, !failed
      {
        failed := *;
        if !failed {
          view := view + [stafi[|view|]];
        }
      }
      if !failed {
        assert |view| == |stafi| && stafi[..|view|] == stafi;
        // the query for the first key that the contract has not seen
        failed := *;
      }
      pc := if |view| == |stafi| then Syncing else Repairing;
      StepTaken(c, w, RepairKeys(|view|), W());
      ok := !failed;
      if failed {
        ghost var w1 := W();
        Leave(false);
        PathJoin(c, w, w1, W());
      }
    }

    method UpdateSsvOffchainState() returns (ok: bool)
      requires pc == Syncing
      modifies this`off, this`dealedEth1Block, this`pc, this`base, this`baseDealed, this`reach
      ensures Path(c, old(W()), W()) && pc == if ok then Statuses else Repairing
      ensures ok ==> dealedEth1Block == Max(old(dealedEth1Block), if head > 2 then head - 2 else head)
    {
      hide Path;
      ghost var w := W();
      var headFails: bool := *;
      if headFails {
        Leave(false);
        return false;
      }
      var fuel := Answer();
      var balancesOk: bool := *;
      var known := Below(|view|);
      var replay := new R.OffchainState.Resume(off, dealedEth1Block, known);
      ok := replay.UpdateSsvOffchainState(c, Some(head), fuel, balancesOk);
      PassTaken(c, w, known, fuel, balancesOk, replay.View(), replay.dealedEth1Block, ok);
      off := Off(replay.clusters, replay.latestRegistrationNonce, replay.feeRecipientAddressOnSsv,
                 replay.clusterKeys, replay.removedFromSsvOnBlock);
      dealedEth1Block := replay.dealedEth1Block;
      if ok {
        pc, base, baseDealed, reach := Statuses, off, dealedEth1Block, dealedEth1Block;
      } else {
        pc, reach := Repairing, Max(reach, Target(head));
      }
    }

    /** One turn of the loop. */
    method PollOne(i: nat, seen: V.Seen, fuel: nat) returns (left: nat, ok: bool)
      requires i < |view| <= |stafi| && PolledWhenStaked(view, polled) && StakedInv(W()) && Means(seen.stafi, stafi[i])
      modifies this`view, this`polled
      ensures var r := V.Poll(StoredStatuses(old(view), old(polled))[i], seen, fuel);
        && StoredStatuses(view, polled) == StoredStatuses(old(view), old(polled))[i := r.st]
        && left == r.left && ok == r.ok
      ensures view == old(view) || view == old(view)[i := stafi[i]]
      ensures ok ==> view == old(view)[i := stafi[i]]
      ensures PolledWhenStaked(view, polled) && StakedInv(W())
    {
      hide V.Poll;
      PolledIsStaked(i);
      PollReadsContract(StatusAt(view, polled, i), seen, fuel, stafi[i]);
      OnePolled(view, polled, i, seen, fuel);
      var r := V.Poll(StatusAt(view, polled, i), seen, fuel);
      assert view[i := view[i]] == view;
      view, polled := view[i := r.st.onStafi], NowPolled(polled, i, r.st);
      return r.left, r.ok;
    }

    /** The loop over the validators. `read` says how many of them then have the contract's status. */
    method PollAll(seen: nat -> V.Seen, fuel: nat) returns (ok: bool, ghost read: nat)
      requires |view| <= |stafi| && PolledWhenStaked(view, polled) && StakedInv(W())
      requires forall i: nat :: i < |stafi| ==> Means(seen(i).stafi, stafi[i])
      modifies this`view, this`polled
      ensures read <= |old(view)| && (ok ==> read == |view|) && PolledWhenStaked(view, polled)
      ensures view == stafi[..read] + old(view)[read..]
      ensures var b := V.PollFrom(StoredStatuses(old(view), old(polled)), seen, fuel, 0);
        StoredStatuses(view, polled) == b.sts && ok == b.ok
    {
      hide V.Poll, V.PollFrom, PollGoesOn, StoredStatuses, PolledWhenStaked;
      ghost var was := view;
      ghost var start := StoredStatuses(view, polled);
      var i, left := 0, fuel;
      ok, read := true, 0;
      PollBegins(start, seen, fuel);
      while i < |view| && ok
        invariant i <= |view| == |was| && read <= |view| && view == stafi[..read] + was[read..]
        invariant PolledWhenStaked(view, polled) && StakedInv(W()) && (ok ==> read == i)
        invariant PollGoesOn(start, seen, fuel, StoredStatuses(view, polled), left, i, ok)
        decreases |view| - i, ok
      {
        OneMoreRead(stafi, was, i);
        StoredLength(view, polled);
        ghost var sts := StoredStatuses(view, polled);
        ghost var before := left;
        left, ok := PollOne(i, seen(i), left);
        PollWentOn(start, seen, fuel, sts, before, i);
        read := if view[i] == stafi[i] then i + 1 else i;
        i := i + 1;
      }
      StoredLength(view, polled);
      PollEnds(start, seen, fuel, StoredStatuses(view, polled), left, i, ok);
    }

    /** The poll of every validator in key order. `limit` is the answer to the query for the super node's limit, and
        after `fuel` further calls one fails. */
    method UpdateValStatus(limit: Option<nat>, seen: nat -> V.Seen, fuel: nat) returns (ok: bool)
      requires pc == Statuses && |view| <= |stafi| && PolledWhenStaked(view, polled) && StakedInv(W())
      requires forall i: nat :: i < |stafi| ==> Means(seen(i).stafi, stafi[i])
      modifies this`view, this`polled, this`pc, this`validatorsPerSuperNodeLimit
      ensures Path(c, old(W()), W()) && pc == if ok then Operating else Repairing
      ensures |view| == |old(view)| && (ok ==> view == stafi[..|view|]) && PolledWhenStaked(view, polled)
      ensures limit.None? ==> !ok && view == old(view) && polled == old(polled)
      ensures limit.Some? ==>
        var b := V.PollFrom(StoredStatuses(old(view), old(polled)), seen, fuel, 0);
        StoredStatuses(view, polled) == b.sts && ok == b.ok
      ensures ok ==> limit.Some? && validatorsPerSuperNodeLimit == limit.value % TWO_64
    {
      hide Path, V.Poll, V.PollFrom, StoredStatuses, PolledWhenStaked, StakedInv, Means, Gate;
      ghost var w := W();
      if limit.None? {
        Leave(false);
        return false;
      }
      validatorsPerSuperNodeLimit := limit.value % TWO_64;
      ghost var read;
      ok, read := PollAll(seen, fuel);
      StatusesRead(c, w, read, ok);
      pc := if ok then Operating else Repairing;
    }

    lemma PolledIsStaked(i: nat)
      requires i < |view| <= |stafi| && PolledWhenStaked(view, polled) && StakedInv(W())
      ensures StatusAt(view, polled, i).onStafi == Staked ==> stafi[i] == Staked
      ensures V.Ended(StatusAt(view, polled, i)) ==> StatusAt(view, polled, i).onStafi == Staked
    {
    }

    method UpdateOperatorStatus(answers: T.Answers) returns (ok: bool)
      requires pc == Operating
      modifies this`targetOperators, this`validatorsPerOperatorLimit, this`pc
      ensures Path(c, old(W()), W()) && pc == if ok then Staking else Repairing
      ensures ok ==> UpdatedOperators(old(W()), W(), answers)
      ensures old(dealedEth1Block <= latestTxBlock) ==> ok
    {
      hide Path;
      ghost var w := W();
      if !OffchainStateIsLatest() {
        Leave(true);
        return true;
      }
      var table := new T.OperatorTable(targetOperators, validatorsPerOperatorLimit);
      ok := table.UpdateOperatorStatus(true, off.clusters, answers);
      targetOperators, validatorsPerOperatorLimit := table.targetOperators, table.validatorsPerOperatorLimit;
      pc := if ok then Staking else Repairing;
      StepTaken(c, w, RefreshOperators(answers, targetOperators, validatorsPerOperatorLimit, ok), W());
    }

    /** Stake the chosen validators with one transaction and wait for it. */
    method SubmitStake(read: nat, chosen: seq<nat>) returns (ok: bool)
      requires pc == Staking && OffchainStateIsLatest() && read <= pool
      requires UsablePoolBalance(read, reserved) >= MIN_AMOUNT_NEED_STAKE && chosen == Chosen(W(), read) != []
      modifies this`head, this`pool, this`latestTxBlock, this`stafi, this`pc
      ensures Path(c, old(W()), W()) && pc == if ok then Depositing else Repairing
      ensures stafi == (if ok then MarkStaked(old(stafi), chosen) else old(stafi))
      ensures pool == old(pool) - if ok then SUPER_NODE_STAKE_AMOUNT * |chosen| else 0
    {
      hide Path;
      ghost var w := W();
      var accepted: bool := *;
      var block := Answer();
      ok := accepted && head < block;
      if !ok {
        Leave(false);
        return;
      }
      StakeTaken(c, w, read, block, chosen);
      latestTxBlock, head := block, block;
      stafi, pool := MarkStaked(stafi, chosen), pool - SUPER_NODE_STAKE_AMOUNT * |chosen|;
      pc := Depositing;
    }

    method CheckAndStake() returns (ok: bool)
      requires pc == Staking
      modifies this`head, this`pool, this`latestTxBlock, this`stafi, this`pc
      ensures Path(c, old(W()), W()) && pc == if ok then Depositing else Repairing
      ensures ok ==> StakeDone(old(W()), W())
      ensures !ok ==> StakeDue(old(W())) && stafi == old(stafi) && pool >= old(pool)
    {
      hide Path;
      ghost var w0 := W();
      DueIsChosen(w0);
      if !OffchainStateIsLatest() {
        Leave(true);
        return true;
      }
      var read := pool;
      var poolBalance := UsablePoolBalance(read, reserved);
      if poolBalance < MIN_AMOUNT_NEED_STAKE {
        Leave(true);
        return true;
      }
      var chosen := SelectForStake(view, poolBalance);
      if chosen == [] {
        Leave(true);
        return true;
      }
      Wait();
      ghost var w := W();
      ok := SubmitStake(read, chosen);
      assert ok ==> StakedAll(w0, W());
      PathJoin(c, w0, w, W());
    }

    /** Whether some validator is still waiting for its stake. */
    method SomePending() returns (r: bool)
      ensures r <==> !NonePending(view)
    {
      for i := 0 to |view|
        invariant forall k :: 0 <= k < i ==> !Pending(view[k])
      {
        if view[i] == Deposited || view[i] == Match {
          return true;
        }
      }
      return false;
    }

    /** Deposit for `n` new keys with one transaction, wait for it and read the statuses back. */
    method SubmitDeposit(read: nat, superNodeLimit: nat, gasCount: nat, n: nat) returns (ok: bool)
      requires pc == Depositing && OffchainStateIsLatest() && read <= pool
      requires UsablePoolBalance(read, reserved) >= MIN_AMOUNT_NEED_DEPOSIT
      requires NonePending(view) && |view| == |stafi| && superNodeLimit < TWO_64 && gasCount < TWO_64
      requires 0 < n == DepositLen(UsablePoolBalance(read, reserved), |view|, superNodeLimit, gasCount)
      modifies this`head, this`pool, this`latestTxBlock, this`stafi, this`view, this`pc
      ensures Path(c, old(W()), W()) && pc == if ok then FeeRecipient else Repairing
      ensures (!ok && W() == old(W()).(pc := Repairing)) || DepositedExactly(old(W()), W(), ok, n)
    {
      hide Path, DepositLen, NonePending, Repeat, UsablePoolBalance, DepositedExactly;
      ghost var w := W();
      var accepted: bool := *;
      var block := Answer();
      if !accepted || head >= block {
        Leave(false);
        return false;
      }
      ok := *;
      DepositTaken(c, w, read, superNodeLimit, gasCount, n, block, ok);
      latestTxBlock, head := block, block;
      stafi, pool := stafi + Repeat(Deposited, n), pool - SUPER_NODE_DEPOSIT_AMOUNT * n;
      view := if ok then view + Repeat(Uninitiated, n) else view;
      pc := if ok then FeeRecipient else Repairing;
      assert W() == AfterDeposit(w, n, block, ok);
    }

    method CheckAndDeposit() returns (r: Outcome)
      requires pc == Depositing
      modifies this`head, this`pool, this`latestTxBlock, this`stafi, this`view, this`pc
      ensures Path(c, old(W()), W()) && pc == if r == Returned then FeeRecipient else Repairing
      ensures r == Returned ==> DepositDone(old(W()), W(), old(validatorsPerSuperNodeLimit), validatorsLimitByGas)
      ensures var slots := old(validatorsPerSuperNodeLimit);
        var n := BatchSize(old(W()), slots, validatorsLimitByGas);
        && (r != Returned ==> DepositDue(old(W()), slots, validatorsLimitByGas))
        && (r != Panicked && DepositDue(old(W()), slots, validatorsLimitByGas) ==> 0 < n)
        && (r == Erred && stafi != old(stafi) ==> 0 < n && DepositedExactly(old(W()), W(), false, n))
      ensures r == Panicked || stafi == old(stafi) ==> stafi == old(stafi) && view == old(view) && old(pool) <= pool
      ensures old(view) <= view
    {
      hide Path, DepositLen, DepositedExactly, AsManyAsFit, Repeat, NonePending;
      ghost var w0 := W();
      BatchFits(w0, validatorsPerSuperNodeLimit, validatorsLimitByGas);
      if !OffchainStateIsLatest() {
        Leave(true);
        return Returned;
      }
      var read := pool;
      var poolBalance := UsablePoolBalance(read, reserved);
      if poolBalance < MIN_AMOUNT_NEED_DEPOSIT {
        Leave(true);
        return Returned;
      }
      var waiting := SomePending();
      if waiting {
        Leave(true);
        return Returned;
      }
      var depositLen := DepositLen(poolBalance, |view|, validatorsPerSuperNodeLimit, validatorsLimitByGas);
      if depositLen == 0 {
        Leave(true);
        return Returned;
      }
      Wait();
      ghost var w := W();
      // a negative length cannot be allocated, and a key that cannot be prepared is missing in the rollback
      var keyFails: bool := *;
      if depositLen < 0 || keyFails || |view| != |stafi| {
        Leave(false);
        r := Panicked;
      } else {
        var ok := SubmitDeposit(read, validatorsPerSuperNodeLimit, validatorsLimitByGas, depositLen);
        r := OutcomeOf(ok);
        DepositedSince(w0, w, W(), ok, depositLen);
      }
      PathJoin(c, w0, w, W());
    }

    /** Set the recipient with one transaction, wait for it and note it. */
    method SubmitRecipient() returns (ok: bool)
      requires pc == FeeRecipient && RecipientDue(W(), feeRecipientOnStafi)
      modifies this`head, this`latestTxBlock, this`pc, this`off, this`base
      ensures Path(c, old(W()), W()) && pc == if ok then Withdrawing else Repairing
      ensures off == (if ok then old(off).(feeRecipient := feeRecipientOnStafi) else old(off))
      ensures ok ==> old(head) < latestTxBlock && SetsRecipient(c, latestTxBlock, feeRecipientOnStafi)
    {
      hide Path, SetsRecipient;
      ghost var w := W();
      var accepted: bool := *;
      var block := Answer();
      ok := accepted && head < block && SetsRecipient(c, block, feeRecipientOnStafi);
      if !ok {
        Leave(false);
        return;
      }
      RecipientTaken(c, w, block, feeRecipientOnStafi);
      latestTxBlock, head := block, block;
      off := off.(feeRecipient := feeRecipientOnStafi);
      base, pc := off, Withdrawing;
    }

    method CheckAndSetFeeRecipient() returns (ok: bool)
      requires pc == FeeRecipient
      modifies this`head, this`latestTxBlock, this`pc, this`off, this`base
      ensures Path(c, old(W()), W()) && pc == if ok then Withdrawing else Repairing
      ensures ok ==> RecipientSet(old(W()), W(), feeRecipientOnStafi)
      ensures off != old(off) ==> ok && SetsRecipient(c, latestTxBlock, feeRecipientOnStafi)
      ensures !ok ==> RecipientDue(old(W()), feeRecipientOnStafi)
    {
      hide Path, SetsRecipient;
      if !OffchainStateIsLatest() || off.feeRecipient == feeRecipientOnStafi {
        Leave(true);
        return true;
      }
      ok := SubmitRecipient();
    }

    method CheckAndWithdrawOnSSV(balances: map<string, nat>) returns (ok: bool)
      requires pc == Withdrawing
      modifies this`head, this`latestTxBlock, this`pc, this`sent
      ensures Path(c, old(W()), W()) && pc == if ok then ReactiveGate else Repairing
      ensures ok ==> Withdrawn(old(W()), W(), balances)
      ensures SendsOne(old(W()), W(), (w, tx) => Withdraws(w, balances, tx))
      ensures old(dealedEth1Block <= latestTxBlock) ==> ok
    {
      hide Path;
      if !OffchainStateIsLatest() {
        Leave(true);
        return true;
      }
      var order := B.IterationOrder(off.clusters.Keys);
      for i := 0 to |order|
        invariant W() == old(W())
        invariant forall k :: 0 <= k < i ==> !EmptyWithBalance(W(), balances, order[k])
      {
        var key := order[i];
        assert key in order;
        if off.clusters[key].managing != {} {
          continue;
        }
        if key !in balances || balances[key] == 0 {
          continue;
        }
        ok := SendOnCluster(Withdraw, key);
        return;
      }
      assert forall key :: key in off.clusters ==> key in order;
      Leave(true);
      return true;
    }

    /** One turn of the reactivation loop: at most one transaction on the cluster. */
    method ReactivateOrTopUp(key: string, net: Network) returns (ok: bool)
      requires pc.Reactive? && key !in pc.done && key in off.clusters
      modifies this`head, this`latestTxBlock, this`pc, this`sent
      ensures Path(c, old(W()), W())
      ensures if ok then pc.Reactive? && pc.done <= old(pc).done + {key} else pc == Repairing
      ensures RefillsOne(old(W()), W(), net, key)
      ensures ok && WantsRefill(old(W()), net, key) ==> sent != old(sent)
    {
      hide Path, Runway.AllKnown, Runway.Lasts, Runway.NeedDeposit, Runway.TotalFee;
      PathStart(c, W());
      var cluster := off.clusters[key];
      if cluster.managing == {} {
        return true;
      }
      var callFails: bool := *;
      if callFails {
        Leave(false);
        return false;
      }
      if key in net.liquidated {
        ok := SendOnCluster(Reactivate, key);
        return;
      }
      var amount := Runway.CalClusterNeedDepositAmount(
        cluster.operatorIds, targetOperators, net.networkFee, BalanceOf(net, key), |cluster.managing|, net.ltp);
      if amount.None? {
        Leave(false);
        return false;
      }
      if amount.value.0 > 0 {
        ok := SendOnCluster(TopUp, key);
        return;
      }
      return true;
    }

    /** The loop over the clusters, in whatever order the map gives them. */
    method RefillClusters(order: seq<string>, net: Network) returns (ok: bool)
      requires pc == ReactiveGate && OffchainStateIsLatest()
      requires NoDuplicates(order) && forall key :: key in order ==> key in off.clusters
      modifies this`head, this`latestTxBlock, this`pc, this`sent
      ensures Path(c, old(W()), W()) && pc == if ok then Onboarding else Repairing
      ensures Refilled(old(W()), W(), net, order)
      ensures ok ==> VisitedRefilled(old(W()), W(), net, order)
    {
      hide Path, WantsRefill, Refills;
      ghost var w0 := W();
      LoopEntered(c, w0);
      pc := Reactive({});
      for i := 0 to |order|
        invariant Path(c, w0, W()) && pc.Reactive? && forall key :: key in pc.done ==> key in order[..i]
        invariant Refilled(w0, W(), net, order[..i]) && VisitedRefilled(w0, W(), net, order[..i])
      {
        assert order[i] in order && order[i] !in order[..i];
        assert order[..i + 1] == order[..i] + [order[i]];
        ghost var w := W();
        ok := ReactivateOrTopUp(order[i], net);
        PathJoin(c, w0, w, W());
        RefilledOne(w0, w, W(), net, order[..i], order[i]);
        if !ok {
          return;
        }
      }
      assert order[..|order|] == order;
      ghost var w := W();
      Leave(true);
      PathJoin(c, w0, w, W());
      return true;
    }

    method CheckAndReactiveOnSSV(net: Network) returns (ok: bool)
      requires pc == ReactiveGate
      modifies this`head, this`latestTxBlock, this`pc, this`sent
      ensures Path(c, old(W()), W()) && pc == if ok then Onboarding else Repairing
      ensures ok ==> AllRefilled(old(W()), W(), net)
      ensures exists order :: Enumerates(order, off.clusters.Keys) && Refilled(old(W()), W(), net, order)
      ensures old(dealedEth1Block <= latestTxBlock) ==> ok
    {
      hide Path, Refills, Needed;
      var order := B.IterationOrder(off.clusters.Keys);
      if !OffchainStateIsLatest() {
        Leave(true);
        return true;
      }
      ok := RefillClusters(order, net);
    }

    /** Choose the cluster; the choice may have added a cluster even when it fails. */
    method ChooseCluster(val: nat) returns (choice: Option<string>)
      requires pc == Onboarding && OffchainStateIsLatest() && val < |view| && view[val] == Staked
      requires RemovedBlock(off, val) + MIGRATE_WAIT_BLOCK <= head
      modifies this`off, this`base, this`pc
      ensures Path(c, old(W()), W())
      ensures pc == if choice.Some? then Registering(val, choice.value) else Repairing
      ensures choice.Some? ==> BestFit(W(), choice.value)
      ensures off == old(off).(clusters := off.clusters)
    {
      hide Path;
      ghost var w := W();
      var book := new B.ClusterBook(off.clusters, targetOperators, validatorsPerOperatorLimit);
      choice := book.SelectClusterForRegister();
      ClusterChosen(c, w, val, book.clusters, choice);
      off := off.(clusters := book.clusters);
      base := off;
      pc := if choice.Some? then Registering(val, choice.value) else Repairing;
    }

    /** Send the registration, and after it is confirmed ask for the validator. */
    method RegisterAndCheck(val: nat, key: string) returns (done: bool)
      requires pc == Registering(val, key) && key in off.clusters
      modifies this`head, this`latestTxBlock, this`pc, this`sent
      ensures Path(c, old(W()), W()) && pc == if done then Offboarding else Repairing
      ensures RegistersOnly(old(W()), W(), val, key) && sent != old(sent)
    {
      hide Path;
      ghost var w0 := W();
      done := SendOnCluster(Register(val), key);
      var checkFails: bool := *;
      if done && checkFails {
        ghost var w := W();
        Leave(false);
        PathJoin(c, w0, w, W());
        done := false;
      }
    }

    /** A token approval if needed, then the registration. */
    method ApproveAndRegister(val: nat, key: string) returns (done: bool)
      requires pc == Registering(val, key) && key in off.clusters
      modifies this`head, this`latestTxBlock, this`pc, this`sent
      ensures Path(c, old(W()), W()) && pc == if done then Offboarding else Repairing
      ensures RegistersOnly(old(W()), W(), val, key) && (done ==> sent != old(sent))
    {
      hide Path;
      ghost var w0 := W();
      PathStart(c, w0);
      var approve: bool := *;
      if approve {
        done := Approve();
        if !done {
          return;
        }
      }
      ghost var w := W();
      done := RegisterAndCheck(val, key);
      PathJoin(c, w0, w, W());
    }

    /** From the chosen cluster to the confirmed registration. `done` says that the handler ends without error. */
    method RegisterOn(val: nat, key: string, isLiquidated: bool) returns (done: bool)
      requires pc == Registering(val, key) && key in off.clusters
      modifies this`head, this`pool, this`latestTxBlock, this`pc, this`sent
      ensures Path(c, old(W()), W()) && pc == if done then Offboarding else Repairing
      ensures RegistersOnly(old(W()), W(), val, key)
      ensures done ==> (sent == old(sent) <==> isLiquidated)
    {
      hide Path;
      ghost var w0 := W();
      Wait();
      ghost var w := W();
      var callFails: bool := *;
      if callFails || isLiquidated {
        Leave(!callFails);
        done := !callFails;
      } else {
        done := ApproveAndRegister(val, key);
      }
      PathJoin(c, w0, w, W());
    }

    /** Place one validator that has waited. */
    method OnboardOne(val: nat, isLiquidated: bool) returns (done: bool)
      requires pc == Onboarding && OffchainStateIsLatest() && val < |view| && view[val] == Staked
      requires RemovedBlock(off, val) + MIGRATE_WAIT_BLOCK <= head
      modifies this`head, this`pool, this`latestTxBlock, this`pc, this`sent, this`off, this`base
      ensures Path(c, old(W()), W()) && pc == if done then Offboarding else Repairing
      ensures SendsOne(old(W()), W(), Registers)
      ensures sent != old(sent) ==> sent[|old(sent)|].kind == Register(val) && BestFit(W(), sent[|old(sent)|].key)
      ensures done ==> (sent == old(sent) <==> isLiquidated)
    {
      hide Path;
      ghost var w0 := W();
      var choice := ChooseCluster(val);
      if choice.None? {
        return false;
      }
      hide BestFit;
      ghost var w := W();
      assert RemovedBlock(w.off, val) == RemovedBlock(w0.off, val) && w.head == w0.head;
      done := RegisterOn(val, choice.value, isLiquidated);
      PathJoin(c, w0, w, W());
    }

    /** The loop over the validators, up to the first one that wants a cluster and has waited; `ok` says that no call
        has failed. */
    method PickOnboard() returns (ok: bool, val: Option<nat>)
      requires pc == Onboarding
      modifies this`head, this`pool
      ensures Path(c, old(W()), W()) && W() == old(W()).(head := head, pool := pool)
      ensures val.Some? ==>
        && ok && val.value < |view| && WantsCluster(W(), polled, val.value)
        && RemovedBlock(off, val.value) + MIGRATE_WAIT_BLOCK <= head
      ensures ok && val.None? ==>
        forall v: nat :: v < |view| && WantsCluster(old(W()), polled, v) ==> RemovedBlock(off, v) + 96 > old(head)
    {
      hide Path, RemovedBlock;
      ghost var w0 := W();
      PathStart(c, w0);
      for i := 0 to |view|
        invariant Path(c, w0, W()) && W() == w0.(head := head, pool := pool) && w0.head <= head
        invariant forall v: nat :: v < i && WantsCluster(w0, polled, v) ==> RemovedBlock(off, v) + 96 > w0.head
      {
        if !V.WantsCluster(StatusAt(view, polled, i)) {
          continue;
        }
        ghost var w := W();
        Wait();
        PathJoin(c, w0, w, W());
        var callFails: bool := *;
        if callFails {
          return false, None;
        }
        var latestBlock := head;
        if RemovedBlock(off, i) + MIGRATE_WAIT_BLOCK > latestBlock {
          continue;
        }
        return true, Some(i);
      }
      return true, None;
    }

    method CheckAndOnboardOnSSV(isLiquidated: bool) returns (ok: bool)
      requires pc == Onboarding
      modifies this`head, this`pool, this`latestTxBlock, this`pc, this`sent, this`off, this`base
      ensures Path(c, old(W()), W()) && pc == if ok then Offboarding else Repairing
      ensures ok ==> Onboarded(old(W()), W(), polled, isLiquidated)
      ensures SendsOne(old(W()), W(), Registers)
      ensures sent != old(sent) ==>
        var tx := sent[|old(sent)|];
        && tx.kind.Register? && tx.kind.val < |view|
        && WantsCluster(old(W()), polled, tx.kind.val) && BestFit(W(), tx.key)
      ensures old(dealedEth1Block <= latestTxBlock) ==> ok
    {
      hide Path, RemovedBlock, BestFit;
      ghost var w0 := W();
      if !OffchainStateIsLatest() {
        Leave(true);
        return true;
      }
      var val;
      ok, val := PickOnboard();
      ghost var w := W();
      if val.Some? {
        ok := OnboardOne(val.value, isLiquidated);
      } else {
        Leave(ok);
      }
      PathJoin(c, w0, w, W());
    }

    /** The loop over the validators, up to the first one to act on. */
    method PickOffboard() returns (r: Offboarding, val: nat)
      ensures NoneDue(W(), polled, val)
      ensures r == Keep ==> val == |view| || !ClusterKnown(W(), val)
      ensures r != Keep ==> val < |view| && ClusterKnown(W(), val)
      ensures r == Offboard ==> LeaveDue(W(), polled, val)
    {
      hide RemovalDue;
      for i := 0 to |view|
        invariant NoneDue(W(), polled, i)
      {
        if i !in off.clusterKeys || off.clusterKeys[i] !in off.clusters {
          return Keep, i;
        }
        var book := new B.ClusterBook(off.clusters, targetOperators, validatorsPerOperatorLimit);
        var decision := book.DecideOffboard(StatusAt(view, polled, i), off.clusters[off.clusterKeys[i]]);
        if decision == Keep {
          continue;
        }
        var callFails: bool := *;
        return if callFails then Offboarding.Failed else decision, i;
      }
      return Keep, |view|;
    }

    method CheckAndOffboardOnSSV() returns (r: Outcome)
      requires pc == Offboarding
      modifies this`head, this`latestTxBlock, this`pc, this`sent
      ensures Path(c, old(W()), W()) && pc == Repairing
      ensures r == Returned ==> Offboarded(old(W()), W(), polled)
      ensures SendsOne(old(W()), W(), RemovesFromOwn) && (r == Panicked ==> sent == old(sent))
      ensures sent != old(sent) ==>
        var w, v := old(W()), sent[|old(sent)|].kind.val;
        NoneDue(w, polled, v) && ClusterKnown(w, v) && LeaveDue(w, polled, v)
      ensures old(dealedEth1Block <= latestTxBlock) ==> r == Returned
    {
      hide Path, LeaveDue;
      ghost var w := W();
      if !OffchainStateIsLatest() {
        Leave(true);
        return Returned;
      }
      var decision, val := PickOffboard();
      assert NoneDue(w, polled, val);
      match decision {
        case Offboard =>
          var ok := SendOnCluster(Remove(val), off.clusterKeys[val]);
          r := OutcomeOf(ok);
        case Keep =>
          Leave(true);
          r := Returned;
        case Failed =>
          Leave(false);
          r := Erred;
        case Crashed =>
          Leave(false);
          r := Panicked;
      }
    }

    /** The other parties act between two calls: blocks and donations arrive, and trust nodes vote. */
    method Others()
      modifies this`head, this`pool, this`stafi
      ensures Path(c, old(W()), W()) && pc == old(pc)
    {
      hide Path;
      ghost var w0 := W();
      Wait();
      var votes := Answer();
      for t := 0 to votes
        invariant Path(c, w0, W()) && pc == old(pc)
      {
        var i := Answer();
        var matched: bool := *;
        if i < |stafi| && stafi[i] == Deposited {
          ghost var w := W();
          stafi := stafi[i := if matched then Match else Unmatch];
          PathTo(c, w0, w, Vote(i, matched), W());
        }
      }
    }

    /** The client is somewhere on a run that started in `first`. */
    ghost predicate Running(start: nat, first: World)
      reads this
    {
      LawfulChain(c, start) && Initial(start, first) && Path(c, first, W()) && PolledWhenStaked(view, polled)
    }

    lemma RunningIsSafe(start: nat, first: World)
      requires Running(start, first)
      ensures Inv(c, start, first, W()) && |view| <= |stafi|
    {
      hide Path;
      PathIsSafe(c, start, first, W());
    }

    /** Let the others act, then note that the run goes on. */
    method Interlude(ghost start: nat, ghost first: World)
      requires Running(start, first)
      modifies this`head, this`pool, this`stafi
      ensures Running(start, first) && pc == old(pc) && |view| <= |stafi| && StakedInv(W())
      ensures Waited(c, old(S()), S())
    {
      hide Path;
      ghost var w := W();
      Others();
      PathJoin(c, first, w, W());
      RunningIsSafe(start, first);
    }

    /** The poll with whatever the outside answers. */
    method PollStatuses() returns (ok: bool)
      requires pc == Statuses && |view| <= |stafi| && PolledWhenStaked(view, polled) && StakedInv(W())
      modifies this`view, this`polled, this`pc, this`validatorsPerSuperNodeLimit
      ensures Path(c, old(W()), W()) && pc == if ok then Operating else Repairing
      ensures PolledWhenStaked(view, polled) && |view| <= |stafi| && (ok ==> view == stafi[..|view|])
    {
      hide Path;
      var limit: Option<nat> := *;
      var fuel := Answer();
      var seen := Answers(stafi);
      ok := UpdateValStatus(limit, seen, fuel);
    }

    /** The handlers up to the stake. */
    method HandleKeys(i: nat, out: Outside) returns (ok: bool)
      requires i < 5 && pc == Stage(i) && |view| <= |stafi| && StakedInv(W()) && PolledWhenStaked(view, polled)
      modifies this
      ensures Path(c, old(W()), W()) && PolledWhenStaked(view, polled)
      ensures pc == (if ok then Stage(i + 1) else Repairing) && (ok ==> Did(i, old(S()), S(), out))
    {
      hide Path, StakeDone, StakedInv, UpdatedOperators;
      match i {
        case 0 => ok := CheckAndRepairValNextKeyIndex();
        case 1 => ok := UpdateSsvOffchainState();
        case 2 => ok := PollStatuses();
        case 3 => ok := UpdateOperatorStatus(out.answers);
        case _ => ok := CheckAndStake();
      }
    }

    /** The handlers on the clusters, but for the last. */
    method HandleClusters(i: nat, out: Outside) returns (ok: bool)
      requires 6 <= i < 10 && pc == Stage(i)
      modifies this`head, this`pool, this`latestTxBlock, this`pc, this`sent, this`off, this`base
      ensures Path(c, old(W()), W())
      ensures pc == (if ok then Stage(i + 1) else Repairing) && (ok ==> Did(i, old(S()), S(), out))
    {
      hide Path, RecipientSet, Withdrawn, AllRefilled, Onboarded, SendsOne, Refilled, RecipientDue;
      match i {
        case 6 => ok := CheckAndSetFeeRecipient();
        case 7 => ok := CheckAndWithdrawOnSSV(out.balances);
        case 8 => ok := CheckAndReactiveOnSSV(out.net);
        case _ => ok := CheckAndOnboardOnSSV(out.isLiquidated);
      }
    }

    /** The `i`-th handler. */
    method Handle(i: nat, out: Outside, ghost start: nat, ghost first: World) returns (r: Outcome)
      requires i < 11 && Running(start, first) && pc == Stage(i) && |view| <= |stafi| && StakedInv(W())
      modifies this
      ensures Running(start, first) && pc == if r == Returned then Stage(i + 1) else Repairing
      ensures r == Returned ==> Did(i, old(S()), S(), out)
    {
      hide Path, StakedInv, LawfulChain, Initial, DepositDone, Offboarded, SendsOne, DepositDue, BatchSize,
        DepositedExactly, NoneDue, LeaveDue, ClusterKnown;
      ghost var w := W();
      if i < 5 {
        var ok := HandleKeys(i, out);
        r := OutcomeOf(ok);
      } else if i == 5 {
        r := CheckAndDeposit();
      } else if i < 10 {
        var ok := HandleClusters(i, out);
        r := OutcomeOf(ok);
      } else {
        r := CheckAndOffboardOnSSV();
      }
      PathJoin(c, first, w, W());
    }

    /** All handlers in their order, until one does not return. `trace` has what was found and left by each. A round
        that returns has done whatever was due to every handler when it ran; in between only the others have acted. */
    method Round(out: Outside, ghost start: nat, ghost first: World)
      returns (r: Outcome, ghost trace: seq<(Scene, Scene)>)
      requires Running(start, first) && pc == Repairing
      modifies this
      ensures Running(start, first) && pc == Repairing
      ensures r == Returned ==> |trace| == 11 && trace[10].1 == S()
      ensures forall i :: 0 <= i < |trace| ==> Did(i, trace[i].0, trace[i].1, out)
      ensures forall i :: 0 <= i < |trace| - 1 ==> Waited(c, trace[i].1, trace[i + 1].0)
    {
      hide Did, Inv, Waited;
      trace := [];
      for i := 0 to 11
        invariant Running(start, first) && pc == Stage(i) && |trace| == i && (i > 0 ==> trace[i - 1].1 == S())
        invariant forall k :: 0 <= k < i ==> Did(k, trace[k].0, trace[k].1, out)
        invariant forall k :: 0 <= k < i - 1 ==> Waited(c, trace[k].1, trace[k + 1].0)
      {
        Interlude(start, first);
        ghost var before := S();
        r := Handle(i, out, start, first);
        if r != Returned {
          return;
        }
        trace := trace + [(before, S())];
      }
      return Returned, trace;
    }

    /** The service: rounds until more than 200 of them in a row have failed, or one has panicked. Whatever the outside
        answers, the client stays on the machine, so every transaction it has sent is sound and the pool covers its
        stakes. `turns` is how long it is watched, `outcomes` how its rounds ended, and `shutdown` whether the loop has
        asked for a shutdown. */
    method SsvService(turns: nat, ghost start: nat, ghost first: World) returns (outcomes: seq<Outcome>, shutdown: bool)
      requires Running(start, first) && pc == Repairing
      modifies this
      ensures Running(start, first) && TxsSound(c, start, sent) && CoversStake(W())
      ensures Smaller(first.pool, first.reserved) <= pool
      ensures shutdown <==> FailuresInARow(outcomes) > 200
      ensures |outcomes| < turns ==> shutdown || (outcomes != [] && outcomes[|outcomes| - 1] == Panicked)
      ensures forall k :: 0 <= k < |outcomes| ==> FailuresInARow(outcomes[..k]) <= 200
      ensures forall k :: 0 <= k < |outcomes| - 1 ==> outcomes[k] != Panicked
    {
      hide Path;
      outcomes, shutdown := [], false;
      var retry := 0;
      while |outcomes| < turns && retry <= K.RETRY_LIMIT
        invariant Running(start, first) && pc == Repairing && |outcomes| <= turns
        invariant retry == FailuresInARow(outcomes) && Panicked !in outcomes
        invariant forall k :: 0 <= k < |outcomes| ==> FailuresInARow(outcomes[..k]) <= 200
        decreases turns - |outcomes|
      {
        ghost var before := outcomes;
        var r;
        ghost var trace;
        var out: Outside := *;
        r, trace := Round(out, start, first);
        outcomes := outcomes + [r];
        assert outcomes[..|before|] == before;
        assert forall k :: 0 <= k < |before| ==> outcomes[..k] == before[..k];
        if r == Panicked {
          RunningIsSafe(start, first);
          return;
        }
        retry := if r == Returned then 0 else retry + 1;
      }
      shutdown := retry > K.RETRY_LIMIT;
      RunningIsSafe(start, first);
    }
  }
}
