/** What holds in every reachable state of the client. */
module RoundsProof {
  import opened Wrappers
  import opened ValidatorStatus
  import opened Sorting
  import opened ClusterKeys
  import opened Chain
  import opened Replay
  import opened Registry
  import opened Placement
  import opened Budget
  import opened Rounds
  import T = OperatorTable

  // ---- Replayed state and chain ----

  /** A pass has completed in this round and no later one has begun. */
  predicate Clean(pc: Pc) { pc != Repairing && pc != Syncing }

  ghost predicate SyncInv(c: Blocks, start: nat, w: World) {
    && 3 <= w.head && w.dealed <= w.head && start <= w.baseDealed
    && Agrees(w.base, History(c, start, w.baseDealed))
    && Recovers(c, w.base, w.baseDealed, w.off, w.dealed, w.reach)
    && w.reach <= Max(w.dealed, Target(w.head))
    && (Clean(w.pc) ==> w.off == w.base && w.dealed == w.baseDealed)
  }

  lemma AgreesBetween(c: Blocks, start: nat, s: Off, d: nat, e: nat)
    requires LawfulChain(c, start) && start <= d <= e && Agrees(s, History(c, start, d))
    ensures Agrees(ApplyAll(s, Between(c, d + 1, e)), History(c, start, e))
  {
    BetweenSplit(c, start + 1, d, e);
    assert WellFormed(History(c, start, e));
    AgreesAll(s, History(c, start, d), Between(c, d + 1, e));
  }

  lemma PassStaysBelowHead(c: Blocks, s: Off, dealed: nat, input: PassInput)
    requires input.head.Some? && dealed <= input.head.value
    ensures dealed <= RunPass(c, s, dealed, input).dealed <= input.head.value
  {
    RecoversStart(c, s, dealed);
    ScanRecovers(c, input.known, s, dealed, s, dealed, dealed, Target(input.head.value), input.fuel);
  }

  /** A pass that succeeds has read everything any pass before it had aimed at. */
  lemma PassCatchesUp(c: Blocks, start: nat, base: Off, baseDealed: nat, s: Off, dealed: nat, reach: nat)
    requires LawfulChain(c, start) && start <= baseDealed && Agrees(base, History(c, start, baseDealed))
    requires Recovers(c, base, baseDealed, s, dealed, reach) && reach <= dealed
    ensures Agrees(s, History(c, start, dealed))
  {
    RecoversAtReach(c, base, baseDealed, s, dealed, reach);
    AgreesBetween(c, start, base, baseDealed, dealed);
  }

  lemma PassKeepsAgreement(c: Blocks, start: nat, w: World, input: PassInput)
    requires LawfulChain(c, start) && SyncInv(c, start, w) && input.head == Some(w.head)
    ensures var r := RunPass(c, w.off, w.dealed, input);
      && w.dealed <= r.dealed <= w.head
      && Recovers(c, w.base, w.baseDealed, r.off, r.dealed, Max(w.reach, Target(w.head)))
      && Max(w.reach, Target(w.head)) <= Max(r.dealed, Target(w.head))
      && (r.ok ==> Agrees(r.off, History(c, start, r.dealed)))
  {
    var r := RunPass(c, w.off, w.dealed, input);
    PassStaysBelowHead(c, w.off, w.dealed, input);
    PassRecovers(c, w.base, w.baseDealed, w.off, w.dealed, w.reach, input);
    if r.ok {
      PassCatchesUp(c, start, w.base, w.baseDealed, r.off, r.dealed, Max(w.reach, Target(w.head)));
    }
  }

  lemma SyncAfterPass(c: Blocks, start: nat, w: World, step: Step)
    requires LawfulChain(c, start) && SyncInv(c, start, w) && Enabled(c, w, step) && step.SyncPass?
    ensures SyncInv(c, start, Do(c, w, step))
  {
    var input := PassInput(Some(w.head), Known(w), step.fuel, step.balancesOk);
    PassKeepsAgreement(c, start, w, input);
    var r := RunPass(c, w.off, w.dealed, input);
    RecoversStart(c, r.off, r.dealed);
  }

  /** Replacing an empty or adding an absent cluster keeps the agreement. */
  lemma AgreesAfterSelect(s: Off, logs: seq<Log>, ops: Operators, limit: nat, clusters: Clusters, r: Option<string>)
    requires Agrees(s, logs) && Selects(s.clusters, ops, limit, clusters, r)
    ensures Agrees(s.(clusters := clusters), logs)
    ensures Keyed(s.clusters) && (r.Some? ==> r.value in clusters)
  {
    assert Keyed(s.clusters) by {
      forall key | key in s.clusters
        ensures key == ClusterKey(s.clusters[key].operatorIds) && Ascending(s.clusters[key].operatorIds)
      {
        assert ClusterSynced(logs, key, s.clusters[key]);
      }
    }
    PlacementKeepsValidators(s.clusters, ops, limit, clusters, r);
    var t := s.(clusters := clusters);
    forall key | key in clusters ensures ClusterSynced(logs, key, clusters[key]) {
      if key in s.clusters {
        assert ClusterSynced(logs, key, s.clusters[key]);
      } else {
        assert KeyUnused(logs, key);
      }
    }
    forall key | key !in clusters ensures KeyUnused(logs, key) {}
    assert ClustersSynced(t, logs);
    forall v ensures RemovedBlock(t, v) == LastRemoval(logs, v) {
      assert RemovedBlock(s, v) == LastRemoval(logs, v);
    }
  }

  lemma SyncAfterSelect(c: Blocks, start: nat, w: World, step: Step)
    requires SyncInv(c, start, w) && Enabled(c, w, step) && step.Select?
    ensures SyncInv(c, start, Do(c, w, step))
  {
    AgreesAfterSelect(w.off, History(c, start, w.dealed), w.ops, w.limit, step.clusters, step.choice);
    RecoversStart(c, Do(c, w, step).off, w.dealed);
  }

  lemma SyncAfterOther(c: Blocks, start: nat, w: World, step: Step)
    requires SyncInv(c, start, w) && Enabled(c, w, step)
    requires !step.SyncPass? && !step.Select? && !step.FeeRecipientTx?
    ensures SyncInv(c, start, Do(c, w, step))
  {
    var w' := Do(c, w, step);
    assert w'.off == w.off && w'.base == w.base && w.head <= w'.head;
    assert w'.dealed == w.dealed && w'.baseDealed == w.baseDealed && w'.reach == w.reach;
  }

  /** What a handler writes to the fee recipient leaves the rest in agreement. */
  lemma SyncAfterFeeRecipient(c: Blocks, start: nat, w: World, step: Step)
    requires SyncInv(c, start, w) && Enabled(c, w, step) && step.FeeRecipientTx?
    ensures SyncInv(c, start, Do(c, w, step))
  {
    var w' := Do(c, w, step);
    var logs := History(c, start, w.dealed);
    assert ClustersSynced(w'.base, logs);
    forall v ensures RemovedBlock(w'.base, v) == LastRemoval(logs, v) {
      assert RemovedBlock(w.base, v) == LastRemoval(logs, v);
    }
    RecoversStart(c, w'.off, w'.dealed);
  }

  lemma SyncStep(c: Blocks, start: nat, w: World, step: Step)
    requires LawfulChain(c, start) && SyncInv(c, start, w) && Enabled(c, w, step)
    ensures SyncInv(c, start, Do(c, w, step))
  {
    if step.SyncPass? {
      SyncAfterPass(c, start, w, step);
    } else if step.Select? {
      SyncAfterSelect(c, start, w, step);
    } else if step.FeeRecipientTx? {
      SyncAfterFeeRecipient(c, start, w, step);
    } else {
      SyncAfterOther(c, start, w, step);
    }
  }

  // ---- Transactions ----

  ghost predicate Mined(tx: Tx, block: nat) { tx.mined == Some(block) }

  /** The history the client had read when it submitted a transaction. */
  function Read(c: Blocks, start: nat, tx: Tx): seq<Log> { History(c, start, tx.dealed) }

  /** The snapshot sent is that of the cluster's last log read, or the cluster was overwritten by a fresh one and has
      had no log since. */
  ghost predicate SnapshotSent(c: Blocks, start: nat, tx: Tx) {
    || (tx.counter == LastBlock(Read(c, start, tx), tx.key) && tx.snapshot == LastSnapshot(Read(c, start, tx), tx.key))
    || (tx.counter == 0 && tx.snapshot == FRESH && tx.kind != Reactivate && tx.kind != TopUp)
  }

  /** The history read contains every earlier confirmed transaction on the same cluster, and the cluster's last log in
      it is no older. */
  ghost predicate SeesEarlier(c: Blocks, start: nat, earlier: Tx, tx: Tx) {
    earlier.key == tx.key && earlier.mined.Some? ==>
      && earlier.mined.value <= tx.dealed
      && earlier.mined.value <= LastBlock(Read(c, start, tx), tx.key)
  }

  /** A registration is submitted at least 96 blocks after each earlier confirmed removal of the same validator. */
  ghost predicate WaitsAfter(earlier: Tx, tx: Tx) {
    earlier.kind.Remove? && earlier.mined.Some? && tx.kind == Register(earlier.kind.val) ==>
      earlier.mined.value + MIGRATE_WAIT_BLOCK <= tx.head
  }

  ghost predicate TxsSound(c: Blocks, start: nat, sent: seq<Tx>) {
    && (forall i :: 0 <= i < |sent| ==> SnapshotSent(c, start, sent[i]))
    && (forall i, j :: 0 <= i < j < |sent| ==> SeesEarlier(c, start, sent[i], sent[j]) && WaitsAfter(sent[i], sent[j]))
  }

  ghost predicate TxsMined(c: Blocks, start: nat, w: World) {
    && w.latestTx <= w.head
    && (forall i, b: nat :: 0 <= i < |w.sent| && Mined(w.sent[i], b) ==>
          start < b <= w.latestTx && Emits(c, w.sent[i].kind, w.sent[i].key, b))
  }

  /** Every confirmed transaction on the cluster has been read back. */
  ghost predicate AllRead(w: World, key: string) {
    forall i, b: nat :: 0 <= i < |w.sent| && Mined(w.sent[i], b) && w.sent[i].key == key ==> b < w.dealed
  }

  ghost predicate WaitOver(w: World, v: nat) {
    forall i, b: nat :: 0 <= i < |w.sent| && Mined(w.sent[i], b) && w.sent[i].kind == Remove(v) ==>
      b + MIGRATE_WAIT_BLOCK <= w.head
  }

  ghost predicate InHandler(w: World) {
    && (w.pc.Reactive? ==> forall key :: key !in w.pc.done ==> AllRead(w, key))
    && (w.pc.Registering? ==> AllRead(w, w.pc.key) && WaitOver(w, w.pc.val) && w.pc.key in w.off.clusters)
  }

  ghost predicate TxInv(c: Blocks, start: nat, w: World) {
    TxsMined(c, start, w) && TxsSound(c, start, w.sent) && InHandler(w)
  }

  /** The gate: when it is open, every confirmed transaction has been read back. */
  lemma GateReadsAll(c: Blocks, start: nat, w: World, key: string)
    requires TxsMined(c, start, w) && Gate(w)
    ensures AllRead(w, key)
  {
  }

  lemma {:induction false} BlocksRise(logs: seq<Log>, i: nat, key: string)
    requires WellFormed(logs) && i < |logs|
    ensures logs[i].block <= HighestBlock(logs)
    ensures On(logs[i], key) ==> logs[i].block <= LastBlock(logs, key)
    ensures Removes(logs[i]) ==> logs[i].block <= LastRemoval(logs, logs[i].kind.val)
  {
    if i < |logs| - 1 {
      assert Init(logs)[i] == logs[i];
      BlocksRise(Init(logs), i, key);
      if On(Last(logs), key) && On(logs[i], key) {
        assert ClusterKey(Last(logs).ids) == key;
      }
    }
  }

  lemma {:induction false} NoLogNoSnapshot(logs: seq<Log>, key: string)
    requires WellFormed(logs) && LastBlock(logs, key) == 0
    ensures LastSnapshot(logs, key) == FRESH
  {
    if logs != [] {
      NoLogNoSnapshot(Init(logs), key);
    }
  }

  lemma ReadLogIndex(c: Blocks, start: nat, d: nat, block: nat, i: nat) returns (k: nat)
    requires start < block <= d && i < |c(block)|
    ensures k < |Between(c, start + 1, d)| && Between(c, start + 1, d)[k] == c(block)[i]
  {
    BetweenSplit(c, start + 1, block, d);
    assert Between(c, start + 1, block) == Between(c, start + 1, block - 1) + c(block);
    k := |Between(c, start + 1, block - 1)| + i;
  }

  /** A log of a block that has been read is in the history. */
  lemma ReadLogCounts(c: Blocks, start: nat, d: nat, block: nat, kind: Action, key: string)
    requires LawfulChain(c, start) && start < block <= d && Emits(c, kind, key, block)
    ensures block <= LastBlock(History(c, start, d), key)
    ensures kind.Remove? ==> block <= LastRemoval(History(c, start, d), kind.val)
  {
    var i :| 0 <= i < |c(block)| && EmittedBy(c(block)[i], kind, key);
    var k := ReadLogIndex(c, start, d, block, i);
    assert WellFormed(History(c, start, d));
    BlocksRise(History(c, start, d), k, key);
  }

  lemma SubmittedIsSound(c: Blocks, start: nat, w: World, kind: Action, key: string, mined: Option<nat>)
    requires LawfulChain(c, start) && SyncInv(c, start, w) && Clean(w.pc) && TxInv(c, start, w)
    requires MayAct(w, kind, key) && AllRead(w, key) && (kind.Register? ==> WaitOver(w, kind.val))
    ensures TxsSound(c, start, w.sent + [Submitted(w, kind, key, mined)])
  {
    var tx := Submitted(w, kind, key, mined);
    var cluster := w.off.clusters[key];
    assert ClusterSynced(Read(c, start, tx), key, cluster);
    assert SnapshotSent(c, start, tx);
    forall i | 0 <= i < |w.sent| ensures SeesEarlier(c, start, w.sent[i], tx) && WaitsAfter(w.sent[i], tx) {
      var earlier := w.sent[i];
      if earlier.mined.Some? {
        assert Mined(earlier, earlier.mined.value);
        if earlier.key == key {
          ReadLogCounts(c, start, w.dealed, earlier.mined.value, earlier.kind, key);
        }
      }
    }
  }

  lemma MinedAfterClusterTx(c: Blocks, start: nat, w: World, step: Step)
    requires SyncInv(c, start, w) && Clean(w.pc) && TxsMined(c, start, w)
    requires Enabled(c, w, step) && step.ClusterTx?
    ensures TxsMined(c, start, Do(c, w, step))
  {
    var w' := Do(c, w, step);
    assert w'.sent == w.sent + [Submitted(w, step.kind, step.key, step.mined)];
    forall i, b: nat | 0 <= i < |w'.sent| && Mined(w'.sent[i], b)
      ensures start < b <= w'.latestTx && Emits(c, w'.sent[i].kind, w'.sent[i].key, b)
    {
      if i < |w.sent| {
        assert Mined(w.sent[i], b);
      }
    }
  }

  /** Visiting one cluster does not touch what is known of the others. */
  lemma HandlerAfterClusterTx(c: Blocks, w: World, step: Step)
    requires InHandler(w) && Enabled(c, w, step) && step.ClusterTx?
    ensures InHandler(Do(c, w, step))
  {
    var w' := Do(c, w, step);
    var tx := Submitted(w, step.kind, step.key, step.mined);
    assert w'.sent == w.sent + [tx] && w'.dealed == w.dealed && !w'.pc.Registering?;
    if w'.pc.Reactive? {
      forall key | key !in w'.pc.done ensures AllRead(w', key) {
        assert AllRead(w, key) && tx.key != key;
        forall i, b: nat | 0 <= i < |w'.sent| && Mined(w'.sent[i], b) && w'.sent[i].key == key ensures b < w'.dealed {
          assert i < |w.sent| && Mined(w.sent[i], b);
        }
      }
    }
  }

  lemma TxAfterClusterTx(c: Blocks, start: nat, w: World, step: Step)
    requires LawfulChain(c, start) && SyncInv(c, start, w) && TxInv(c, start, w)
    requires Enabled(c, w, step) && step.ClusterTx?
    ensures TxInv(c, start, Do(c, w, step))
  {
    if Gate(w) {
      GateReadsAll(c, start, w, step.key);
    }
    SubmittedIsSound(c, start, w, step.kind, step.key, step.mined);
    MinedAfterClusterTx(c, start, w, step);
    HandlerAfterClusterTx(c, w, step);
  }

  /** A validator whose removed block lies 96 blocks back has waited for every confirmed removal. */
  lemma RemovalsWaited(c: Blocks, start: nat, w: World, v: nat)
    requires LawfulChain(c, start) && SyncInv(c, start, w) && Clean(w.pc) && TxsMined(c, start, w) && Gate(w)
    requires RemovedBlock(w.off, v) + MIGRATE_WAIT_BLOCK <= w.head
    ensures WaitOver(w, v)
  {
    assert RemovedBlock(w.off, v) == LastRemoval(History(c, start, w.dealed), v);
    forall i, b: nat | 0 <= i < |w.sent| && Mined(w.sent[i], b) && w.sent[i].kind == Remove(v)
      ensures b + MIGRATE_WAIT_BLOCK <= w.head
    {
      ReadLogCounts(c, start, w.dealed, b, w.sent[i].kind, w.sent[i].key);
    }
  }

  lemma TxAfterSelect(c: Blocks, start: nat, w: World, step: Step)
    requires LawfulChain(c, start) && SyncInv(c, start, w) && TxInv(c, start, w)
    requires Enabled(c, w, step) && step.Select?
    ensures TxInv(c, start, Do(c, w, step))
  {
    AgreesAfterSelect(w.off, History(c, start, w.dealed), w.ops, w.limit, step.clusters, step.choice);
    RemovalsWaited(c, start, w, step.val);
    if step.choice.Some? {
      GateReadsAll(c, start, w, step.choice.value);
    }
    var w' := Do(c, w, step);
    assert w'.sent == w.sent && w'.latestTx == w.latestTx && w'.head == w.head && w'.dealed == w.dealed;
  }

  /** Steps that submit nothing on a cluster keep the history and only move blocks forward. */
  lemma OtherStepFrame(c: Blocks, w: World, step: Step)
    requires Enabled(c, w, step) && !step.ClusterTx? && !step.Select? && w.latestTx <= w.head
    ensures var w' := Do(c, w, step);
      && w'.sent == w.sent && w.head <= w'.head && w.latestTx <= w'.latestTx <= w'.head
      && (Clean(w.pc) ==> w'.dealed == w.dealed)
      && (w'.pc.Registering? ==> w.pc == w'.pc && w'.off == w.off)
      && (w'.pc.Reactive? ==> step.EnterReactive? || (w.pc.Reactive? && w.pc.done <= w'.pc.done))
  {
  }

  lemma TxAfterOther(c: Blocks, start: nat, w: World, step: Step)
    requires SyncInv(c, start, w) && TxInv(c, start, w)
    requires Enabled(c, w, step) && !step.ClusterTx? && !step.Select?
    ensures TxInv(c, start, Do(c, w, step))
  {
    OtherStepFrame(c, w, step);
    var w' := Do(c, w, step);
    if w'.pc.Reactive? {
      forall key | key !in w'.pc.done ensures AllRead(w', key) {
        if step.EnterReactive? {
          GateReadsAll(c, start, w, key);
        }
        assert AllRead(w, key);
      }
    }
    if w'.pc.Registering? {
      assert AllRead(w, w.pc.key) && WaitOver(w, w.pc.val);
    }
  }

  lemma TxStep(c: Blocks, start: nat, w: World, step: Step)
    requires LawfulChain(c, start) && SyncInv(c, start, w) && TxInv(c, start, w) && Enabled(c, w, step)
    ensures TxInv(c, start, Do(c, w, step))
  {
    if step.ClusterTx? {
      TxAfterClusterTx(c, start, w, step);
    } else if step.Select? {
      TxAfterSelect(c, start, w, step);
    } else {
      TxAfterOther(c, start, w, step);
    }
  }

  // ---- The pool ----

  lemma {:induction false} FewerPending(a: seq<Stafi>, b: seq<Stafi>)
    requires |a| == |b| && forall i :: 0 <= i < |a| && Pending(b[i]) ==> Pending(a[i])
    ensures PendingCount(b) <= PendingCount(a)
  {
    if a != [] {
      FewerPending(a[..|a| - 1], b[..|b| - 1]);
    }
  }

  lemma {:induction false} NonePendingCounts(a: seq<Stafi>)
    requires NonePending(a)
    ensures PendingCount(a) == 0
  {
    if a != [] {
      NonePendingCounts(a[..|a| - 1]);
    }
  }

  lemma {:induction false} DepositedCounts(a: seq<Stafi>, n: nat)
    ensures PendingCount(a + Repeat(Deposited, n)) == PendingCount(a) + n
  {
    var more := Repeat(Deposited, n);
    if n == 0 {
      assert a + more == a;
    } else {
      assert (a + more)[..|a + more| - 1] == a + Repeat(Deposited, n - 1);
      DepositedCounts(a, n - 1);
    }
  }

  lemma MarkedPrefix(a: seq<Stafi>, chosen: seq<nat>, rest: seq<nat>)
    requires a != [] && forall i :: 0 <= i < |a| - 1 ==> (i in chosen <==> i in rest)
    ensures var marked, last := MarkStaked(a, chosen), |a| - 1;
      && |marked| == |a| && marked[..last] == MarkStaked(a[..last], rest)
      && marked[last] == if last in chosen then Staked else a[last]
  {
  }

  lemma SplitIncreasing(chosen: seq<nat>, last: nat)
    requires Increasing(chosen) && (forall k :: k in chosen ==> k <= last) && last in chosen
    ensures var rest := chosen[..|chosen| - 1];
      Increasing(rest) && chosen == rest + [last] && (forall k :: k in rest ==> k < last)
  {
    var at :| 0 <= at < |chosen| && chosen[at] == last;
    var end := |chosen| - 1;
    assert chosen[end] in chosen;
    forall k | k in chosen[..end] ensures k < last {
      var i :| 0 <= i < end && chosen[i] == k;
      assert chosen[i] < chosen[end];
    }
  }

  lemma NonEmptyHasMember(s: seq<nat>)
    ensures s == [] || exists k :: k in s
  {
    if s != [] {
      assert s[0] in s;
    }
  }

  lemma {:induction false} StakedCounts(a: seq<Stafi>, chosen: seq<nat>)
    requires Increasing(chosen) && forall k :: k in chosen ==> k < |a| && a[k] == Match
    ensures PendingCount(MarkStaked(a, chosen)) + |chosen| == PendingCount(a)
  {
    if a == [] {
      NonEmptyHasMember(chosen);
      assert PendingCount(MarkStaked(a, chosen)) == 0;
    } else {
      hide MarkStaked;
      var last := |a| - 1;
      var rest := chosen;
      if last in chosen {
        SplitIncreasing(chosen, last);
        rest := chosen[..|chosen| - 1];
      }
      MarkedPrefix(a, chosen, rest);
      StakedCounts(a[..last], rest);
    }
  }

  predicate InRound(pc: Pc) { pc == Syncing || pc == Statuses || pc == Operating || pc == Staking || pc == Depositing }

  /** The view has every key from repair to deposit; it misses no pending validator from the status refresh to the
      deposit, and shows no staked one as matched before the stake. */
  ghost predicate ViewInv(w: World) {
    && |w.view| <= |w.stafi|
    && (InRound(w.pc) ==> |w.view| == |w.stafi|)
    && (w.pc == Operating || w.pc == Staking || w.pc == Depositing ==>
          forall i :: 0 <= i < |w.view| && Pending(w.stafi[i]) ==> Pending(w.view[i]))
    && (w.pc == Operating || w.pc == Staking ==>
          forall i :: 0 <= i < |w.view| && w.view[i] == Match ==> w.stafi[i] == Match)
  }

  ghost predicate PoolInv(floor: nat, w: World) {
    ViewInv(w) && CoversStake(w) && Smaller(floor, w.reserved) <= w.pool
  }

  lemma PoolAfterStake(c: Blocks, floor: nat, w: World, step: Step)
    requires PoolInv(floor, w) && Enabled(c, w, step) && step.StakeTx?
    ensures PoolInv(floor, Do(c, w, step))
  {
    var read := UsablePoolBalance(step.read, w.reserved);
    var chosen := Chosen(w, step.read);
    StakeCount(w.view, read);
    StakeOrder(w.view, read);
    StakedCounts(w.stafi, chosen);
    var w' := Do(c, w, step);
    assert w'.pool == w.pool - SUPER_NODE_STAKE_AMOUNT * |chosen| && w'.pool >= w.reserved;
  }

  lemma DepositKeepsCover(pool: nat, reserved: nat, read: nat, n: nat)
    requires read <= pool && UsablePoolBalance(read, reserved) >= MIN_AMOUNT_NEED_DEPOSIT && n > 0
    requires MIN_AMOUNT_NEED_DEPOSIT * n <= UsablePoolBalance(read, reserved) + 1600
    ensures reserved + SUPER_NODE_DEPOSIT_AMOUNT * n <= pool
    ensures SUPER_NODE_STAKE_AMOUNT * n <= UsablePoolBalance(pool - SUPER_NODE_DEPOSIT_AMOUNT * n, reserved) + 1600
  {
  }

  lemma PoolAfterDeposit(c: Blocks, floor: nat, w: World, step: Step)
    requires PoolInv(floor, w) && Enabled(c, w, step) && step.DepositTx?
    ensures PoolInv(floor, Do(c, w, step))
  {
    hide DepositLen;
    var read := UsablePoolBalance(step.read, w.reserved);
    var n := Batch(w, step.read, step.superNodeLimit, step.gasCount);
    DepositLenBounds(read, |w.view|, step.superNodeLimit, step.gasCount);
    DepositKeepsCover(w.pool, w.reserved, step.read, n);
    assert NonePending(w.stafi);
    NonePendingCounts(w.stafi);
    DepositedCounts(w.stafi, n);
    var w' := Do(c, w, step);
    assert w'.pool == w.pool - SUPER_NODE_DEPOSIT_AMOUNT * n && PendingCount(w'.stafi) == n;
    assert CoversStake(w') && ViewInv(w');
  }

  lemma PoolAfterVote(c: Blocks, floor: nat, w: World, step: Step)
    requires PoolInv(floor, w) && Enabled(c, w, step) && step.Vote?
    ensures PoolInv(floor, Do(c, w, step))
  {
    FewerPending(w.stafi, Do(c, w, step).stafi);
  }

  lemma ViewAfterOther(c: Blocks, w: World, step: Step)
    requires ViewInv(w) && Enabled(c, w, step) && !step.Vote? && !step.StakeTx? && !step.DepositTx?
    ensures ViewInv(Do(c, w, step))
  {
    var w' := Do(c, w, step);
    assert w'.stafi == w.stafi;
    if !step.RepairKeys? && !step.RefreshStatuses? {
      assert w'.view == w.view;
    }
  }

  lemma PoolAfterOther(c: Blocks, floor: nat, w: World, step: Step)
    requires PoolInv(floor, w) && Enabled(c, w, step) && !step.Vote? && !step.StakeTx? && !step.DepositTx?
    ensures PoolInv(floor, Do(c, w, step))
  {
    var w' := Do(c, w, step);
    assert w'.stafi == w.stafi && w'.pool >= w.pool && w'.reserved == w.reserved;
    ViewAfterOther(c, w, step);
  }

  lemma PoolStep(c: Blocks, floor: nat, w: World, step: Step)
    requires PoolInv(floor, w) && Enabled(c, w, step)
    ensures PoolInv(floor, Do(c, w, step)) && Do(c, w, step).reserved == w.reserved
  {
    if step.StakeTx? {
      PoolAfterStake(c, floor, w, step);
    } else if step.DepositTx? {
      PoolAfterDeposit(c, floor, w, step);
    } else if step.Vote? {
      PoolAfterVote(c, floor, w, step);
    } else {
      PoolAfterOther(c, floor, w, step);
    }
  }

  /** What the view shows as staked is staked. */
  ghost predicate StakedInv(w: World) {
    forall i :: 0 <= i < |w.view| && w.view[i] == Staked ==> i < |w.stafi| && w.stafi[i] == Staked
  }

  lemma StakedStep(c: Blocks, w: World, step: Step)
    requires StakedInv(w) && Enabled(c, w, step)
    ensures StakedInv(Do(c, w, step))
  {
    hide RunPass, Selects, DepositLen, StakeLoop, MayAct, Emits;
    var w' := Do(c, w, step);
    if !step.RepairKeys? && !step.RefreshStatuses? && !step.DepositTx? {
      assert w'.view == w.view && |w'.stafi| == |w.stafi|;
    }
  }

  // ---- The operator table ----

  /** The handlers that place validators come after the operator update. */
  predicate AfterUpdate(pc: Pc) { Clean(pc) && pc != Statuses && pc != Operating }

  /** While transactions may be sent the table has every operator in use. */
  ghost predicate TableInv(w: World) {
    AfterUpdate(w.pc) && Gate(w) ==> T.UsedBy(w.off.clusters) <= w.ops.Keys
  }

  lemma SelectionUsesNoMore(
    clusters: Clusters, ops: Operators, limit: nat, clusters': Clusters, r: Option<string>)
    requires Keyed(clusters) && Selects(clusters, ops, limit, clusters', r)
    ensures T.UsedBy(clusters') <= T.UsedBy(clusters)
  {
    PlacementKeepsValidators(clusters, ops, limit, clusters', r);
    forall key | key in clusters' && clusters'[key].managing != {}
      ensures T.IdsOf(clusters'[key]) <= T.UsedBy(clusters)
    {
      T.UsedIn(clusters, key);
    }
    T.UsedCovered(clusters', T.UsedBy(clusters));
  }

  /** The other steps into or within those handlers leave clusters and table alone and never open the gate. */
  lemma TableFrame(c: Blocks, w: World, step: Step)
    requires Enabled(c, w, step) && !step.Select? && !step.RefreshOperators? && w.latestTx <= w.head
    requires AfterUpdate(Do(c, w, step).pc) && Gate(Do(c, w, step))
    ensures var w' := Do(c, w, step);
      w'.off.clusters == w.off.clusters && w'.ops == w.ops && AfterUpdate(w.pc) && Gate(w)
  {
    hide DepositLen, RunPass, Selects, StakeLoop;
  }

  lemma TableAfterSelect(c: Blocks, start: nat, w: World, step: Step)
    requires SyncInv(c, start, w) && TableInv(w) && Enabled(c, w, step) && step.Select?
    ensures TableInv(Do(c, w, step))
  {
    hide Selects, Agrees, Recovers;
    AgreesAfterSelect(w.off, History(c, start, w.dealed), w.ops, w.limit, step.clusters, step.choice);
    SelectionUsesNoMore(w.off.clusters, w.ops, w.limit, step.clusters, step.choice);
  }

  lemma TableStep(c: Blocks, start: nat, w: World, step: Step)
    requires SyncInv(c, start, w) && TxInv(c, start, w) && TableInv(w) && Enabled(c, w, step)
    ensures TableInv(Do(c, w, step))
  {
    if step.Select? {
      TableAfterSelect(c, start, w, step);
    } else if !step.RefreshOperators? && AfterUpdate(Do(c, w, step).pc) && Gate(Do(c, w, step)) {
      TableFrame(c, w, step);
    }
  }

  // ---- The fee recipient ----

  /** The recipient `fee` held at block `d` is right, or has been set in a later block up to `latestTx`. */
  ghost predicate RightOrAhead(c: Blocks, start: nat, fee: nat, d: nat, latestTx: nat) {
    fee == LastRecipient(History(c, start, d)) || exists b: nat :: d < b <= latestTx && SetsRecipient(c, b, fee)
  }

  /** The fee recipient is that of the last log read, or the client has set it in a block it has not read yet. */
  ghost predicate RecipientInv(c: Blocks, start: nat, w: World) {
    RightOrAhead(c, start, w.base.feeRecipient, w.baseDealed, w.latestTx)
  }

  lemma PassReadsOn(c: Blocks, start: nat, w: World, input: PassInput)
    requires LawfulChain(c, start) && SyncInv(c, start, w) && input.head == Some(w.head)
    requires RunPass(c, w.off, w.dealed, input).ok
    ensures var r := RunPass(c, w.off, w.dealed, input);
      start <= w.baseDealed <= r.dealed && r.off == ApplyAll(w.base, Between(c, w.baseDealed + 1, r.dealed))
  {
    PassRecovers(c, w.base, w.baseDealed, w.off, w.dealed, w.reach, input);
    var r := RunPass(c, w.off, w.dealed, input);
    RecoversAtReach(c, w.base, w.baseDealed, r.off, r.dealed, Max(w.reach, Target(w.head)));
  }

  lemma RecipientRead(c: Blocks, d: nat, e: nat, block: nat, recipient: nat)
    requires d < block <= e && SetsRecipient(c, block, recipient)
    ensures SomeRecipient(Between(c, d + 1, e))
  {
    var i :| 0 <= i < |c(block)| && c(block)[i] == FeeRecipientLog(block, false, recipient);
    var k := ReadLogIndex(c, d, e, block, i);
    assert Between(c, d + 1, e)[k].FeeRecipientLog?;
  }

  lemma RecipientReadOn(c: Blocks, start: nat, fee: nat, d: nat, e: nat, latestTx: nat)
    requires LawfulChain(c, start) && start <= d <= e && RightOrAhead(c, start, fee, d, latestTx)
    ensures RightOrAhead(c, start, WriteFees(fee, Between(c, d + 1, e)), e, latestTx)
  {
    hide SetsRecipient, LastRecipient, WriteFees, SomeRecipient, Between, WellFormed;
    var more := Between(c, d + 1, e);
    BetweenSplit(c, start + 1, d, e);
    assert WellFormed(History(c, start, e));
    RecipientAfter(fee, History(c, start, d), more);
    if fee != LastRecipient(History(c, start, d)) {
      var b: nat :| d < b <= latestTx && SetsRecipient(c, b, fee);
      if b <= e {
        RecipientRead(c, d, e, b, fee);
      }
    }
  }

  lemma RecipientAfterPass(c: Blocks, start: nat, w: World, step: Step)
    requires LawfulChain(c, start) && SyncInv(c, start, w) && RecipientInv(c, start, w)
    requires Enabled(c, w, step) && step.SyncPass?
    ensures RecipientInv(c, start, Do(c, w, step))
  {
    hide RunPass, RightOrAhead, SyncInv, LawfulChain, WriteFees, ApplyAll, Between, Enabled, Known, Target;
    var r := RunPass(c, w.off, w.dealed, PassInput(Some(w.head), Known(w), step.fuel, step.balancesOk));
    if r.ok {
      PassReadsOn(c, start, w, PassInput(Some(w.head), Known(w), step.fuel, step.balancesOk));
      FeeApart(w.base, 0, Between(c, w.baseDealed + 1, r.dealed));
      RecipientReadOn(c, start, w.base.feeRecipient, w.baseDealed, r.dealed, w.latestTx);
    }
  }

  lemma RecipientStep(c: Blocks, start: nat, w: World, step: Step)
    requires LawfulChain(c, start) && SyncInv(c, start, w) && w.latestTx <= w.head && RecipientInv(c, start, w)
    requires Enabled(c, w, step)
    ensures RecipientInv(c, start, Do(c, w, step))
  {
    hide RunPass, Agrees, Recovers, Selects, DepositLen, StakeLoop, LastRecipient, SetsRecipient;
    if step.SyncPass? {
      RecipientAfterPass(c, start, w, step);
    } else {
      var w' := Do(c, w, step);
      assert w'.baseDealed == w.baseDealed && w.latestTx <= w'.latestTx;
      if step.FeeRecipientTx? {
        assert w'.baseDealed < step.block <= w'.latestTx && SetsRecipient(c, step.block, w'.base.feeRecipient);
      } else {
        assert w'.base.feeRecipient == w.base.feeRecipient;
      }
    }
  }

  // ---- Every reachable state ----

  ghost predicate Inv(c: Blocks, start: nat, first: World, w: World) {
    && SyncInv(c, start, w) && TxInv(c, start, w) && RecipientInv(c, start, w) && TableInv(w) && StakedInv(w)
    && PoolInv(first.pool, w) && w.reserved == first.reserved
  }

  lemma InitialInv(c: Blocks, start: nat, w: World)
    requires Initial(start, w)
    ensures Inv(c, start, w, w)
  {
    SyncedStart();
    assert History(c, start, start) == [];
    RecoversStart(c, EMPTY, start);
  }

  lemma NextInv(c: Blocks, start: nat, first: World, w: World, w': World)
    requires LawfulChain(c, start) && Inv(c, start, first, w) && Next(c, w, w')
    ensures Inv(c, start, first, w')
  {
    var step: Step :| Enabled(c, w, step) && w' == Do(c, w, step);
    SyncStep(c, start, w, step);
    TxStep(c, start, w, step);
    RecipientStep(c, start, w, step);
    TableStep(c, start, w, step);
    StakedStep(c, w, step);
    PoolStep(c, first.pool, w, step);
  }

  lemma {:induction false} ReachableInv(c: Blocks, start: nat, run: seq<World>, i: nat)
    requires LawfulChain(c, start) && Execution(c, start, run) && i < |run|
    ensures Inv(c, start, run[0], run[i])
  {
    if i == 0 {
      InitialInv(c, start, run[0]);
    } else {
      ReachableInv(c, start, run, i - 1);
      assert Next(c, run[i - 1], run[i - 1 + 1]);
      NextInv(c, start, run[0], run[i - 1], run[i]);
    }
  }

  /** No transaction on stale state. In every run, each cluster transaction is sent after every earlier confirmed
      transaction of the client on that cluster has been read back; the snapshot it carries is that of the cluster's
      last log read exactly when the stored cluster still has that log's block as its counter, or the log's snapshot
      was the fresh one anyway; and it always is for reactivations and top-ups. */
  lemma NoTransactionOnStaleState(c: Blocks, start: nat, run: seq<World>, i: nat, k: nat)
    requires LawfulChain(c, start) && Execution(c, start, run) && i < |run| && k < |run[i].sent|
    ensures var tx := run[i].sent[k];
      var read := Read(c, start, tx);
      && (tx.snapshot == LastSnapshot(read, tx.key) <==>
            tx.counter == LastBlock(read, tx.key) || LastSnapshot(read, tx.key) == FRESH)
      && (tx.kind == Reactivate || tx.kind == TopUp ==> tx.snapshot == LastSnapshot(read, tx.key))
      && (tx.counter != LastBlock(read, tx.key) ==> tx.counter == 0 && tx.snapshot == FRESH)
      && forall j :: 0 <= j < k && run[i].sent[j].key == tx.key && run[i].sent[j].mined.Some? ==>
           run[i].sent[j].mined.value <= LastBlock(read, tx.key) && run[i].sent[j].mined.value <= tx.dealed
  {
    ReachableInv(c, start, run, i);
    var tx := run[i].sent[k];
    assert SnapshotSent(c, start, tx);
    assert WellFormed(Read(c, start, tx));
    if LastBlock(Read(c, start, tx), tx.key) == 0 {
      NoLogNoSnapshot(Read(c, start, tx), tx.key);
    }
    forall j | 0 <= j < k ensures SeesEarlier(c, start, run[i].sent[j], tx) {}
  }

  /** Waiting period. In every run, a registration is never submitted at a head lower than 96 blocks after a confirmed
      removal of the same validator by the client. */
  lemma RegistrationWaits(c: Blocks, start: nat, run: seq<World>, i: nat, removal: nat, registration: nat)
    requires LawfulChain(c, start) && Execution(c, start, run) && i < |run|
    requires removal < registration < |run[i].sent|
    requires run[i].sent[removal].kind.Remove? && run[i].sent[removal].mined.Some?
    requires run[i].sent[registration].kind == Register(run[i].sent[removal].kind.val)
    ensures run[i].sent[registration].head >= run[i].sent[removal].mined.value + 96
  {
    ReachableInv(c, start, run, i);
    assert WaitsAfter(run[i].sent[removal], run[i].sent[registration]);
  }

  /** The state handlers act on refines the chain, placements and failed passes included. The one exception is the fee
      recipient, and only while the gate is closed: the client may have set it in a block it has not read yet. */
  lemma HandlersSeeTheChain(c: Blocks, start: nat, run: seq<World>, i: nat)
    requires LawfulChain(c, start) && Execution(c, start, run) && i < |run| && Clean(run[i].pc)
    ensures var w := run[i];
      var logs := History(c, start, w.dealed);
      && (Gate(w) ==> Refines(w.off, logs))
      && Refines(w.off.(feeRecipient := LastRecipient(logs)), logs)
      && RightOrAhead(c, start, w.off.feeRecipient, w.dealed, w.latestTx)
  {
    hide Refines;
    ReachableInv(c, start, run, i);
    var logs := History(c, start, run[i].dealed);
    assert WellFormed(logs);
    var settled := run[i].off.(feeRecipient := LastRecipient(logs));
    assert ClustersSynced(settled, logs);
    forall v ensures RemovedBlock(settled, v) == LastRemoval(logs, v) {
      assert RemovedBlock(run[i].off, v) == LastRemoval(logs, v);
    }
    assert Synced(settled, logs);
    SyncedRefines(settled, logs);
    if run[i].off.feeRecipient == LastRecipient(logs) {
      assert settled == run[i].off;
    }
  }

  /** Offboarding never crashes over a validator that is registered: in every run, when the handler acts, the cluster
      its key names is stored and has all its operators in the table, so that the decision can only fail for lack of
      usable operators. */
  lemma OffboardingDecides(c: Blocks, start: nat, run: seq<World>, i: nat, v: nat, st: ValStatus)
    requires LawfulChain(c, start) && Execution(c, start, run) && i < |run|
    requires run[i].pc == Offboarding && Gate(run[i]) && v in Registered(History(c, start, run[i].dealed))
    ensures var w := run[i];
      && v in w.off.clusterKeys && w.off.clusterKeys[v] in w.off.clusters
      && var decision := OffboardDecision(st, w.off.clusters[w.off.clusterKeys[v]], w.ops, w.limit);
         decision != Crashed && (decision == Failed <==> Living(st) && !PreSelects(w.ops, w.limit))
  {
    ReachableInv(c, start, run, i);
    HandlersSeeTheChain(c, start, run, i);
    T.CompletedTableOffboards(run[i].off.clusters, run[i].ops, run[i].limit, run[i].off.clusterKeys[v], st);
  }

  /** Staking cover. In every run the usable balance covers 31 ETH for each deposited or matched validator, less 1600
      wei, and the pool never falls below its reserve, or below where it started if that was lower. */
  lemma PoolAlwaysCovers(c: Blocks, start: nat, run: seq<World>, i: nat)
    requires LawfulChain(c, start) && Execution(c, start, run) && i < |run|
    ensures 31_000_000_000_000_000_000 * PendingCount(run[i].stafi)
      <= (if run[i].pool > run[i].reserved then run[i].pool - run[i].reserved else 0) + 1600
    ensures run[i].reserved == run[0].reserved && run[i].pool >= Smaller(run[0].pool, run[0].reserved)
  {
    ReachableInv(c, start, run, i);
  }
}
