/** Getting from one state of the machine to another: paths, their composition, and each step as a handler takes it. */
module Paths {
  import opened Wrappers
  import opened ValidatorStatus
  import opened Chain
  import opened Replay
  import opened Registry
  import opened Placement
  import opened Budget
  import opened Rounds
  import opened RoundsProof
  import R = OffchainState

  ghost predicate IsPath(c: Blocks, run: seq<World>, w: World, w': World) {
    && run != [] && run[0] == w && run[|run| - 1] == w'
    && forall i :: 0 <= i < |run| - 1 ==> Next(c, run[i], run[i + 1])
  }

  /** The machine can get from one state to the other. */
  ghost predicate Path(c: Blocks, w: World, w': World) { exists run :: IsPath(c, run, w, w') }

  lemma PathStart(c: Blocks, w: World)
    ensures Path(c, w, w)
  {
    assert IsPath(c, [w], w, w);
  }

  lemma PathTo(c: Blocks, w0: World, w: World, step: Step, w': World)
    requires Path(c, w0, w) && Enabled(c, w, step) && w' == Do(c, w, step)
    ensures Path(c, w0, w')
  {
    var run :| IsPath(c, run, w0, w);
    assert Next(c, w, w');
    assert IsPath(c, run + [w'], w0, w');
  }

  lemma StepTaken(c: Blocks, w: World, step: Step, w': World)
    requires Enabled(c, w, step) && w' == Do(c, w, step)
    ensures Path(c, w, w')
  {
    PathStart(c, w);
    PathTo(c, w, w, step, w');
  }

  lemma PathJoin(c: Blocks, w0: World, w: World, w': World)
    requires Path(c, w0, w) && Path(c, w, w')
    ensures Path(c, w0, w')
  {
    var a :| IsPath(c, a, w0, w);
    var b :| IsPath(c, b, w, w');
    var run := a + b[1..];
    forall i | 0 <= i < |run| - 1 ensures Next(c, run[i], run[i + 1]) {
      if i < |a| - 1 {
        assert Next(c, a[i], a[i + 1]);
      } else {
        var k := i - (|a| - 1);
        assert Next(c, b[k], b[k + 1]);
        assert run[i] == b[k] && run[i + 1] == b[k + 1];
      }
    }
    assert IsPath(c, run, w0, w');
  }

  /** What holds in every state reached from the start. */
  lemma PathIsSafe(c: Blocks, start: nat, w: World, w': World)
    requires LawfulChain(c, start) && Initial(start, w) && Path(c, w, w')
    ensures Inv(c, start, w, w')
  {
    var run :| IsPath(c, run, w, w');
    assert Execution(c, start, run);
    ReachableInv(c, start, run, |run| - 1);
  }

  // One step of the machine at a time, as the handlers take them.

  lemma PassTaken(c: Blocks, w: World, known: set<nat>, fuel: nat, balancesOk: bool, off: Off, dealed: nat, ok: bool)
    requires w.pc == Syncing && known == Known(w)
    requires R.SameOutcome(RunPass(c, w.off, w.dealed, PassInput(Some(w.head), known, fuel, balancesOk)),
                           off, dealed, ok)
    ensures Path(c, w, if ok then
        w.(off := off, dealed := dealed, base := off, baseDealed := dealed, reach := dealed, pc := Statuses)
      else w.(off := off, dealed := dealed, reach := Max(w.reach, Target(w.head)), pc := Repairing))
    ensures ok ==> dealed == Max(w.dealed, Target(w.head))
  {
    RecoversStart(c, w.off, w.dealed);
    PassRecovers(c, w.off, w.dealed, w.off, w.dealed, w.dealed, PassInput(Some(w.head), known, fuel, balancesOk));
    var step := SyncPass(fuel, balancesOk);
    StepTaken(c, w, step, Do(c, w, step));
  }

  lemma StakeTaken(c: Blocks, w: World, read: nat, block: nat, chosen: seq<nat>)
    requires w.pc == Staking && Gate(w) && w.head < block && read <= w.pool
    requires UsablePoolBalance(read, w.reserved) >= MIN_AMOUNT_NEED_STAKE && chosen == Chosen(w, read) != []
    ensures SUPER_NODE_STAKE_AMOUNT * |chosen| <= w.pool
    ensures Path(c, w, w.(latestTx := block, head := block, stafi := MarkStaked(w.stafi, chosen),
                          pool := w.pool - SUPER_NODE_STAKE_AMOUNT * |chosen|, pc := Depositing))
  {
    StakeCount(w.view, UsablePoolBalance(read, w.reserved));
    var step := StakeTx(read, block);
    StepTaken(c, w, step, Do(c, w, step));
  }

  /** `n` new keys have been deposited for, one ETH each, and are in the view unless their statuses could not be
      read back. */
  ghost predicate DepositedExactly(before: World, after: World, ok: bool, n: nat) {
    && after.stafi == before.stafi + Repeat(Deposited, n)
    && after.view == (if ok then before.view + Repeat(Uninitiated, n) else before.view)
    && after.pool + SUPER_NODE_DEPOSIT_AMOUNT * n >= before.pool
  }

  lemma DepositedSince(w0: World, w: World, w': World, ok: bool, n: nat)
    requires w0.stafi == w.stafi && w0.view == w.view && w0.pool <= w.pool
    ensures DepositedExactly(w, w', ok, n) ==> DepositedExactly(w0, w', ok, n)
    ensures DepositedExactly(w, w', ok, n) && n > 0 ==> w'.stafi != w0.stafi && w0.view <= w'.view
  {
    if DepositedExactly(w, w', ok, n) && n > 0 {
      assert |w'.stafi| == |w.stafi| + n;
    }
  }

  function AfterDeposit(w: World, n: nat, block: nat, confirmed: bool): World
    requires SUPER_NODE_DEPOSIT_AMOUNT * n <= w.pool
  {
    w.(latestTx := block, head := block, stafi := w.stafi + Repeat(Deposited, n),
       pool := w.pool - SUPER_NODE_DEPOSIT_AMOUNT * n,
       view := if confirmed then w.view + Repeat(Uninitiated, n) else w.view,
       pc := if confirmed then FeeRecipient else Repairing)
  }

  lemma DepositTaken(
    c: Blocks, w: World, read: nat, superNodeLimit: nat, gasCount: nat, n: int, block: nat, confirmed: bool)
    requires w.pc == Depositing && Gate(w) && w.head < block && read <= w.pool
    requires UsablePoolBalance(read, w.reserved) >= MIN_AMOUNT_NEED_DEPOSIT
    requires NonePending(w.view) && |w.view| == |w.stafi| && superNodeLimit < TWO_64 && gasCount < TWO_64
    requires 0 < n == DepositLen(UsablePoolBalance(read, w.reserved), |w.view|, superNodeLimit, gasCount)
    ensures SUPER_NODE_DEPOSIT_AMOUNT * n <= w.pool
    ensures Path(c, w, AfterDeposit(w, n, block, confirmed))
    ensures DepositedExactly(w, AfterDeposit(w, n, block, confirmed), confirmed, n)
  {
    hide DepositLen;
    var step := DepositTx(read, superNodeLimit, gasCount, block, confirmed);
    DepositLenBounds(UsablePoolBalance(read, w.reserved), |w.view|, superNodeLimit, gasCount);
    DepositKeepsCover(w.pool, w.reserved, read, n);
    StepTaken(c, w, step, Do(c, w, step));
  }

  lemma TxTaken(c: Blocks, w: World, kind: Action, key: string, mined: Option<nat>)
    requires MayAct(w, kind, key)
    requires mined.Some? ==> w.head < mined.value && Emits(c, kind, key, mined.value)
    ensures var sent := w.sent + [Submitted(w, kind, key, mined)];
      Path(c, w, if mined.Some? then
          w.(sent := sent, latestTx := mined.value, head := mined.value, pc := AfterTx(w.pc, key))
        else w.(sent := sent, pc := Repairing))
  {
    var step := ClusterTx(kind, key, mined);
    StepTaken(c, w, step, Do(c, w, step));
  }

  lemma OneMoreRead<T>(read: seq<T>, before: seq<T>, i: nat)
    requires i < |before| <= |read|
    ensures (read[..i] + before[i..])[i := read[i]] == read[..i + 1] + before[i + 1..]
  {
  }

  /** A poll that has read `upTo` statuses; it may fail even after the last. */
  lemma StatusesRead(c: Blocks, w: World, upTo: nat, ok: bool)
    requires w.pc == Statuses && upTo <= |w.view| <= |w.stafi| && (ok ==> upTo == |w.view|)
    ensures Path(c, w, w.(view := w.stafi[..upTo] + w.view[upTo..], pc := if ok then Operating else Repairing))
  {
    hide Path;
    var step := RefreshStatuses(upTo);
    var w1 := Do(c, w, step);
    StepTaken(c, w, step, w1);
    if !ok {
      PathTo(c, w, w1, Fail, w1.(pc := Repairing));
    }
  }

  lemma RecipientTaken(c: Blocks, w: World, block: nat, recipient: nat)
    requires w.pc == FeeRecipient && Gate(w) && w.off.feeRecipient != recipient
    requires w.head < block && SetsRecipient(c, block, recipient)
    ensures var off := w.off.(feeRecipient := recipient);
      Path(c, w, w.(latestTx := block, head := block, off := off, base := off, pc := Withdrawing))
  {
    var step := FeeRecipientTx(block, recipient);
    StepTaken(c, w, step, Do(c, w, step));
  }

  lemma ClusterChosen(c: Blocks, w: World, val: nat, clusters: Clusters, choice: Option<string>)
    requires w.pc == Onboarding && Gate(w) && val < |w.view| && w.view[val] == Staked
    requires RemovedBlock(w.off, val) + MIGRATE_WAIT_BLOCK <= w.head
    requires Selects(w.off.clusters, w.ops, w.limit, clusters, choice)
    ensures var off := w.off.(clusters := clusters);
      Path(c, w, w.(off := off, base := off,
                    pc := if choice.Some? then Registering(val, choice.value) else Repairing))
  {
    var step := Select(val, clusters, choice);
    StepTaken(c, w, step, Do(c, w, step));
  }

  lemma LoopEntered(c: Blocks, w: World)
    requires w.pc == ReactiveGate && Gate(w)
    ensures Path(c, w, w.(pc := Reactive({})))
  {
    StepTaken(c, w, EnterReactive, w.(pc := Reactive({})));
  }
}
