/** The client as a state machine over an unbounded chain: rounds of handlers in their fixed order, restarted from the
    first on any error, while blocks, donations and votes arrive in between. */
module Rounds {
  import opened Wrappers
  import opened ValidatorStatus
  import opened Chain
  import opened Replay
  import opened Registry
  import opened Placement
  import opened Budget
  import T = OperatorTable

  const MIGRATE_WAIT_BLOCK: nat := 32 * 3

  datatype Action =
    | Withdraw
    | Reactivate
    | TopUp
    | Register(val: nat)
    | Remove(val: nat)

  /** A cluster transaction as it was submitted: the snapshot and update counter of the stored cluster, how far replay
      had read, the head at submission, and the block it was confirmed in, if it was. */
  datatype Tx = Tx(
    kind: Action, key: string, snapshot: Snapshot, counter: nat, dealed: nat, head: nat, mined: Option<nat>)

  /** Where in the round the client is. `Reactive` remembers the clusters the loop has sent on, `Registering` the
      validator and cluster chosen. */
  datatype Pc =
    | Repairing
    | Syncing
    | Statuses
    | Operating
    | Staking
    | Depositing
    | FeeRecipient
    | Withdrawing
    | ReactiveGate
    | Reactive(done: set<string>)
    | Onboarding
    | Registering(val: nat, key: string)
    | Offboarding

  datatype World = World(
    head: nat, pc: Pc,
    off: Off, dealed: nat, latestTx: nat,
    ops: Operators, limit: nat,
    sent: seq<Tx>,
    // where the last completed pass left the state, with what handlers have written since, and the furthest block a
    // pass since then has aimed at
    base: Off, baseDealed: nat, reach: nat,
    // the pool, its reserve, the contract's status of every key in use, and the client's view of them
    pool: nat, reserved: nat, stafi: seq<Stafi>, view: seq<Stafi>)

  datatype Step =
    | Idle(blocks: nat, donation: nat)
    | Vote(index: nat, matched: bool)
    | Fail
    | Skip
    | RepairKeys(upTo: nat)
    | SyncPass(fuel: nat, balancesOk: bool)
    | RefreshStatuses(upTo: nat)
    | RefreshOperators(answers: T.Answers, ops: Operators, limit: nat, ok: bool)
    | StakeTx(read: nat, block: nat)
    | DepositTx(read: nat, superNodeLimit: nat, gasCount: nat, block: nat, confirmed: bool)
    | FeeRecipientTx(block: nat, recipient: nat)
    | Approve(block: nat)
    | EnterReactive
    | ClusterTx(kind: Action, key: string, mined: Option<nat>)
    | Select(val: nat, clusters: Clusters, choice: Option<string>)

  /** `offchainStateIsLatest`. */
  predicate Gate(w: World) { w.dealed > w.latestTx }

  function Following(pc: Pc): Pc {
    match pc
    case Repairing => Syncing
    case Syncing => Statuses
    case Statuses => Operating
    case Operating => Staking
    case Staking => Depositing
    case Depositing => FeeRecipient
    case FeeRecipient => Withdrawing
    case Withdrawing => ReactiveGate
    case ReactiveGate => Onboarding
    case Reactive(_) => Onboarding
    case Onboarding => Offboarding
    case Registering(_, _) => Offboarding
    case Offboarding => Repairing
  }

  /** A confirmed transaction leaves its log in its block. */
  predicate Emits(c: Blocks, kind: Action, key: string, block: nat) {
    exists i :: 0 <= i < |c(block)| && EmittedBy(c(block)[i], kind, key)
  }

  predicate EmittedBy(log: Log, kind: Action, key: string) {
    && On(log, key)
    && match kind
       case Withdraw => log.kind.ClusterWithdrawn?
       case Reactivate => log.kind.ClusterReactivated?
       case TopUp => log.kind.ClusterDeposited?
       case Register(v) => log.kind == ValidatorAdded(v)
       case Remove(v) => log.kind == ValidatorRemoved(v)
  }

  /** The block has a log that sets the fee recipient. */
  predicate SetsRecipient(c: Blocks, block: nat, recipient: nat) {
    exists i :: 0 <= i < |c(block)| && c(block)[i] == FeeRecipientLog(block, false, recipient)
  }

  predicate Pending(s: Stafi) { s == Deposited || s == Match }

  function Repeat(status: Stafi, n: nat): seq<Stafi> { seq(n, _ => status) }

  function PendingCount(statuses: seq<Stafi>): nat {
    if statuses == [] then 0
    else PendingCount(statuses[..|statuses| - 1]) + if Pending(statuses[|statuses| - 1]) then 1 else 0
  }

  predicate NonePending(view: seq<Stafi>) { forall i :: 0 <= i < |view| ==> !Pending(view[i]) }

  ghost predicate MayAct(w: World, kind: Action, key: string) {
    && key in w.off.clusters
    && match kind
       case Withdraw => w.pc == Withdrawing && Gate(w) && w.off.clusters[key].managing == {}
       case Reactivate => w.pc.Reactive? && key !in w.pc.done && w.off.clusters[key].managing != {}
       case TopUp => w.pc.Reactive? && key !in w.pc.done && w.off.clusters[key].managing != {}
       case Register(v) => w.pc == Registering(v, key)
       case Remove(v) =>
         w.pc == Offboarding && Gate(w) && v < |w.view| && v in w.off.clusterKeys && w.off.clusterKeys[v] == key
  }

  /** The batch `checkAndDeposit` decides on after reading the pool balance `read`. */
  function Batch(w: World, read: nat, superNodeLimit: nat, gasCount: nat): int
    requires superNodeLimit < TWO_64 && gasCount < TWO_64
  {
    DepositLen(UsablePoolBalance(read, w.reserved), |w.view|, superNodeLimit, gasCount)
  }

  function Chosen(w: World, read: nat): seq<nat> { StakeLoop(w.view, UsablePoolBalance(read, w.reserved)).0 }

  ghost predicate Enabled(c: Blocks, w: World, step: Step) {
    match step
    case Idle(_, _) => true
    case Vote(i, _) => i < |w.stafi| && w.stafi[i] == Deposited
    case Fail => true
    case Skip => w.pc != Repairing && w.pc != Syncing && w.pc != Statuses && (w.pc == Operating ==> !Gate(w))
    case RepairKeys(upTo) => w.pc == Repairing && |w.view| <= upTo <= |w.stafi|
    case SyncPass(_, _) => w.pc == Syncing
    case RefreshStatuses(upTo) => w.pc == Statuses && upTo <= |w.view| <= |w.stafi|
    case RefreshOperators(answers, ops, limit, ok) =>
      && w.pc == Operating && Gate(w)
      && if ok then T.Updated(w.ops, ops, limit, w.off.clusters, answers)
         else T.PartlyUpdated(w.ops, ops, w.off.clusters, answers)
    case StakeTx(read, block) =>
      && w.pc == Staking && Gate(w) && w.head < block
      && read <= w.pool && UsablePoolBalance(read, w.reserved) >= MIN_AMOUNT_NEED_STAKE && Chosen(w, read) != []
    case DepositTx(read, superNodeLimit, gasCount, block, _) =>
      && w.pc == Depositing && Gate(w) && w.head < block
      && read <= w.pool && UsablePoolBalance(read, w.reserved) >= MIN_AMOUNT_NEED_DEPOSIT
      && NonePending(w.view) && |w.view| == |w.stafi|
      && superNodeLimit < TWO_64 && gasCount < TWO_64 && Batch(w, read, superNodeLimit, gasCount) > 0
    case FeeRecipientTx(block, recipient) =>
      && w.pc == FeeRecipient && Gate(w) && w.off.feeRecipient != recipient
      && w.head < block && SetsRecipient(c, block, recipient)
    case Approve(block) => w.pc.Registering? && w.head < block
    case EnterReactive => w.pc == ReactiveGate && Gate(w)
    case ClusterTx(kind, key, mined) =>
      && MayAct(w, kind, key)
      && (mined.Some? ==> w.head < mined.value && Emits(c, kind, key, mined.value))
    case Select(v, clusters, choice) =>
      && w.pc == Onboarding && Gate(w) && v < |w.view| && w.view[v] == Staked
      && RemovedBlock(w.off, v) + MIGRATE_WAIT_BLOCK <= w.head
      && Selects(w.off.clusters, w.ops, w.limit, clusters, choice)
  }

  function Below(n: nat): set<nat> { if n == 0 then {} else Below(n - 1) + {n - 1} }

  function Known(w: World): set<nat> { Below(|w.view|) }

  /** A transaction confirmed in `block`: the client notes the block, and the head has reached it. */
  function Confirmed(w: World, block: nat): World { w.(latestTx := block, head := Max(w.head, block)) }

  function MarkStaked(statuses: seq<Stafi>, chosen: seq<nat>): seq<Stafi> {
    seq(|statuses|, i requires 0 <= i < |statuses| => if i in chosen then Staked else statuses[i])
  }

  function Submitted(w: World, kind: Action, key: string, mined: Option<nat>): Tx
    requires key in w.off.clusters
  {
    var cluster := w.off.clusters[key];
    Tx(kind, key, cluster.latestCluster, cluster.latestUpdate, w.dealed, w.head, mined)
  }

  function AfterTx(pc: Pc, key: string): Pc {
    if pc.Reactive? then Reactive(pc.done + {key}) else Following(pc)
  }

  function Do(c: Blocks, w: World, step: Step): World
    requires Enabled(c, w, step)
  {
    match step
    case Idle(blocks, donation) => w.(head := w.head + blocks, pool := w.pool + donation)
    case Vote(i, matched) => w.(stafi := w.stafi[i := if matched then Match else Unmatch])
    case Fail => w.(pc := Repairing)
    case Skip => w.(pc := Following(w.pc))
    case RepairKeys(upTo) =>
      w.(view := w.view + w.stafi[|w.view|..upTo], pc := if upTo == |w.stafi| then Syncing else Repairing)
    case SyncPass(fuel, balancesOk) =>
      var r := RunPass(c, w.off, w.dealed, PassInput(Some(w.head), Known(w), fuel, balancesOk));
      if r.ok then
        w.(off := r.off, dealed := r.dealed, base := r.off, baseDealed := r.dealed, reach := r.dealed, pc := Statuses)
      else w.(off := r.off, dealed := r.dealed, reach := Max(w.reach, Target(w.head)), pc := Repairing)
    case RefreshStatuses(upTo) =>
      w.(view := w.stafi[..upTo] + w.view[upTo..], pc := if upTo == |w.view| then Operating else Repairing)
    case RefreshOperators(_, ops, limit, ok) => w.(ops := ops, limit := limit, pc := if ok then Staking else Repairing)
    case StakeTx(read, block) =>
      var chosen := Chosen(w, read);
      var spent := SUPER_NODE_STAKE_AMOUNT * |chosen|;
      Confirmed(w, block).(stafi := MarkStaked(w.stafi, chosen),
                           pool := if spent <= w.pool then w.pool - spent else 0, pc := Depositing)
    case DepositTx(read, superNodeLimit, gasCount, block, confirmed) =>
      var n := Batch(w, read, superNodeLimit, gasCount);
      var spent := SUPER_NODE_DEPOSIT_AMOUNT * n;
      Confirmed(w, block).(stafi := w.stafi + Repeat(Deposited, n),
                           pool := if spent <= w.pool then w.pool - spent else 0,
                           view := if confirmed then w.view + Repeat(Uninitiated, n) else w.view,
                           pc := if confirmed then FeeRecipient else Repairing)
    case FeeRecipientTx(block, recipient) =>
      var off := w.off.(feeRecipient := recipient);
      Confirmed(w, block).(off := off, base := off, pc := Withdrawing)
    case Approve(block) => Confirmed(w, block)
    case EnterReactive => w.(pc := Reactive({}))
    case ClusterTx(kind, key, mined) =>
      var w1 := w.(sent := w.sent + [Submitted(w, kind, key, mined)]);
      if mined.Some? then Confirmed(w1, mined.value).(pc := AfterTx(w.pc, key)) else w1.(pc := Repairing)
    case Select(v, clusters, choice) =>
      var off := w.off.(clusters := clusters);
      w.(off := off, base := off, pc := if choice.Some? then Registering(v, choice.value) else Repairing)
  }

  ghost predicate Next(c: Blocks, w: World, w': World) {
    exists step: Step :: Enabled(c, w, step) && w' == Do(c, w, step)
  }

  /** The pool covers the stake of every validator it has deposited for, up to the rounding of one batch. */
  predicate CoversStake(w: World) {
    SUPER_NODE_STAKE_AMOUNT * PendingCount(w.stafi) <= UsablePoolBalance(w.pool, w.reserved) + 1600
  }

  ghost predicate Initial(start: nat, w: World) {
    && start <= w.head && 3 <= w.head
    && w.pc == Repairing && w.off == EMPTY && w.dealed == start && w.latestTx == 0 && w.sent == []
    && w.base == EMPTY && w.baseDealed == start && w.reach == start
    && w.view == [] && Uninitiated !in w.stafi && CoversStake(w)
  }

  ghost predicate Execution(c: Blocks, start: nat, run: seq<World>) {
    && run != [] && Initial(start, run[0])
    && forall i :: 0 <= i < |run| - 1 ==> Next(c, run[i], run[i + 1])
  }
}
