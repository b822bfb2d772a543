# A model of the SSV client's task loop

The client keeps validators of one StaFi super node on the SSV network. One loop runs eleven handlers in a fixed order:
it finds new validator keys, replays the SSV contract's events into an off-chain copy of its clusters, polls statuses,
stakes and deposits from a pool, and withdraws from, tops up, enlarges and shrinks clusters. A failing handler restarts
the round from the first. This project models that loop in Dafny and proves what it is meant to guarantee: replay
converges and agrees with the network however often it fails, no transaction is sent on a cluster whose earlier
transactions have not been read back, placement never loses a validator, and the pool always covers the stakes it has
committed to.

`dafny verify dfyconfig.toml` checks everything.

## How it is built

- `Chain`, `Replay`, `OffchainState` — the chain as an unbounded function from block numbers to logs; what one log,
  one chunk and one pass do to the off-chain state, as functions; and the class whose methods do it in place and are
  proved equal to them. `Replay` proves convergence and the block cover.
- `Registry` — the network's own account of the same logs (who is registered where, last snapshot, counts, last fee
  recipient), written without looking at the client, and the proof that the replayed state refines it.
- `Placement`, `ClusterBook` — choosing a cluster and the offboarding rule: specification and its laws, then the loops.
  What the rules mean is counted in the operator table, without the middle fee: `Serving`, `TooDear`, `Fits`,
  `RemovalDue`.
  Map iteration is an arbitrary order of the keys, and the unstable sort may return any of equally loaded clusters.
  `PlacementExamples` holds the inputs on which they fail.
- `KeyTable`, `ValInfo` — the maps of validator objects: key repair, deposit insertion with its rollback, and the
  three-part status poll, in place on shared objects.
- `Budget`, `Runway` — wei amounts and batch sizes; token amounts and how many blocks they last.
- `OperatorTable` — completion of the operator table and the one-hour debounce.
- `Rounds`, `RoundsProof` — the client as a state machine with every handler step, arbitrary failures, and blocks,
  donations and votes in between; then the invariants of every reachable state and the whole-run theorems.
- `Staleness`, `StaleExample` — exactly which runs send a stale snapshot, and one that does.
- `Duties` — what is due to each handler, read off the state before it, without the handlers.
- `Paths`, `Client` — the handlers again as methods of one object, run in order by the service loop. Every call out
  returns an arbitrary answer. Each method is proved to be a path of the machine, so the whole-run theorems hold of the
  loop, and to have done what was due when it returns without error.
- `Wrappers`, `ValidatorStatus`, `Sorting`, `ClusterKeys` — optional results, the statuses, the sorts the client uses
  and the string key of a cluster.

## What is assumed

- A confirmed transaction is mined after the head seen when it was sent, `waitTxOk` reports its true block, and its log
  is in that block. A stake or deposit whose `waitTxOk` fails has had no effect on the pool. No reorganisation is deeper
  than the two-block lag of replay.
- Of a lawful chain: logs of a block carry its number, operator ids of an event ascend, a validator is added only when
  absent and removed only from its own cluster, a snapshot's count is the number of members, and (for refinement and
  what rests on it, not for convergence) a cluster has at most one log per block.
- Of the three systems that statuses are polled from (`ValInfo.Lawful`, `ValInfo.OneIndex`): staking is final, leaving
  the beacon chain is final, an active validator does not become pending again, one that has left the beacon chain and
  is not on SSV is not registered there again, and a validator has one beacon index.
- One client owns the super node's keys; the pool has no outflow but its deposits and stakes.
- The decimal library divides with sixteen decimal places, rounded half up.
- The head is at least 3 at the start: with lag 2, the target block falls from 2 to 1 when the head goes from 2 to 3.

## What the code does not do

These are proved, with the condition under which each happens and an input on which it does, and the code is left as
it is.

- A second event of a cluster in one block is dropped by the strict counters (`Registry.SecondLogInBlockIsLost`, and
  two additions in one block in `Registry.SecondAddIsLost`).
- The new-cluster loop can replace an empty cluster that has been used before with a fresh snapshot, for two reasons. It
  looks a block up in fee order but stores the cluster in id order; and it looks a block up only when another
  candidate comes after it, so that a block ending at the last candidate is never looked up at all.
  `Placement.OverwritesExactly` says when, `Placement.NothingOverwritten` when it cannot happen, and
  `PlacementExamples.UsedClusterIsOverwritten` and `PlacementExamples.LastBlockIsOverwritten` show each reason.
- A transaction on such a cluster carries the fresh snapshot until a log of the cluster is read
  (`Staleness.StaleExactlyAfterOverwrite`; a whole run is in `StaleExample.RegistrationWithStaleSnapshot`).
- The operator table is completed from clusters with validators, but the second selection of every registration judges
  empty ones too. One emptied cluster with an operator that is not in the table makes every registration fail
  (`OperatorTable.CompletedTableSelects`, `PlacementExamples.EmptiedClusterBlocksSelection`).
- A gas limit below 268921 makes a negative quotient, whose sign is lost: limits up to 106004 are accepted and cannot
  pay for the one validator they allow (`Budget.GasLimitPaysForBatch`, `Budget.SmallGasLimitIsAccepted`). The quotient
  is rounded before it is cut, which with twelve or more digits after the point can allow one validator too many.
- A deposit that fails inside its insertion loop runs into a missing entry while rolling back; the maps are restored by
  then (`KeyTable.KeyTable.DepositBatch`, `KeyTable.SecondKeyOnChain`).
- A batch size that does not fit a signed 64-bit integer becomes negative (`Budget.DepositLenBounds`,
  `Budget.WrappingLimitIsNegative`).
- The offboarding fee loop reads an operator without checking that it is known. `Placement.OffboardDecides` says when
  that crashes and `PlacementExamples.OffboardingCrashes` shows it; over a registered validator it does not happen in
  any run (`RoundsProof.OffboardingDecides`).
- A panic in a handler is recovered outside the service loop, which then does not run again (`Client.Client.SsvService`).
- The status `registered but invalid` is tested for by offboarding but no poll ever sets it
  (`ValInfo.StatusesTellTruth` gives every value a poll leaves).

## Model

| member | source | states |
|---|---|---|
| ClusterKeys.BuildClusterKey | task/common.go:22-28 | The builder loop yields the key specified for the ids |
| ClusterKeys.ClusterKeyRoundTrip | task/common.go:22-28 | Every key parses back to the operator sequence it was built from |
| ClusterKeys.ClusterKeyInjective | task/common.go:22-28 | Two operator sequences with one key are equal |
| Sorting.SortedUnique | task/common.go:51-57 | Under a total order there is one sorted arrangement of given elements, so any sort, stable or not, gives the same |
| Replay.ReplayTwice | task/ssv_offchain_state.go:303-325 | Replaying logs just replayed changes nothing, from any state, in any order of blocks, several logs per block included |
| Replay.ReplayAfterAbort | task/ssv_offchain_state.go:81-206 | A chunk retried over a prefix already applied ends where an uninterrupted one would |
| Replay.ReplayConverges | task/ssv_offchain_state.go:35-245 | Any number of passes failing at any call, each with its own head and known validators, then one success: clusters, managing sets, counters, nonce, fee recipient, cluster keys and removed blocks are those of one uninterrupted reading |
| Replay.PassSucceedsExactly | task/ssv_offchain_state.go:35-245 | When no call fails, a pass succeeds if and only if there is nothing to read, or every added or removed validator in the blocks up to two below the head is known and the balances can be refreshed |
| Replay.PassesTile | task/ssv_offchain_state.go:51-58 | Over any passes the completed chunks lie end to end from the initial height to the last dealt block, which never falls |
| Replay.TilesCoverOnce | task/ssv_offchain_state.go:54-59 | Such chunks contain every block of the range, no other, none twice, and none is longer than 34300 blocks |
| Replay.ChunksAreFull | task/ssv_offchain_state.go:51-59 | A chunk has exactly 34300 blocks unless it ends at the last block wanted |
| OffchainState.OffchainState.UpdateClusterInPlace | task/ssv_offchain_state.go:247-328 | The in-place update, with its three guards, new-cluster case, nonce and managing sets, leaves exactly the specified state |
| OffchainState.OffchainState.HandleLog | task/ssv_offchain_state.go:81-206 | One log: skipped if removed, refused without effect if its validator is unknown, otherwise applied |
| OffchainState.OffchainState.HandleLogs | task/ssv_offchain_state.go:81-206 | The loop applies exactly the logs before the first failing call or unknown validator |
| OffchainState.OffchainState.ScanChunk | task/ssv_offchain_state.go:54-208 | A chunk advances the dealt block only when all its logs were handled; otherwise the half-applied state stays |
| OffchainState.OffchainState.UpdateSsvOffchainState | task/ssv_offchain_state.go:35-245 | The method leaves the state, dealt block and outcome of the specified pass |
| Registry.SyncedStep | task/ssv_offchain_state.go:247-328 | One lawful log keeps replayed state and network account in agreement if its cluster has had no log in that block, or has been replaced by a fresh one |
| Registry.ReplayRefinesChain | task/ssv_offchain_state.go:93-206 | After failing passes and a success: managing sets are disjoint and together the registered validators, each cluster key names the holder, non-empty clusters hold their last snapshot with the right count, removed blocks are those of the last removals, the nonce counts additions, the fee recipient is that of the last log that sets one |
| Registry.SecondLogInBlockIsLost | task/ssv_offchain_state.go:304-325 | For every lawful log of a cluster, agreement survives it if and only if its cluster has had no log in that block or has been replaced since, or it neither adds nor removes and repeats the snapshot |
| Registry.SecondAddIsLost | task/ssv_offchain_state.go:310-317 | Two additions to one cluster in one block: the network has both validators, the replayed state the first, its snapshot and a nonce of one |
| Placement.PreSelectionOrderIndependent | task/common.go:30-60 | Every map iteration order gives the same sorted pre-selection |
| Placement.MedianIsAffordable | task/common.go:64-69 | More than half of the pre-selected operators, at least five, cost no more than the middle fee |
| Placement.TooDearExactly | task/common.go:30-69 | A fee is above the middle fee if and only if at least half of the serving operators and one more cost strictly less |
| Placement.CandidatesExactly | task/common.go:66-92 | The candidates of the new-cluster loop are exactly the serving operators that are not too dear, each once |
| Placement.AcceptedExactly | task/common.go:121-166 | A cluster is accepted if and only if all its operators serve and none is too dear |
| Placement.PickBlockIsLeast | task/common.go:71-92 | The candidate loop settles on the least block of four at a multiple of five that is last or whose fee-ordered key is not stored; it fails only if there is none |
| Placement.PlacementKeepsValidators | task/common.go:64-195 | Selection leaves every cluster that manages a validator untouched; what it writes is a fresh cluster under its own ascending key |
| Placement.OverwritesExactly | task/common.go:71-116 | A used cluster is overwritten if and only if every cluster with validators is rejected and the first block not skipped has its ids, either in an order that is not ascending or as the last block, which is not looked up |
| Placement.NothingOverwritten | task/common.go:71-116 | If every block's ids ascend in fee order and none ends at the last candidate, no used cluster is ever overwritten |
| PlacementExamples.UsedClusterIsOverwritten | task/common.go:78-103 | A concrete table and a used empty cluster whose snapshot and counters are lost and which is then selected |
| PlacementExamples.LastBlockIsOverwritten | task/common.go:76-85 | Nine operators of one price and two used empty clusters: every selection replaces the second by a fresh one |
| Placement.SelectionFailsExactly | task/common.go:121-195 | No cluster is selected if and only if fewer than eight operators are usable, some stored cluster, empty or not, has an unknown operator before any unsuitable one, or every cluster with validators is rejected and every block is skipped |
| Placement.PlacementIsStable | task/common.go:168-195 | The cluster returned is a least loaded one of those whose operators all serve and are not too dear, and under the same table a living, validly registered validator in it is not offboarded |
| Placement.OffboardDecides | task/ssv_offboard.go:33-85 | For a living validator: kept if and only if its cluster's operators are all known, active and at most at the middle fee; an error if and only if an unknown one follows only active ones; a crash if and only if an inactive one hides an unknown one that the fee loop reaches |
| Placement.OffboardsExactly | task/ssv_offboard.go:33-89 | Who is removed is invalid on SSV, or registered and exited, or registered and active with an inactive or too dear operator; who is kept is none of these; with eight serving operators and all of the cluster known, removed if and only if so |
| PlacementExamples.DearOperatorOffboards | task/ssv_offboard.go:78-82 | Ten operators that cost 1 to 10: a cluster with the dearest does not fit, and an active validator in it is offboarded |
| PlacementExamples.OffboardingCrashes | task/ssv_offboard.go:54-85 | An inactive operator before an unknown one: a table and a cluster on which the decision crashes |
| Placement.SomeClusterIsSelected | task/common.go:168-195 | If no earlier step fails a cluster is returned: the final error cannot happen |
| ClusterBook.ClusterBook.PreSelectOperators | task/common.go:30-60 | Filter loop in any map order, sort and length check: the specified pre-selection, an error exactly when fewer than eight operators serve |
| ClusterBook.ClusterBook.PickOperators | task/common.go:71-92 | The resettable append loop picks exactly the specified block |
| ClusterBook.ClusterBook.FetchNewClusterAndSave | task/common.go:64-119 | Stores a fresh cluster under the ascending key of four different serving operators that are not too dear, or fails and stores nothing |
| ClusterBook.ClusterBook.SelectLocalClusterForRegister | task/common.go:121-166 | Returns exactly the stored clusters whose operators all serve and are not too dear, or the error of an unknown operator, in any map order |
| ClusterBook.ClusterBook.SelectClusterForRegister | task/common.go:168-195 | The clusters left and the key returned are an outcome the specification allows; the key is that of a stored cluster that fits, with the fewest validators of all that do |
| ClusterBook.ClusterBook.DecideOffboard | task/ssv_offboard.go:33-89 | Keep, remove, error and crash are decided exactly as specified; removal only when it is due, keeping only when it is not |
| KeyTable.MustGetSuperNodePubkeyStatus | task/common.go:197-216 | Fails exactly when all 201 tries fail, and otherwise returns the contract's status |
| KeyTable.KeyTable.CheckAndRepairValNextKeyIndex | task/val_keyindex.go:19-77 | Terminates; keeps all entries and the mirror of both maps; on success the next index is the least key the contract has not seen, and every key taken in has the status of its number there: 1 deposited, 2 match, 3 staked, 4 unmatch; succeeds if no call fails |
| KeyTable.KeyTable.Rollback | task/stafi_deposit.go:80-91 | Removes exactly the entries from the old index on from both maps; crashes exactly when the batch was not stored whole |
| KeyTable.KeyTable.DepositBatch | task/stafi_deposit.go:73-187 | Success appends the batch; every failure restores both maps, object for object, and the next index; a crash happens exactly when some key of the batch cannot be prepared |
| KeyTable.SecondKeyOnChain | task/stafi_deposit.go:80-107 | A batch of two whose second key is on chain crashes and leaves the table empty as it was |
| KeyTable.KeyTable.RecoverMinedDeposit | task/stafi_deposit.go:171-184 | A deposit that was mined but rolled back here is taken in again by the next repair, each key as deposited |
| ValInfo.ValInfo.UpdateOnBeacon | task/val_info.go:82-135 | The beacon part, errors between its steps included, and the cache under which every validator is stored at its own beacon index |
| ValInfo.ValInfo.UpdateValStatus | task/val_info.go:25-138 | The loop changes the statuses of the shared validator objects exactly as the poll specifies, up to where it breaks off, and keeps the index cache sound |
| ValInfo.PollFailsExactly | task/val_info.go:25-138 | When no call fails, the poll of all validators fails if and only if the contract does not know one of them, or the beacon chain has a staked one at index 0 or in an unsupported state; ended ones are not asked for |
| ValInfo.StatusesTellTruth | task/val_info.go:25-138 | Over any calls, with validators joining, broken off anywhere: after a call that completes, every validator has the status of its contract number and what SSV and the beacon chain say at that time, the skipped ones included |
| ValInfo.ChosenWereMatched | task/stafi_stake.go:33-47 | A key chosen for a stake had number 2 on the contract when it was last read; a key with number 2 is passed over only when less than 31 ETH are left |
| ValInfo.SkipIsSafe | task/val_info.go:29-31 | Skipping a validator whose life has ended gives what a full poll would if and only if it is still off SSV and not active |
| ValInfo.PlacementHandlersExclude | task/ssv_onboard.go:39-43 | On true statuses onboarding wants exactly the staked, unregistered, not exited; offboarding acts only on registered ones, always on exited ones; both leave ended ones alone |
| Budget.GasLimitPaysForBatch | task/task.go:220-225 | For every accepted gas limit, fractions included: 162917 per allowed validator plus 268921 is within the limit if and only if the limit is at least 268921 and its count is not rounded up, which needs twelve digits after the point; the accepted ones below are exactly those up to 106004 and half a last digit |
| Budget.DepositLenBounds | task/stafi_deposit.go:53-64 | The batch costs at most the balance plus 1600 wei, is as large as balance, free slots or gas allow, fits the super node limit, and is non-negative exactly when both limits fit a signed integer |
| Budget.WrappingLimitIsNegative | task/stafi_deposit.go:54-61 | A super node limit of two to the sixty-third gives a negative batch size |
| Budget.DepositGasWithinLimit | task/stafi_deposit.go:62-64 | With a gas limit of at least 268921 and at most eleven digits after the point the batch's gas stays within it |
| Budget.SelectForStake | task/stafi_stake.go:33-47 | The loop with its early exit chooses the specified validators |
| Budget.StakeCount | task/stafi_stake.go:33-47 | As many matched validators as the balance covers are chosen, and exactly 31 ETH is spent on each |
| Budget.StakeOrder | task/stafi_stake.go:33-47 | Only matched validators, each once, none passed over for a later one |
| Runway.CalClusterNeedDepositAmount | task/common.go:224-279 | The fee loop and the three balance ranges give the specified pair, an error exactly for an unknown operator; with the larger amount added the balance lasts the enlarged cluster for 2629800 blocks and a liquidation period of the charges the network makes |
| Runway.ChargedExactly | task/common.go:247-258 | What the network takes per block and validator, paying each operator its own fee and itself the network fee, is what the fee loop adds up |
| Runway.DueAfter | task/common.go:259-274 | After any number of blocks the next top-up is due if and only if the blocks left no longer carry the cluster |
| Runway.OnboardRunway | task/ssv_onboard.go:94-97 | After a registration with the larger amount the enlarged cluster asks for nothing for 2629800 blocks less three liquidation periods |
| Runway.OnboardRunwayIsTight | task/ssv_onboard.go:94-97 | One block later a first validator does ask, so the bound is exact |
| Runway.OnboardSurvives | task/ssv_onboard.go:94-97 | Charged as the network charges, after a registration with the larger amount the enlarged cluster is never overdrawn for 2629800 blocks and a liquidation period, and asks for nothing for 2629800 blocks less three periods |
| Runway.TopUpRunway | task/ssv_deposit_reactive.go:67-85 | Right after a top-up the check returns (0, 0), and asks for nothing for 2629800 blocks less one liquidation period |
| Runway.TopUpSurvives | task/ssv_deposit_reactive.go:67-85 | Charged as the network charges, after a top-up the cluster is never overdrawn for 2629800 blocks and a liquidation period, and asks for nothing for 2629800 blocks less one period |
| OperatorTable.OperatorTable.CompleteAll | task/ssv_operator.go:47-89 | In any map order exactly the operators of non-empty clusters come in, no entry changes, and a failure leaves only such additions |
| OperatorTable.OperatorTable.UpdateOperatorStatus | task/ssv_operator.go:15-160 | On success every operator is polled once with its chain fee and count; on failure every old entry is itself or polled once |
| OperatorTable.UpdatedMeans | task/ssv_operator.go:15-160 | After a successful update every operator has the fee and count of the chain; one from before keeps its key and is active if and only if it is reported so or its inactive run is at most 3600 seconds old; a new one has its published key, and serves if and only if it has one and its count is at least 5 below the limit |
| OperatorTable.InactiveExactlyAfterAnHour | task/ssv_operator.go:117-133 | After any polls an operator is inactive if and only if all polls since some moment said so and that moment is more than 3600 seconds back |
| OperatorTable.CompletedTableSelects | task/common.go:168-195 | With a completed table selection fails if and only if too few operators are usable, an emptied cluster has an operator that completion leaves out, or there is neither a cluster nor a block |
| PlacementExamples.EmptiedClusterBlocksSelection | task/common.go:137-141 | One emptied cluster with unlisted operators: every selection fails although nine operators are usable |
| OperatorTable.CompletedTableOffboards | task/ssv_offboard.go:47-85 | With a completed table the decision for a non-empty cluster never crashes, and fails only for lack of usable operators |
| RoundsProof.NextInv | task/task.go:451-463 | Every step of the machine keeps the replay, transaction, fee recipient, operator table, status and pool invariants |
| RoundsProof.NoTransactionOnStaleState | task/task.go:558-569 | In every run each cluster transaction is sent after all the client's earlier confirmed ones on that cluster were read back; its snapshot is the last one read, or the fresh one with zero counters; for top-ups and reactivations always the last one read |
| Staleness.StaleExactlyAfterOverwrite | task/common.go:102-116 | In every run a transaction's snapshot is not the last one read if and only if that one is not fresh and an earlier selection step overwrote the cluster, under the condition of OverwritesExactly, with no log of it read in between |
| StaleExample.RegistrationWithStaleSnapshot | task/ssv_onboard.go:74-200 | A complete run over a lawful chain that ends in a registration with the fresh snapshot while the network's is another |
| RoundsProof.RegistrationWaits | task/ssv_onboard.go:59-67 | In every run a registration is never submitted at a head below 96 blocks after the client's own confirmed removal of that validator |
| RoundsProof.HandlersSeeTheChain | task/task.go:451-463 | Whenever a handler after replay runs, the state it sees refines the chain, placements and failed passes before it included; the fee recipient alone may be ahead, only while the gate is closed, and then the client has set it in a block not read yet |
| RoundsProof.OffboardingDecides | task/ssv_offboard.go:33-85 | In every run the decision for a registered validator does not crash and fails only for lack of usable operators: its cluster is stored and has all its operators in the table |
| RoundsProof.PoolAlwaysCovers | task/stafi_deposit.go:15-64 | In every reachable state the usable balance covers 31 ETH for every deposited or matched validator less 1600 wei, and the reserve is never touched |
| Client.Client.SendOnCluster | task/task.go:558-565 | Submitting with the stored snapshot and waiting is a step of the machine; success notes a block above the old head, failure restarts the round, and either way the transaction is on record |
| Client.Client.CheckAndRepairValNextKeyIndex | task/val_keyindex.go:19-77 | A path of the machine; on success the view has every key in use, on failure it has only grown |
| Client.Client.UpdateSsvOffchainState | task/ssv_offchain_state.go:35-245 | The object's pass is the machine's pass; on success it has reached the target of the head it read |
| Client.Client.UpdateValStatus | task/val_info.go:16-150 | A path of the machine; the stored statuses become those of the specified poll, and on success the view is the contract's and the super node limit is noted |
| Client.Client.UpdateOperatorStatus | task/ssv_operator.go:15-160 | A path; nothing with the gate closed; otherwise a return without error leaves the table completed and every operator polled once with the answers |
| Client.Client.CheckAndStake | task/stafi_stake.go:14-113 | Whatever the calls answer, a path of the machine; does nothing unless the gate is open, 31 ETH are spare and a validator is matched; if so and it returns without error, as many matched validators as the spare balance has 31 ETH for are staked |
| Client.Client.CheckAndDeposit | task/stafi_deposit.go:27-187 | A path; returns and does nothing unless the gate is open, 32 ETH are spare, none is pending and the size is not zero; if so and it returns without error, a deposit of that size is made and in the view; the size is paid for, fits super node and gas limit and could not be larger; panics on a negative size |
| Client.Client.CheckAndSetFeeRecipient | task/ssv_fee_recipient.go:10-41 | A path; does nothing if the gate is closed or the stored recipient is the wanted one; otherwise a return without error has set it, by a transaction confirmed above the old head, and changed nothing else |
| Client.Client.CheckAndWithdrawOnSSV | task/ssv_withdraw.go:11-69 | A path; nothing with the gate closed; otherwise at most one transaction, a withdrawal from a cluster with a balance but no validators; a return without error that sends nothing means there is no such cluster |
| Client.Client.CheckAndReactiveOnSSV | task/ssv_deposit_reactive.go:14-105 | A path; nothing with the gate closed; otherwise only refills of clusters with validators, no cluster twice, in any map order: a reactivation if and only if it is liquidated, a top-up if it needs a deposit; after a return without error every cluster that wanted one has it |
| Client.Client.CheckAndOnboardOnSSV | task/ssv_onboard.go:28-238 | A path; nothing with the gate closed; otherwise at most one transaction on a cluster, the registration of a staked validator that wants one and has waited 96 blocks, on a least loaded cluster that fits; if nothing is sent, no call fails and the cluster is not liquidated, no validator that wants a cluster has waited |
| Client.Client.CheckAndOffboardOnSSV | task/ssv_offboard.go:17-134 | A path; nothing with the gate closed; otherwise at most one transaction, the removal of a validator that is due by the rule, on its stored statuses, from the cluster its key names, when every validator before it is known and kept; a return that sends nothing means none is due up to the end or to the first without a known cluster; a panic sends nothing |
| Client.Client.Round | task/task.go:451-478 | A round that returns has run the eleven handlers in order, with only blocks, donations and votes between them, and each has done what was due to it in the state it found: keys, replay, statuses, operators, stake, deposit, fee recipient, withdrawal, refills, registration, removal |
| Paths.PathIsSafe | task/task.go:451-463 | Whatever lies on a path from the start satisfies all invariants |
| Client.Client.SsvService | task/service_ssv.go:10-46 | Rounds in handler order, restarted on error; the loop asks for a shutdown exactly after more than 200 failures in a row, and stops before that only at a panic, which ends it; throughout, all transactions sent are sound, the pool covers its stakes and stays at its reserve |

## Left out

- Clusters, snapshots and operators are values in maps, not shared pointers: aliasing of a cluster between the map and a
  local variable is not captured. Validators are objects in `KeyTable` and `ValInfo`, and are split over maps by key
  index in `Replay` and `Rounds`.
- RoundsProof.HandlersSeeTheChain: says nothing of the clusters' cached balances. A pass ends by refreshing them, which
  here can only fail.
- Client.Client.CheckAndWithdrawOnSSV: the clusters' cached balances are an input, and the amount is not recorded.
- Client.Client.CheckAndRepairValNextKeyIndex: has the keys as a sequence of contract statuses; the two maps, the retries
  and the errors are those of `KeyTable`.
- Client.Client.UpdateValStatus: polls by the function of `ValInfo`; the calls one by one, on shared objects, and the
  cache by beacon index are in `ValInfo`.
- Client.Client.CheckAndDeposit: the key maps appear only as their length, and any key may be one that cannot be
  prepared; the maps' contents are in `KeyTable`.
- Client.Client.CheckAndReactiveOnSSV: the lock on transaction options, released only at the handler's end, would block a
  second transaction in one call; the machine allows several, so its safety is proved for more than can happen.
- Client.Client.SsvService: that calls succeed often enough for a due transaction to be sent in the end. A round that
  returns has sent what was due (`Client.Client.Round`), but any call may fail in every round. A failed `waitTxOk`, a
  missing token balance and a registration that is not visible ask for a shutdown of the process at once; the loop may
  still run until it is stopped, and only its own request is stated.
- Runway.CalClusterNeedDepositAmount: network fee, balance and liquidation period are inputs, where a reverted balance
  query counts as balance 0.
- Runs of `Start`, restarts of the process (the last transaction block is not kept on disk) and the shutdown channel.
- Overflow of 64-bit block numbers, ids and counters; `uint64` and `int64` conversions are modelled where a size is cut.
- Key derivation, signatures, key shares, deposit data roots: a public key is an injective function of its index.
- Transaction fees and nonces, the token's allowance and balance checks, and the amounts sent with cluster transactions.
- The ejector and uptime services, configuration and command line; the wanted fee recipient is a constant.
- That every validator due for removal is eventually removed: the handler returns at the first validator without a known
  cluster, so this does not hold.
