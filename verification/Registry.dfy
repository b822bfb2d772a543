/** The SSV network's own account of an operator-cluster history, written without reference to the client, and the
    proof that the replayed state agrees with it. */
module Registry {
  import opened Sorting
  import opened ClusterKeys
  import opened Chain
  import opened Replay

  const FRESH: Snapshot := Snapshot(0, 0, 0, true, 0)

  function Init(logs: seq<Log>): seq<Log>
    requires logs != []
  {
    logs[..|logs| - 1]
  }

  function Last(logs: seq<Log>): Log
    requires logs != []
  {
    logs[|logs| - 1]
  }

  predicate On(log: Log, key: string) { log.ClusterLog? && ClusterKey(log.ids) == key }

  predicate Adds(log: Log) { log.ClusterLog? && log.kind.ValidatorAdded? }

  predicate Removes(log: Log) { log.ClusterLog? && log.kind.ValidatorRemoved? }

  /** Which validators are registered, and in which cluster. */
  function Registered(logs: seq<Log>): map<nat, string> {
    if logs == [] then map[]
    else
      var before, log := Registered(Init(logs)), Last(logs);
      if Adds(log) then before[log.kind.val := ClusterKey(log.ids)]
      else if Removes(log) then before - {log.kind.val}
      else before
  }

  function Members(logs: seq<Log>, key: string): set<nat> {
    set v | v in Registered(logs) && Registered(logs)[v] == key
  }

  function LastSnapshot(logs: seq<Log>, key: string): Snapshot {
    if logs == [] then FRESH
    else if On(Last(logs), key) then Last(logs).snapshot
    else LastSnapshot(Init(logs), key)
  }

  /** Block of the last log of a cluster; 0 when it has none. */
  function LastBlock(logs: seq<Log>, key: string): nat {
    if logs == [] then 0
    else if On(Last(logs), key) then Last(logs).block
    else LastBlock(Init(logs), key)
  }

  function LastRemoval(logs: seq<Log>, v: nat): nat {
    if logs == [] then 0
    else if Removes(Last(logs)) && Last(logs).kind.val == v then Last(logs).block
    else LastRemoval(Init(logs), v)
  }

  /** Recipient of the last fee-recipient log; 0 when there is none. */
  function LastRecipient(logs: seq<Log>): nat {
    if logs == [] then 0
    else match Last(logs)
         case FeeRecipientLog(_, _, recipient) => recipient
         case _ => LastRecipient(Init(logs))
  }

  function AddedCount(logs: seq<Log>): nat {
    if logs == [] then 0 else AddedCount(Init(logs)) + if Adds(Last(logs)) then 1 else 0
  }

  function HighestBlock(logs: seq<Log>): nat {
    if logs == [] then 0 else Last(logs).block
  }

  /** What the contract guarantees of the next log, save that a cluster has one log per block. */
  ghost predicate Lawful(logs: seq<Log>, log: Log) {
    && !log.removed
    && 0 < log.block && HighestBlock(logs) <= log.block
    && (log.ClusterLog? ==>
          && Ascending(log.ids)
          && (Adds(log) ==> log.kind.val !in Registered(logs))
          && (Removes(log) ==>
                log.kind.val in Registered(logs) && Registered(logs)[log.kind.val] == ClusterKey(log.ids))
          && log.snapshot.validatorCount == |Members(logs + [log], ClusterKey(log.ids))|)
  }

  /** At most one log per cluster per block. */
  ghost predicate OnePerBlock(logs: seq<Log>, log: Log) {
    log.ClusterLog? ==> LastBlock(logs, ClusterKey(log.ids)) < log.block
  }

  ghost predicate WellFormed(logs: seq<Log>) {
    logs == [] || (WellFormed(Init(logs)) && Lawful(Init(logs), Last(logs)) && OnePerBlock(Init(logs), Last(logs)))
  }

  // ---- Agreement of the replayed state with the registry ----

  /** The stored cluster has been replaced by a fresh one and no log of it has been replayed since. */
  predicate Blank(c: Cluster) {
    && c.latestUpdate == 0 && c.latestAdded == 0 && c.latestRemoved == 0
    && c.latestCluster == FRESH && c.managing == {}
  }

  ghost predicate ClusterSynced(logs: seq<Log>, key: string, c: Cluster) {
    && key == ClusterKey(c.operatorIds) && Ascending(c.operatorIds)
    && c.managing == Members(logs, key)
    && c.latestAdded <= LastBlock(logs, key)
    && c.latestRemoved <= LastBlock(logs, key)
    && ((c.latestUpdate == LastBlock(logs, key) && c.latestCluster == LastSnapshot(logs, key)) || Blank(c))
  }

  ghost predicate KeyUnused(logs: seq<Log>, key: string) {
    LastBlock(logs, key) == 0 && Members(logs, key) == {} && LastSnapshot(logs, key) == FRESH
  }

  ghost predicate ClustersSynced(s: Off, logs: seq<Log>) {
    && (forall key :: key in s.clusters ==> ClusterSynced(logs, key, s.clusters[key]))
    && (forall key :: key !in s.clusters ==> KeyUnused(logs, key))
  }

  ghost predicate ValidatorsSynced(s: Off, logs: seq<Log>) {
    && (forall v :: v in Registered(logs) ==> v in s.clusterKeys && s.clusterKeys[v] == Registered(logs)[v])
    && (forall v :: RemovedBlock(s, v) == LastRemoval(logs, v))
  }

  /** Agreement in everything but the fee recipient, which the client also writes itself. */
  ghost predicate Agrees(s: Off, logs: seq<Log>) {
    ClustersSynced(s, logs) && ValidatorsSynced(s, logs) && s.nonce == AddedCount(logs)
  }

  ghost predicate Synced(s: Off, logs: seq<Log>) { Agrees(s, logs) && s.feeRecipient == LastRecipient(logs) }

  lemma SnocParts(logs: seq<Log>, log: Log)
    ensures Init(logs + [log]) == logs && Last(logs + [log]) == log
  {
  }

  lemma {:induction false} RemovalBelowHighest(logs: seq<Log>, v: nat)
    requires WellFormed(logs)
    ensures LastRemoval(logs, v) <= HighestBlock(logs)
  {
    if logs != [] {
      RemovalBelowHighest(Init(logs), v);
    }
  }

  lemma OtherClusterKept(s: Off, logs: seq<Log>, log: Log, key: string)
    requires Lawful(logs, log) && !On(log, key)
    ensures Members(logs + [log], key) == Members(logs, key)
    ensures LastBlock(logs + [log], key) == LastBlock(logs, key)
    ensures LastSnapshot(logs + [log], key) == LastSnapshot(logs, key)
  {
    SnocParts(logs, log);
  }

  lemma OwnMembersStep(logs: seq<Log>, log: Log)
    requires Lawful(logs, log) && log.ClusterLog?
    ensures var key, v := ClusterKey(log.ids), if Adds(log) || Removes(log) then log.kind.val else 0;
      Members(logs + [log], key) ==
        if Adds(log) then Members(logs, key) + {v}
        else if Removes(log) then Members(logs, key) - {v}
        else Members(logs, key)
    ensures Adds(log) ==> log.kind.val !in Members(logs, ClusterKey(log.ids))
    ensures Removes(log) ==> log.kind.val in Members(logs, ClusterKey(log.ids))
    ensures LastBlock(logs + [log], ClusterKey(log.ids)) == log.block
    ensures LastSnapshot(logs + [log], ClusterKey(log.ids)) == log.snapshot
  {
    SnocParts(logs, log);
  }

  /** The counters let the log through: the cluster has had no log in that block, or has been replaced by a fresh one
      since. */
  predicate Admits(s: Off, logs: seq<Log>, log: Log)
    requires log.ClusterLog?
  {
    var key := ClusterKey(log.ids);
    LastBlock(logs, key) < log.block || (key in s.clusters && Blank(s.clusters[key]))
  }

  /** The cluster a log finds is open to it. */
  lemma FoundIsOpen(s: Off, logs: seq<Log>, log: Log)
    requires ClustersSynced(s, logs) && Lawful(logs, log) && log.ClusterLog? && Admits(s, logs, log)
    ensures StoredKey(log.ids) == ClusterKey(log.ids)
    ensures var found := Found(s, log.ids, log.snapshot);
      && found.operatorIds == log.ids
      && found.managing == Members(logs, ClusterKey(log.ids))
      && found.latestUpdate < log.block && found.latestAdded < log.block && found.latestRemoved < log.block
  {
    SortOfSorted(log.ids);
    var key := ClusterKey(log.ids);
    if key in s.clusters {
      assert ClusterSynced(logs, key, s.clusters[key]);
      ClusterKeyInjective(s.clusters[key].operatorIds, log.ids);
    } else {
      assert KeyUnused(logs, key);
    }
  }

  lemma OwnClusterStep(s: Off, logs: seq<Log>, log: Log)
    requires ClustersSynced(s, logs) && Lawful(logs, log) && log.ClusterLog? && Admits(s, logs, log)
    ensures ClusterSynced(logs + [log], ClusterKey(log.ids),
                          Touch(Found(s, log.ids, log.snapshot), log.snapshot, log.block, log.kind))
  {
    FoundIsOpen(s, logs, log);
    OwnMembersStep(logs, log);
  }

  lemma ClustersStep(s: Off, logs: seq<Log>, log: Log)
    requires ClustersSynced(s, logs) && Lawful(logs, log) && (log.ClusterLog? ==> Admits(s, logs, log))
    ensures ClustersSynced(Apply(s, log), logs + [log])
  {
    var t := Apply(s, log);
    if log.ClusterLog? {
      FoundIsOpen(s, logs, log);
      OwnClusterStep(s, logs, log);
    }
    forall key | key in t.clusters ensures ClusterSynced(logs + [log], key, t.clusters[key]) {
      if !On(log, key) {
        OtherClusterKept(s, logs, log, key);
        assert ClusterSynced(logs, key, s.clusters[key]);
      }
    }
    forall key | key !in t.clusters ensures KeyUnused(logs + [log], key) {
      OtherClusterKept(s, logs, log, key);
      assert KeyUnused(logs, key);
    }
  }

  lemma ValidatorsStep(s: Off, logs: seq<Log>, log: Log)
    requires ValidatorsSynced(s, logs) && WellFormed(logs) && Lawful(logs, log)
    ensures ValidatorsSynced(Apply(s, log), logs + [log])
  {
    hide Touch, Found, StoredKey, ClusterKey;
    SnocParts(logs, log);
    if Removes(log) {
      RemovalBelowHighest(logs, log.kind.val);
    }
    var t := Apply(s, log);
    forall v ensures RemovedBlock(t, v) == LastRemoval(logs + [log], v) {
      assert RemovedBlock(s, v) == LastRemoval(logs, v);
    }
  }

  /** One lawful log that the counters let through keeps the agreement. */
  lemma SyncedStep(s: Off, logs: seq<Log>, log: Log)
    requires Synced(s, logs) && WellFormed(logs) && Lawful(logs, log)
    requires log.ClusterLog? ==> Admits(s, logs, log)
    ensures Synced(Apply(s, log), logs + [log])
  {
    SnocParts(logs, log);
    ClustersStep(s, logs, log);
    ValidatorsStep(s, logs, log);
    if Adds(log) {
      FoundIsOpen(s, logs, log);
    }
  }

  lemma {:induction false} SyncedAll(s: Off, logs: seq<Log>, more: seq<Log>)
    requires Synced(s, logs) && WellFormed(logs + more)
    ensures Synced(ApplyAll(s, more), logs + more)
  {
    if more == [] {
      assert logs + more == logs;
    } else {
      assert logs + more == logs + Init(more) + [Last(more)];
      SnocParts(logs + Init(more), Last(more));
      SyncedAll(s, logs, Init(more));
      SyncedStep(ApplyAll(s, Init(more)), logs + Init(more), Last(more));
    }
  }

  /** The fee recipient has no influence on the rest. */
  lemma {:induction false} FeeApart(s: Off, fee: nat, logs: seq<Log>)
    ensures ApplyAll(s.(feeRecipient := fee), logs) == ApplyAll(s, logs).(feeRecipient := WriteFees(fee, logs))
    ensures ApplyAll(s, logs).feeRecipient == WriteFees(s.feeRecipient, logs)
  {
    if logs != [] {
      FeeApart(s, fee, Init(logs));
    }
  }

  lemma AgreesAll(s: Off, logs: seq<Log>, more: seq<Log>)
    requires Agrees(s, logs) && WellFormed(logs + more)
    ensures Agrees(ApplyAll(s, more), logs + more)
  {
    var t := s.(feeRecipient := LastRecipient(logs));
    assert Synced(t, logs);
    SyncedAll(t, logs, more);
    FeeApart(s, LastRecipient(logs), more);
    assert Agrees(ApplyAll(t, more), logs + more);
  }

  ghost predicate SomeRecipient(logs: seq<Log>) { exists i :: 0 <= i < |logs| && logs[i].FeeRecipientLog? }

  /** Whatever the recipient was, a log that sets it decides; without one it stays. */
  lemma {:induction false} RecipientAfter(fee: nat, logs: seq<Log>, more: seq<Log>)
    requires WellFormed(logs + more)
    ensures SomeRecipient(more) ==> WriteFees(fee, more) == LastRecipient(logs + more)
    ensures WriteFees(fee, more) == fee || WriteFees(fee, more) == LastRecipient(logs + more)
    ensures fee == LastRecipient(logs) ==> WriteFees(fee, more) == LastRecipient(logs + more)
  {
    if more == [] {
      assert logs + more == logs;
    } else {
      assert logs + more == logs + Init(more) + [Last(more)];
      SnocParts(logs + Init(more), Last(more));
      RecipientAfter(fee, logs, Init(more));
      if SomeRecipient(more) && !Last(more).FeeRecipientLog? {
        var i :| 0 <= i < |more| && more[i].FeeRecipientLog?;
        assert Init(more)[i] == more[i];
      }
    }
  }

  const EMPTY: Off := Off(map[], 0, 0, map[], map[])

  lemma SyncedStart()
    ensures Synced(EMPTY, [])
  {
  }

  // ---- What the agreement says ----

  lemma {:induction false} CountsMatch(logs: seq<Log>, key: string)
    requires WellFormed(logs) && 0 < LastBlock(logs, key)
    ensures LastSnapshot(logs, key).validatorCount == |Members(logs, key)|
  {
    var init, log := Init(logs), Last(logs);
    assert logs == init + [log];
    if !On(log, key) {
      OtherClusterKept(EMPTY, init, log, key);
      CountsMatch(init, key);
    }
  }

  lemma {:induction false} MembersHaveLogs(logs: seq<Log>, v: nat)
    requires WellFormed(logs) && v in Registered(logs)
    ensures 0 < LastBlock(logs, Registered(logs)[v])
  {
    var init, log := Init(logs), Last(logs);
    assert logs == init + [log];
    if v in Registered(init) && !(Adds(log) && log.kind.val == v) {
      MembersHaveLogs(init, v);
    }
  }

  ghost predicate Refines(s: Off, logs: seq<Log>) {
    && (forall a, b :: a in s.clusters && b in s.clusters && a != b ==>
          s.clusters[a].managing !! s.clusters[b].managing)
    && (forall v :: v in Registered(logs) ==>
          && v in s.clusterKeys && s.clusterKeys[v] in s.clusters
          && v in s.clusters[s.clusterKeys[v]].managing)
    && (forall key, v :: key in s.clusters && v in s.clusters[key].managing ==> v in Registered(logs))
    && (forall key :: key in s.clusters && s.clusters[key].managing != {} ==>
          var c := s.clusters[key];
          c.latestCluster == LastSnapshot(logs, key) && c.latestCluster.validatorCount == |c.managing|)
    && (forall key :: key in s.clusters ==>
          key == ClusterKey(s.clusters[key].operatorIds) && Ascending(s.clusters[key].operatorIds))
    && (forall v :: RemovedBlock(s, v) == LastRemoval(logs, v))
    && s.nonce == AddedCount(logs)
    && s.feeRecipient == LastRecipient(logs)
  }

  lemma SyncedRefines(s: Off, logs: seq<Log>)
    requires Synced(s, logs) && WellFormed(logs)
    ensures Refines(s, logs)
  {
    forall v | v in Registered(logs)
      ensures s.clusterKeys[v] in s.clusters && v in s.clusters[s.clusterKeys[v]].managing
    {
      var key := Registered(logs)[v];
      assert v in Members(logs, key);
      assert key !in s.clusters ==> KeyUnused(logs, key);
      assert ClusterSynced(logs, key, s.clusters[key]);
    }
    forall key | key in s.clusters && s.clusters[key].managing != {}
      ensures s.clusters[key].latestCluster.validatorCount == |s.clusters[key].managing|
    {
      assert ClusterSynced(logs, key, s.clusters[key]);
      var v :| v in s.clusters[key].managing;
      MembersHaveLogs(logs, v);
      CountsMatch(logs, key);
    }
    forall key | key in s.clusters ensures s.clusters[key].managing == Members(logs, key) {
      assert ClusterSynced(logs, key, s.clusters[key]);
    }
  }

  /** The blocks after `start` form a lawful history of the network, in block order. */
  ghost predicate LawfulChain(c: Blocks, start: nat) {
    && (forall b: nat :: WellFormed(History(c, start, b)))
    && (forall b: nat, i :: 0 <= i < |c(b)| ==> c(b)[i].block == b)
  }

  /** Replay refines the chain: after any failing passes and a successful one, the managing sets partition the
      registered validators, every validator's cluster key names its holder, non-empty clusters hold their last
      snapshot with the right count, and the nonce counts the registrations. */
  lemma ReplayRefinesChain(c: Blocks, start: nat, failing: seq<PassInput>, last: PassInput)
    requires LawfulChain(c, start)
    requires last.head.Some? && start <= Target(last.head.value)
    requires WithinReach(failing, Target(last.head.value))
    requires RunPasses(c, EMPTY, start, failing + [last]).ok
    ensures var r := RunPasses(c, EMPTY, start, failing + [last]);
      Refines(r.off, History(c, start, r.dealed))
  {
    ReplayConverges(c, EMPTY, start, failing, last);
    var logs := History(c, start, Target(last.head.value));
    SyncedStart();
    assert [] + logs == logs;
    SyncedAll(EMPTY, [], logs);
    SyncedRefines(ApplyAll(EMPTY, logs), logs);
  }

  // ---- Why one log per block is needed ----

  /** A log that is not let through leaves the stored snapshot and update counter as they were. */
  lemma ShutOutKeepsSnapshot(s: Off, logs: seq<Log>, log: Log)
    requires Synced(s, logs) && Lawful(logs, log) && log.ClusterLog? && !Admits(s, logs, log)
    ensures var key := ClusterKey(log.ids);
      && key in s.clusters && key in Apply(s, log).clusters && 0 < LastBlock(logs, key)
      && Apply(s, log).clusters[key].latestCluster == LastSnapshot(logs, key)
      && 0 < Apply(s, log).clusters[key].latestUpdate
  {
    var key := ClusterKey(log.ids);
    SortOfSorted(log.ids);
    assert key !in s.clusters ==> KeyUnused(logs, key);
    assert ClusterSynced(logs, key, s.clusters[key]);
  }

  /** A log of the other kinds that repeats the snapshot keeps the agreement, let through or not. */
  lemma RepeatedSnapshotIsHarmless(s: Off, logs: seq<Log>, log: Log)
    requires Synced(s, logs) && WellFormed(logs) && Lawful(logs, log) && log.ClusterLog? && !Admits(s, logs, log)
    requires !Adds(log) && !Removes(log) && log.snapshot == LastSnapshot(logs, ClusterKey(log.ids))
    ensures Synced(Apply(s, log), logs + [log])
  {
    var t, key := Apply(s, log), ClusterKey(log.ids);
    SnocParts(logs, log);
    SortOfSorted(log.ids);
    OwnMembersStep(logs, log);
    assert key !in s.clusters ==> KeyUnused(logs, key);
    assert ClusterSynced(logs, key, s.clusters[key]);
    assert t.clusters[key] == s.clusters[key] && LastBlock(logs, key) == log.block by {
      LastBlockBelowHighest(logs, key);
    }
    forall k | k in t.clusters ensures ClusterSynced(logs + [log], k, t.clusters[k]) {
      assert ClusterSynced(logs, k, s.clusters[k]);
      if k != key {
        OtherClusterKept(s, logs, log, k);
      }
    }
    forall k | k !in t.clusters ensures KeyUnused(logs + [log], k) {
      OtherClusterKept(s, logs, log, k);
      assert KeyUnused(logs, k);
    }
    ValidatorsStep(s, logs, log);
  }

  lemma {:induction false} LastBlockBelowHighest(logs: seq<Log>, key: string)
    requires WellFormed(logs)
    ensures LastBlock(logs, key) <= HighestBlock(logs)
  {
    if logs != [] {
      LastBlockBelowHighest(Init(logs), key);
    }
  }

  /** For every lawful log of a cluster, the replayed state stays in agreement exactly when the counters let the log
      through, or it is neither an addition nor a removal and repeats the snapshot: the strict guards drop a second log
      in one block. */
  lemma SecondLogInBlockIsLost(s: Off, logs: seq<Log>, log: Log)
    requires Synced(s, logs) && WellFormed(logs) && Lawful(logs, log) && log.ClusterLog?
    ensures Synced(Apply(s, log), logs + [log]) <==>
      Admits(s, logs, log) || (!Adds(log) && !Removes(log) && log.snapshot == LastSnapshot(logs, ClusterKey(log.ids)))
  {
    var key := ClusterKey(log.ids);
    if Admits(s, logs, log) {
      SyncedStep(s, logs, log);
    } else {
      ShutOutKeepsSnapshot(s, logs, log);
      CountsMatch(logs, key);
      OwnMembersStep(logs, log);
      if !Adds(log) && !Removes(log) && log.snapshot == LastSnapshot(logs, key) {
        RepeatedSnapshotIsHarmless(s, logs, log);
      } else {
        assert !ClusterSynced(logs + [log], key, Apply(s, log).clusters[key]);
      }
    }
  }

  lemma WellFormedSnoc(logs: seq<Log>, log: Log)
    requires WellFormed(logs) && Lawful(logs, log) && OnePerBlock(logs, log)
    ensures WellFormed(logs + [log])
  {
    SnocParts(logs, log);
  }

  lemma OneAddition(ids: seq<nat>, log: Log)
    requires Ascending(ids) && log.ClusterLog? && log.ids == ids && !log.removed && 0 < log.block
    requires log.kind == ValidatorAdded(0) && log.snapshot.validatorCount == 1
    ensures WellFormed([log]) && Registered([log]) == map[0 := ClusterKey(ids)]
    ensures Members([log], ClusterKey(ids)) == {0}
  {
    SnocParts([], log);
    assert [] + [log] == [log];
    assert Registered([log]) == map[0 := ClusterKey(ids)];
    assert forall v :: v in Members([log], ClusterKey(ids)) <==> v == 0;
    assert Members([log], ClusterKey(ids)) == {0};
    WellFormedSnoc([], log);
  }

  lemma SecondAddDropped(key: string, first: Log, second: Log)
    requires first.ClusterLog? && second.ClusterLog? && first.block == second.block && 0 < first.block
    requires !first.removed && !second.removed && StoredKey(first.ids) == key == StoredKey(second.ids)
    requires Adds(first) && Adds(second)
    ensures var t := Apply(Apply(EMPTY, first), second);
      && key in t.clusters && t.clusters[key].managing == {first.kind.val}
      && t.clusters[key].latestCluster == first.snapshot && t.nonce == 1
  {
    var t1 := Apply(EMPTY, first);
    assert t1.clusters[key].latestAdded == first.block == t1.clusters[key].latestUpdate && t1.nonce == 1;
    assert Apply(t1, second).clusters[key] == t1.clusters[key];
  }

  lemma TwoAdditions(ids: seq<nat>, first: Log, second: Log)
    requires Ascending(ids) && first.ClusterLog? && second.ClusterLog? && first.ids == ids == second.ids
    requires !first.removed && !second.removed && 0 < first.block == second.block
    requires first.kind == ValidatorAdded(0) && first.snapshot.validatorCount == 1
    requires second.kind == ValidatorAdded(1) && second.snapshot.validatorCount == 2
    ensures WellFormed([first]) && Lawful([first], second)
    ensures Members([first] + [second], ClusterKey(ids)) == {0, 1}
  {
    var key := ClusterKey(ids);
    OneAddition(ids, first);
    SnocParts([first], second);
    assert Registered([first] + [second]) == map[0 := key, 1 := key];
    assert forall v :: v in Members([first] + [second], key) <==> v == 0 || v == 1;
    assert Members([first] + [second], key) == {0, 1};
  }

  /** Two validators added to one cluster in one block: the network has both, the replayed state only the first. */
  lemma SecondAddIsLost(ids: seq<nat>, first: Log, second: Log)
    requires ids == [1, 2, 3, 4]
    requires first == ClusterLog(5, false, ids, Snapshot(1, 0, 0, true, 9), ValidatorAdded(0))
    requires second == ClusterLog(5, false, ids, Snapshot(2, 0, 0, true, 18), ValidatorAdded(1))
    ensures WellFormed([first]) && Lawful([first], second)
    ensures Members([first] + [second], ClusterKey(ids)) == {0, 1}
    ensures var t := Apply(Apply(EMPTY, first), second);
      && ClusterKey(ids) in t.clusters && t.clusters[ClusterKey(ids)].managing == {0}
      && t.clusters[ClusterKey(ids)].latestCluster == first.snapshot && t.nonce == 1
  {
    TwoAdditions(ids, first, second);
    SortOfSorted(ids);
    SecondAddDropped(ClusterKey(ids), first, second);
  }
}
