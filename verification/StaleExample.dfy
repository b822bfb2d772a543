/** A run in which a registration is sent with a stale snapshot: a cluster that has been used and emptied is overwritten
    by the selection that then chooses it. */
module StaleExample {
  import opened Wrappers
  import opened ValidatorStatus
  import opened Sorting
  import opened ClusterKeys
  import opened Chain
  import opened Replay
  import opened Registry
  import opened Placement
  import opened PlacementExamples
  import opened Rounds
  import opened RoundsProof
  import T = OperatorTable

  // ---- The chain: validator 0 joins the cluster in block 40 and leaves it in block 50 ----

  function Joins(ids: seq<nat>): Log {
    ClusterLog(40, false, ids, Snapshot(1, 3, 4, true, 90), ValidatorAdded(0))
  }

  function Leaves(ids: seq<nat>): Log {
    ClusterLog(50, false, ids, Snapshot(0, 7, 9, true, 100), ValidatorRemoved(0))
  }

  function ExampleChain(ids: seq<nat>): Blocks {
    (b: nat) => if b == 40 then [Joins(ids)] else if b == 50 then [Leaves(ids)] else []
  }

  lemma {:induction false} ExampleHistory(ids: seq<nat>, b: nat)
    ensures History(ExampleChain(ids), 0, b) ==
      if b < 40 then [] else if b < 50 then [Joins(ids)] else [Joins(ids)] + [Leaves(ids)]
  {
    if b > 0 {
      ExampleHistory(ids, b - 1);
    }
  }

  lemma LeavingIsLawful(ids: seq<nat>)
    requires Ascending(ids)
    ensures WellFormed([Joins(ids)]) && WellFormed([Joins(ids)] + [Leaves(ids)])
  {
    var join, leave := Joins(ids), Leaves(ids);
    OneAddition(ids, join);
    SnocParts([join], leave);
    assert Registered([join] + [leave]) == map[];
    assert Members([join] + [leave], ClusterKey(ids)) == {};
    assert LastBlock([join], ClusterKey(ids)) == 40;
    WellFormedSnoc([join], leave);
  }

  lemma ExampleIsLawful(ids: seq<nat>)
    requires Ascending(ids)
    ensures LawfulChain(ExampleChain(ids), 0)
  {
    LeavingIsLawful(ids);
    forall b: nat ensures WellFormed(History(ExampleChain(ids), 0, b)) {
      ExampleHistory(ids, b);
    }
  }

  // ---- What replay makes of it ----

  function ReplayedOff(ids: seq<nat>): Off {
    Off(map[ClusterKey(ids) := UsedCluster(ids)], 1, 0, map[0 := ClusterKey(ids)], map[0 := 50])
  }

  lemma ExampleReplay(ids: seq<nat>)
    requires Ascending(ids)
    ensures ApplyAll(EMPTY, [Joins(ids)] + [Leaves(ids)]) == ReplayedOff(ids)
  {
    var join, leave := Joins(ids), Leaves(ids);
    SortOfSorted(ids);
    assert ([join] + [leave])[..1] == [join] && [join][..0] == [];
    assert ApplyAll(EMPTY, []) == EMPTY;
    assert ApplyAll(EMPTY, [join]) == Apply(EMPTY, join);
    var none: set<nat> := {};
    assert none + {0} == {0} && {0} - {0} == none;
    assert Apply(EMPTY, join).clusters == map[ClusterKey(ids) := Cluster(ids, join.snapshot, {0}, 40, 40, 0)];
    assert Apply(Apply(EMPTY, join), leave).clusters == map[ClusterKey(ids) := UsedCluster(ids)];
    assert Apply(Apply(EMPTY, join), leave).removedBlocks == map[0 := 50];
  }

  lemma ExampleHandled(ids: seq<nat>)
    ensures Handled([Joins(ids)] + [Leaves(ids)], {0}, 9) == 2
  {
    var logs := [Joins(ids)] + [Leaves(ids)];
    assert logs[1..] == [Leaves(ids)] && logs[1..][1..] == [];
  }

  lemma ExamplePass(ids: seq<nat>)
    requires Ascending(ids)
    ensures var r := RunPass(ExampleChain(ids), EMPTY, 0, PassInput(Some(198), {0}, 10, true));
      r.ok && r.dealed == 196 && r.off == ReplayedOff(ids)
  {
    hide ApplyAll, Handled, Between;
    var c := ExampleChain(ids);
    var logs := [Joins(ids)] + [Leaves(ids)];
    ExampleHistory(ids, 196);
    assert Between(c, 1, 196) == logs && ChunkEnd(1, 196) == 196;
    ExampleHandled(ids);
    ExampleReplay(ids);
    assert logs[..2] == logs;
    var r := ScanBlocks(c, {0}, ReplayedOff(ids), 196, 196, 7);
    assert r == PassResult(ReplayedOff(ids), 196, true, []);
  }

  // ---- The run ----

  lemma Extend(c: Blocks, start: nat, run: seq<World>, step: Step, w': World) returns (run': seq<World>)
    requires Execution(c, start, run) && Enabled(c, run[|run| - 1], step) && w' == Do(c, run[|run| - 1], step)
    ensures Execution(c, start, run') && run'[|run'| - 1] == w'
  {
    hide Enabled, Do, Initial;
    run' := run + [w'];
    forall i | 0 <= i < |run'| - 1 ensures Next(c, run'[i], run'[i + 1]) {
      if i < |run| - 1 {
        assert Next(c, run[i], run[i + 1]);
      }
    }
  }

  const FIRST: World := World(
    198, Repairing, EMPTY, 0, 0, EXAMPLE_OPS, EXAMPLE_LIMIT, [], EMPTY, 0, 0, 0, 0, [Staked], [])

  function Replayed(ids: seq<nat>, pc: Pc): World {
    FIRST.(off := ReplayedOff(ids), dealed := 196, base := ReplayedOff(ids), baseDealed := 196, reach := 196,
           view := [Staked], pc := pc)
  }

  lemma RunToStatuses(ids: seq<nat>) returns (run: seq<World>)
    requires Ascending(ids)
    ensures Execution(ExampleChain(ids), 0, run) && run[|run| - 1] == Replayed(ids, Statuses)
  {
    hide RunPass;
    var c := ExampleChain(ids);
    run := [FIRST];
    assert PendingCount([Staked]) == 0 by {
      assert [Staked][..0] == [];
      assert PendingCount([]) == 0;
    }
    assert Execution(c, 0, run);
    assert [] + [Staked][0..1] == [Staked];
    run := Extend(c, 0, run, RepairKeys(1), FIRST.(view := [Staked], pc := Syncing));
    ExamplePass(ids);
    assert Below(1) == {0} by {
      assert Below(0) == {};
    }
    run := Extend(c, 0, run, SyncPass(10, true), Replayed(ids, Statuses));
  }

  /** Every operator answers with what the table has. */
  const ANSWERS: T.Answers := T.Answers(
    Some(EXAMPLE_LIMIT), map[], map[], map[],
    map id | 1 <= id <= 8 :: id := true, map id | 1 <= id <= 8 :: id := T.OnChain(ExampleFee(id), 0), 1)

  lemma TableStays(ids: seq<nat>)
    ensures T.Updated(EXAMPLE_OPS, EXAMPLE_OPS, EXAMPLE_LIMIT, ReplayedOff(ids).clusters, ANSWERS)
  {
    assert T.UsedBy(ReplayedOff(ids).clusters) == {};
  }

  lemma RunToOnboarding(ids: seq<nat>) returns (run: seq<World>)
    requires Ascending(ids)
    ensures Execution(ExampleChain(ids), 0, run) && run[|run| - 1] == Replayed(ids, Onboarding)
  {
    hide RunPass, Selects, Execution, T.Updated;
    var c := ExampleChain(ids);
    run := RunToStatuses(ids);
    assert [Staked][..1] + [Staked][1..] == [Staked];
    run := Extend(c, 0, run, RefreshStatuses(1), Replayed(ids, Operating));
    TableStays(ids);
    run := Extend(c, 0, run, RefreshOperators(ANSWERS, EXAMPLE_OPS, EXAMPLE_LIMIT, true), Replayed(ids, Staking));
    run := Extend(c, 0, run, Skip, Replayed(ids, Depositing));
    run := Extend(c, 0, run, Skip, Replayed(ids, FeeRecipient));
    run := Extend(c, 0, run, Skip, Replayed(ids, Withdrawing));
    run := Extend(c, 0, run, Skip, Replayed(ids, ReactiveGate));
    run := Extend(c, 0, run, Skip, Replayed(ids, Onboarding));
  }

  /** The selection that overwrites the cluster is possible, and by `UsedClusterIsOverwritten` the only one. */
  lemma ExampleSelects(ids: seq<nat>)
    requires ids == [1, 2, 3, 4]
    ensures Selects(map[ClusterKey(ids) := UsedCluster(ids)], EXAMPLE_OPS, EXAMPLE_LIMIT,
                    map[ClusterKey(ids) := NewCluster(ids)], Some(ClusterKey(ids)))
  {
    ExampleNewIds(ids);
    OnlyUsed(ids, EXAMPLE_OPS, EXAMPLE_LIMIT);
  }

  lemma OnlyUsed(ids: seq<nat>, ops: Operators, limit: nat)
    requires Ascending(ids) && PreSelects(ops, limit)
    requires NewIds(map[ClusterKey(ids) := UsedCluster(ids)], ops, limit) == Some(ids)
    ensures Selects(map[ClusterKey(ids) := UsedCluster(ids)], ops, limit,
                    map[ClusterKey(ids) := NewCluster(ids)], Some(ClusterKey(ids)))
  {
    hide Selects, PreSelects;
    var clusters := map[ClusterKey(ids) := UsedCluster(ids)];
    assert clusters[ClusterKey(ids) := NewCluster(ids)] == map[ClusterKey(ids) := NewCluster(ids)];
    OnlyClusterCanBeSelected(clusters, ids, ops, limit);
  }

  /** The world after the selection, with validator 0 about to be registered in the fresh cluster. */
  function Chosen(ids: seq<nat>): World {
    var off := ReplayedOff(ids).(clusters := map[ClusterKey(ids) := NewCluster(ids)]);
    Replayed(ids, Registering(0, ClusterKey(ids))).(off := off, base := off)
  }

  lemma RunToRegistering(ids: seq<nat>) returns (run: seq<World>)
    requires ids == [1, 2, 3, 4]
    ensures Execution(ExampleChain(ids), 0, run) && run[|run| - 1] == Chosen(ids)
  {
    hide RunPass, Selects, Execution, ClusterKey;
    run := RunToOnboarding(ids);
    ExampleSelects(ids);
    var key := ClusterKey(ids);
    run := Extend(ExampleChain(ids), 0, run, Select(0, map[key := NewCluster(ids)], Some(key)), Chosen(ids));
  }

  lemma ExampleLastSnapshot(ids: seq<nat>)
    ensures LastSnapshot(History(ExampleChain(ids), 0, 196), ClusterKey(ids)) == Snapshot(0, 7, 9, true, 100)
  {
    hide ClusterKey;
    ExampleHistory(ids, 196);
    SnocParts([Joins(ids)], Leaves(ids));
  }

  /** The run ends in the registration of validator 0 with the fresh snapshot, while the network's is another. */
  lemma RegistrationWithStaleSnapshot(ids: seq<nat>) returns (run: seq<World>)
    requires ids == [1, 2, 3, 4]
    ensures LawfulChain(ExampleChain(ids), 0) && Execution(ExampleChain(ids), 0, run)
    ensures var sent := run[|run| - 1].sent;
      && |sent| == 1 && sent[0].kind == Register(0) && sent[0].snapshot == FRESH
      && LastSnapshot(Read(ExampleChain(ids), 0, sent[0]), sent[0].key) == Snapshot(0, 7, 9, true, 100)
  {
    hide RunPass, Selects, Execution, ClusterKey, LawfulChain, LastSnapshot, Between;
    ExampleIsLawful(ids);
    run := RunToRegistering(ids);
    var key := ClusterKey(ids);
    var tx := Submitted(Chosen(ids), Register(0), key, None);
    run := Extend(ExampleChain(ids), 0, run, ClusterTx(Register(0), key, None),
                  Chosen(ids).(sent := [tx], pc := Repairing));
    ExampleLastSnapshot(ids);
  }
}
