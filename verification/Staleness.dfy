/** Where a stale snapshot comes from: the only step that can make the stored cluster fall behind the history read is a
    selection that overwrites it, and only the cluster's next log repairs it. */
module Staleness {
  import opened Wrappers
  import opened Sorting
  import opened ClusterKeys
  import opened Chain
  import opened Replay
  import opened Registry
  import opened Placement
  import opened Rounds
  import opened RoundsProof
  import T = OperatorTable

  /** The stored cluster does not carry the block of its last log. */
  ghost predicate Behind(s: Off, logs: seq<Log>, key: string) {
    key in s.clusters && s.clusters[key].latestUpdate != LastBlock(logs, key)
  }

  // ---- What replay does to it ----

  lemma BehindAfterLog(s: Off, logs: seq<Log>, log: Log, key: string)
    requires Agrees(s, logs) && WellFormed(logs + [log])
    ensures LastBlock(logs, key) <= LastBlock(logs + [log], key)
    ensures Behind(Apply(s, log), logs + [log], key) <==>
      Behind(s, logs, key) && LastBlock(logs + [log], key) == LastBlock(logs, key)
  {
    SnocParts(logs, log);
    if On(log, key) {
      FoundIsOpen(s, logs, log);
    } else {
      OtherClusterKept(s, logs, log, key);
      if log.ClusterLog? {
        SortOfSorted(log.ids);
      }
    }
  }

  lemma {:induction false} WellFormedPrefix(logs: seq<Log>, more: seq<Log>)
    requires WellFormed(logs + more)
    ensures WellFormed(logs)
  {
    if more == [] {
      assert logs + more == logs;
    } else {
      assert Init(logs + more) == logs + Init(more);
      WellFormedPrefix(logs, Init(more));
    }
  }

  lemma {:induction false} BehindAfterAll(s: Off, logs: seq<Log>, more: seq<Log>, key: string)
    requires Agrees(s, logs) && WellFormed(logs + more)
    ensures LastBlock(logs, key) <= LastBlock(logs + more, key)
    ensures Behind(ApplyAll(s, more), logs + more, key) <==>
      Behind(s, logs, key) && LastBlock(logs + more, key) == LastBlock(logs, key)
  {
    hide Agrees, Behind, WellFormed, LastBlock, Apply;
    if more == [] {
      assert logs + more == logs;
      assert ApplyAll(s, more) == s;
    } else {
      var init, last := Init(more), Last(more);
      assert logs + more == (logs + init) + [last];
      WellFormedPrefix(logs + init, [last]);
      BehindAfterAll(s, logs, init, key);
      AgreesAll(s, logs, init);
      BehindAfterLog(ApplyAll(s, init), logs + init, last, key);
    }
  }

  // ---- What a selection does to it ----

  ghost predicate SelectStep(c: Blocks, w: World, w': World) {
    exists step: Step :: step.Select? && Enabled(c, w, step) && w' == Do(c, w, step)
  }

  /** A selection has replaced the used cluster by a fresh one, in the way `OverwritesExactly` describes. */
  ghost predicate Overwrote(c: Blocks, w: World, w': World, key: string) {
    && SelectStep(c, w, w') && key in w.off.clusters && key in w'.off.clusters
    && var ids := w.off.clusters[key].operatorIds;
       && Displaces(w.off.clusters, w.ops, w.limit, ids)
       && w.off.clusters[key] != NewCluster(ids) && w'.off.clusters[key] == NewCluster(ids)
  }

  lemma UsedHasLog(s: Off, logs: seq<Log>, key: string)
    requires Agrees(s, logs) && WellFormed(logs) && key in s.clusters && s.clusters[key].managing == {}
    requires s.clusters[key] != NewCluster(s.clusters[key].operatorIds)
    ensures 0 < LastBlock(logs, key)
  {
    assert ClusterSynced(logs, key, s.clusters[key]);
    if LastBlock(logs, key) == 0 {
      NoLogNoSnapshot(logs, key);
    }
  }

  /** A selection leaves a cluster behind exactly when it was so before, or is overwritten now. */
  lemma BehindAfterSelection(
    s: Off, logs: seq<Log>, ops: Operators, limit: nat, clusters: Clusters, r: Option<string>, key: string)
    requires Agrees(s, logs) && WellFormed(logs) && Keyed(s.clusters) && Selects(s.clusters, ops, limit, clusters, r)
    ensures Behind(s.(clusters := clusters), logs, key) <==>
      || Behind(s, logs, key)
      || (key in s.clusters && key in clusters && var ids := s.clusters[key].operatorIds;
          && Displaces(s.clusters, ops, limit, ids)
          && s.clusters[key] != NewCluster(ids) && clusters[key] == NewCluster(ids))
  {
    hide Displaces, Selects;
    PlacementKeepsValidators(s.clusters, ops, limit, clusters, r);
    if key in s.clusters {
      if clusters[key] != s.clusters[key] {
        assert clusters[key] == NewCluster(clusters[key].operatorIds);
        ClusterKeyInjective(clusters[key].operatorIds, s.clusters[key].operatorIds);
        OverwritesExactly(s.clusters, ops, limit, clusters, r, key);
        UsedHasLog(s, logs, key);
      }
    } else {
      assert ClustersSynced(s, logs);
      assert KeyUnused(logs, key);
    }
  }

  // ---- One step of the machine ----

  ghost predicate Stale(c: Blocks, start: nat, w: World, key: string) {
    Behind(w.base, History(c, start, w.baseDealed), key)
  }

  function Seen(c: Blocks, start: nat, w: World, key: string): nat {
    LastBlock(History(c, start, w.baseDealed), key)
  }

  lemma StaleAfterPass(c: Blocks, start: nat, w: World, step: Step, key: string)
    requires LawfulChain(c, start) && SyncInv(c, start, w) && Enabled(c, w, step) && step.SyncPass?
    ensures var w' := Do(c, w, step);
      && Seen(c, start, w, key) <= Seen(c, start, w', key)
      && (Stale(c, start, w', key) <==> Stale(c, start, w, key) && Seen(c, start, w', key) == Seen(c, start, w, key))
  {
    hide RunPass, Behind, Agrees, Recovers, LastBlock, ApplyAll, Between, WellFormed;
    assert Agrees(w.base, History(c, start, w.baseDealed));
    hide SyncInv;
    var input := PassInput(Some(w.head), Known(w), step.fuel, step.balancesOk);
    var r := RunPass(c, w.off, w.dealed, input);
    if r.ok {
      PassReadsOn(c, start, w, input);
      BetweenSplit(c, start + 1, w.baseDealed, r.dealed);
      assert WellFormed(History(c, start, r.dealed));
      BehindAfterAll(w.base, History(c, start, w.baseDealed), Between(c, w.baseDealed + 1, r.dealed), key);
    }
  }

  lemma StaleAfterSelect(c: Blocks, start: nat, w: World, step: Step, key: string)
    requires LawfulChain(c, start) && SyncInv(c, start, w) && Enabled(c, w, step) && step.Select?
    ensures var w' := Do(c, w, step);
      && Seen(c, start, w', key) == Seen(c, start, w, key)
      && (Stale(c, start, w', key) <==> Stale(c, start, w, key) || Overwrote(c, w, w', key))
  {
    hide Selects, Displaces, Agrees, Behind, Recovers;
    assert SelectStep(c, w, Do(c, w, step));
    assert WellFormed(History(c, start, w.dealed));
    AgreesAfterSelect(w.off, History(c, start, w.dealed), w.ops, w.limit, step.clusters, step.choice);
    BehindAfterSelection(w.off, History(c, start, w.dealed), w.ops, w.limit, step.clusters, step.choice, key);
  }

  lemma StaleAfterOther(c: Blocks, start: nat, w: World, step: Step, key: string)
    requires SyncInv(c, start, w) && Enabled(c, w, step) && !step.SyncPass? && !step.Select?
    ensures var w' := Do(c, w, step);
      && Seen(c, start, w', key) == Seen(c, start, w, key)
      && (Stale(c, start, w', key) <==> Stale(c, start, w, key))
  {
    hide LastBlock, Between, MayAct, Emits, Batch, Chosen, T.Updated, T.PartlyUpdated, Agrees, Recovers;
    var w' := Do(c, w, step);
    assert w'.base.clusters == w.base.clusters && w'.baseDealed == w.baseDealed;
  }

  /** A step leaves a cluster stale exactly when it was and no log of it has been read, or when it overwrites it. */
  lemma StaleStep(c: Blocks, start: nat, w: World, w': World, key: string)
    requires LawfulChain(c, start) && SyncInv(c, start, w) && Next(c, w, w')
    ensures Seen(c, start, w, key) <= Seen(c, start, w', key)
    ensures Stale(c, start, w', key) <==>
      (Stale(c, start, w, key) && Seen(c, start, w', key) == Seen(c, start, w, key)) || Overwrote(c, w, w', key)
  {
    hide Enabled, Do, LawfulChain, SyncInv, Stale, Seen, Displaces;
    if SelectStep(c, w, w') {
      var step: Step :| step.Select? && Enabled(c, w, step) && w' == Do(c, w, step);
      StaleAfterSelect(c, start, w, step, key);
    } else {
      var step: Step :| Enabled(c, w, step) && w' == Do(c, w, step);
      if step.SyncPass? {
        StaleAfterPass(c, start, w, step, key);
      } else {
        StaleAfterOther(c, start, w, step, key);
      }
    }
  }

  // ---- Whole runs ----

  /** Step `m` overwrote the cluster, and what had been read of it then is all that has been read of it since. */
  ghost predicate OverwrittenAt(c: Blocks, start: nat, run: seq<World>, m: nat, key: string, seen: nat) {
    && m < |run| - 1 && Overwrote(c, run[m], run[m + 1], key) && Seen(c, start, run[m], key) == seen
  }

  lemma {:induction false} SeenRises(c: Blocks, start: nat, run: seq<World>, m: nat, i: nat, key: string)
    requires LawfulChain(c, start) && Execution(c, start, run) && m <= i < |run|
    ensures Seen(c, start, run[m], key) <= Seen(c, start, run[i], key)
    decreases i
  {
    hide SyncInv, TxInv, PoolInv, TableInv, Overwrote, Stale, Seen, Next;
    if m < i {
      SeenRises(c, start, run, m, i - 1, key);
      ReachableInv(c, start, run, i - 1);
      assert Next(c, run[i - 1], run[i - 1 + 1]);
      StaleStep(c, start, run[i - 1], run[i], key);
    }
  }

  /** A cluster is stale exactly when an earlier step has overwritten it and no log of it has been read since. */
  lemma {:induction false} StaleExactly(c: Blocks, start: nat, run: seq<World>, i: nat, key: string)
    requires LawfulChain(c, start) && Execution(c, start, run) && i < |run|
    ensures Stale(c, start, run[i], key) <==>
      exists m: nat :: m < i && OverwrittenAt(c, start, run, m, key, Seen(c, start, run[i], key))
  {
    hide SyncInv, TxInv, PoolInv, TableInv, Overwrote, Seen, Next;
    if i == 0 {
      assert !Stale(c, start, run[0], key);
    } else {
      hide Stale;
      var before, now := run[i - 1], run[i];
      StaleExactly(c, start, run, i - 1, key);
      ReachableInv(c, start, run, i - 1);
      assert Next(c, run[i - 1], run[i - 1 + 1]);
      StaleStep(c, start, before, now, key);
      if Stale(c, start, now, key) {
        if Overwrote(c, before, now, key) {
          OverwriteReadsNothing(c, start, before, now, key);
          assert OverwrittenAt(c, start, run, i - 1, key, Seen(c, start, now, key));
        } else {
          var m: nat :| m < i - 1 && OverwrittenAt(c, start, run, m, key, Seen(c, start, before, key));
          assert OverwrittenAt(c, start, run, m, key, Seen(c, start, now, key));
        }
      }
      if m: nat :| m < i && OverwrittenAt(c, start, run, m, key, Seen(c, start, now, key)) {
        if m < i - 1 {
          SeenRises(c, start, run, m, i - 1, key);
          assert OverwrittenAt(c, start, run, m, key, Seen(c, start, before, key));
        }
      }
    }
  }

  lemma OverwriteReadsNothing(c: Blocks, start: nat, w: World, w': World, key: string)
    requires Overwrote(c, w, w', key)
    ensures Seen(c, start, w', key) == Seen(c, start, w, key)
  {
    hide Selects, Displaces;
  }

  // ---- The transactions sent ----

  /** The transaction is the `k`-th and was submitted by step `n`. */
  ghost predicate SentBy(run: seq<World>, n: nat, k: nat, tx: Tx) {
    && n < |run| - 1 && |run[n].sent| == k && Clean(run[n].pc) && run[n + 1].sent == run[n].sent + [tx]
    && tx.key in run[n].off.clusters && tx.dealed == run[n].dealed
    && tx.counter == run[n].off.clusters[tx.key].latestUpdate
  }

  lemma StepSends(c: Blocks, w: World, w': World)
    requires Next(c, w, w')
    ensures w'.sent == w.sent || (Clean(w.pc) && exists kind, key, mined ::
      key in w.off.clusters && w'.sent == w.sent + [Submitted(w, kind, key, mined)])
  {
    hide Enabled, Do;
    var step: Step :| Enabled(c, w, step) && w' == Do(c, w, step);
    if step.ClusterTx? {
      ClusterTxSends(c, w, step);
      assert w'.sent == w.sent + [Submitted(w, step.kind, step.key, step.mined)];
    } else {
      OthersSendNothing(c, w, step);
    }
  }

  lemma ClusterTxSends(c: Blocks, w: World, step: Step)
    requires Enabled(c, w, step) && step.ClusterTx?
    ensures Clean(w.pc) && step.key in w.off.clusters
    ensures Do(c, w, step).sent == w.sent + [Submitted(w, step.kind, step.key, step.mined)]
  {
    hide Emits;
    MayActIsClean(w, step.kind, step.key);
  }

  lemma OthersSendNothing(c: Blocks, w: World, step: Step)
    requires Enabled(c, w, step) && !step.ClusterTx?
    ensures Do(c, w, step).sent == w.sent
  {
    hide Selects, RunPass, MayAct, Emits, Batch, Chosen, T.Updated, T.PartlyUpdated;
  }

  lemma MayActIsClean(w: World, kind: Action, key: string)
    requires MayAct(w, kind, key)
    ensures Clean(w.pc) && key in w.off.clusters
  {
  }

  lemma {:induction false} SentEarlier(c: Blocks, start: nat, run: seq<World>, n: nat, i: nat)
    requires Execution(c, start, run) && n <= i < |run|
    ensures run[n].sent <= run[i].sent
    decreases i
  {
    hide Initial, Next;
    if n < i {
      SentEarlier(c, start, run, n, i - 1);
      assert Next(c, run[i - 1], run[i - 1 + 1]);
      StepSends(c, run[i - 1], run[i]);
    }
  }

  lemma {:induction false} SenderOf(c: Blocks, start: nat, run: seq<World>, i: nat, k: nat) returns (n: nat)
    requires Execution(c, start, run) && i < |run| && k < |run[i].sent|
    ensures n < i && SentBy(run, n, k, run[i].sent[k])
  {
    hide Next;
    assert Next(c, run[i - 1], run[i - 1 + 1]);
    StepSends(c, run[i - 1], run[i]);
    if k < |run[i - 1].sent| {
      n := SenderOf(c, start, run, i - 1, k);
    } else {
      n := i - 1;
    }
  }

  /** Exactly when a transaction carries a stale snapshot. In every run it does if and only if the cluster's true
      snapshot, as read by then, is not the fresh one, and before the transaction a selection has overwritten the
      cluster under the condition of `OverwritesExactly`, with no log of the cluster read in between. */
  lemma StaleExactlyAfterOverwrite(c: Blocks, start: nat, run: seq<World>, i: nat, k: nat)
    requires LawfulChain(c, start) && Execution(c, start, run) && i < |run| && k < |run[i].sent|
    ensures var tx := run[i].sent[k];
      var read := Read(c, start, tx);
      tx.snapshot != LastSnapshot(read, tx.key) <==>
        && LastSnapshot(read, tx.key) != FRESH
        && exists m: nat :: m < i && |run[m + 1].sent| <= k
             && OverwrittenAt(c, start, run, m, tx.key, LastBlock(read, tx.key))
  {
    hide OverwrittenAt, Seen, Stale, SyncInv, TxInv, PoolInv, TableInv, Execution, LawfulChain;
    var tx := run[i].sent[k];
    var n := SenderOf(c, start, run, i, k);
    ReachableInv(c, start, run, n);
    SenderIsStale(c, start, run, n, k, tx);
    StaleExactly(c, start, run, n, tx.key);
    NoTransactionOnStaleState(c, start, run, i, k);
    var seen := LastBlock(Read(c, start, tx), tx.key);
    if m: nat :| m < n && OverwrittenAt(c, start, run, m, tx.key, seen) {
      SentEarlier(c, start, run, m + 1, n);
    }
    if m: nat :| m < i && |run[m + 1].sent| <= k && OverwrittenAt(c, start, run, m, tx.key, seen) {
      if n < m + 1 {
        SentEarlier(c, start, run, n + 1, m + 1);
      }
    }
  }

  lemma SenderIsStale(c: Blocks, start: nat, run: seq<World>, n: nat, k: nat, tx: Tx)
    requires SentBy(run, n, k, tx) && SyncInv(c, start, run[n])
    ensures Seen(c, start, run[n], tx.key) == LastBlock(Read(c, start, tx), tx.key)
    ensures Stale(c, start, run[n], tx.key) <==> tx.counter != LastBlock(Read(c, start, tx), tx.key)
  {
  }
}
