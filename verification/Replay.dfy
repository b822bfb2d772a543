/** Replaying chain events into the off-chain copy of the clusters: what one log does, what a pass over the blocks
    does, and why passes that fail half way do no harm. */
module Replay {
  import opened Wrappers
  import opened Sorting
  import opened ClusterKeys
  import opened Chain

  datatype Cluster = Cluster(
    operatorIds: seq<nat>,
    latestCluster: Snapshot,
    managing: set<nat>,
    latestUpdate: nat,
    latestAdded: nat,
    latestRemoved: nat)

  /** Everything replay writes. `clusterKeys` and `removedBlocks` are the two validator fields it sets; a validator
      that is absent from them has the zero value. */
  datatype Off = Off(
    clusters: map<string, Cluster>,
    nonce: nat,
    feeRecipient: nat,
    clusterKeys: map<nat, string>,
    removedBlocks: map<nat, nat>)

  function RemovedBlock(s: Off, v: nat): nat {
    if v in s.removedBlocks then s.removedBlocks[v] else 0
  }

  /** The key under which `updateCluster` stores a cluster: that of the ids in ascending order. */
  function StoredKey(ids: seq<nat>): string { ClusterKey(SortIds(ids)) }

  /** The cluster found under the key, or a new one holding the log's snapshot. */
  function Found(s: Off, ids: seq<nat>, snapshot: Snapshot): Cluster {
    var key := StoredKey(ids);
    if key in s.clusters then s.clusters[key] else Cluster(SortIds(ids), snapshot, {}, 0, 0, 0)
  }

  /** The three guarded writes to a cluster. */
  function Touch(c: Cluster, snapshot: Snapshot, block: nat, kind: Kind): Cluster {
    var c1 := if c.latestUpdate < block then c.(latestUpdate := block, latestCluster := snapshot) else c;
    if kind.ValidatorAdded? && c1.latestAdded < block then
      c1.(latestAdded := block, managing := c1.managing + {kind.val})
    else if kind.ValidatorRemoved? && c1.latestRemoved < block then
      c1.(latestRemoved := block, managing := c1.managing - {kind.val})
    else c1
  }

  function UpdateCluster(s: Off, ids: seq<nat>, snapshot: Snapshot, block: nat, kind: Kind): Off {
    var c := Found(s, ids, snapshot);
    s.(clusters := s.clusters[StoredKey(ids) := Touch(c, snapshot, block, kind)],
       nonce := if kind.ValidatorAdded? && c.latestAdded < block then s.nonce + 1 else s.nonce)
  }

  /** The writes outside `updateCluster`: the cluster key (unguarded), the removed block and the fee recipient. */
  function WriteKey(m: map<nat, string>, log: Log): map<nat, string> {
    if !log.removed && log.ClusterLog? && log.kind.ValidatorAdded? then m[log.kind.val := ClusterKey(log.ids)] else m
  }

  function WriteRemoved(s: Off, log: Log): map<nat, nat> {
    if !log.removed && log.ClusterLog? && log.kind.ValidatorRemoved? && RemovedBlock(s, log.kind.val) < log.block then
      s.removedBlocks[log.kind.val := log.block]
    else s.removedBlocks
  }

  function WriteFee(fee: nat, log: Log): nat {
    if !log.removed && log.FeeRecipientLog? then log.recipient else fee
  }

  function Apply(s: Off, log: Log): Off {
    var s1 := s.(clusterKeys := WriteKey(s.clusterKeys, log),
                 removedBlocks := WriteRemoved(s, log),
                 feeRecipient := WriteFee(s.feeRecipient, log));
    if log.removed || log.FeeRecipientLog? then s1
    else UpdateCluster(s1, log.ids, log.snapshot, log.block, log.kind)
  }

  function ApplyAll(s: Off, logs: seq<Log>): Off {
    if logs == [] then s else Apply(ApplyAll(s, logs[..|logs| - 1]), logs[|logs| - 1])
  }

  lemma {:induction false} ApplyAllConcat(s: Off, a: seq<Log>, b: seq<Log>)
    ensures ApplyAll(s, a + b) == ApplyAll(ApplyAll(s, a), b)
  {
    if b == [] {
      assert a + b == a;
    } else {
      assert (a + b)[..|a + b| - 1] == a + b[..|b| - 1];
      ApplyAllConcat(s, a, b[..|b| - 1]);
    }
  }

  // ---- Replaying the same logs twice ----

  /** The guards of the log's handler are already closed: each counter has reached its block. */
  ghost predicate Absorbed(s: Off, log: Log) {
    log.removed || log.FeeRecipientLog? ||
    (&& StoredKey(log.ids) in s.clusters
     && Closed(s.clusters[StoredKey(log.ids)], log.block, log.kind)
     && (log.kind.ValidatorRemoved? ==> log.block <= RemovedBlock(s, log.kind.val)))
  }

  ghost predicate Closed(c: Cluster, block: nat, kind: Kind) {
    && block <= c.latestUpdate
    && (kind.ValidatorAdded? ==> block <= c.latestAdded)
    && (kind.ValidatorRemoved? ==> block <= c.latestRemoved)
  }

  ghost predicate AllAbsorbed(s: Off, logs: seq<Log>) {
    forall log :: log in logs ==> Absorbed(s, log)
  }

  function WriteKeys(m: map<nat, string>, logs: seq<Log>): map<nat, string> {
    if logs == [] then m else WriteKey(WriteKeys(m, logs[..|logs| - 1]), logs[|logs| - 1])
  }

  function WriteFees(fee: nat, logs: seq<Log>): nat {
    if logs == [] then fee else WriteFee(WriteFees(fee, logs[..|logs| - 1]), logs[|logs| - 1])
  }

  lemma AbsorbedByApply(s: Off, log: Log)
    ensures Absorbed(Apply(s, log), log)
    ensures Apply(s, log).clusterKeys == WriteKey(s.clusterKeys, log)
    ensures Apply(s, log).feeRecipient == WriteFee(s.feeRecipient, log)
  {
  }

  lemma AbsorbedStays(s: Off, log: Log, next: Log)
    requires Absorbed(s, log)
    ensures Absorbed(Apply(s, next), log)
  {
  }

  lemma AbsorbedIsSkipped(s: Off, log: Log)
    requires Absorbed(s, log)
    ensures Apply(s, log) ==
      s.(clusterKeys := WriteKey(s.clusterKeys, log), feeRecipient := WriteFee(s.feeRecipient, log))
  {
    if !log.removed && log.ClusterLog? {
      var key := StoredKey(log.ids);
      assert s.clusters[key := s.clusters[key]] == s.clusters;
    }
  }

  lemma {:induction false} ApplyAllAbsorbs(s: Off, logs: seq<Log>)
    ensures AllAbsorbed(ApplyAll(s, logs), logs)
    ensures ApplyAll(s, logs).clusterKeys == WriteKeys(s.clusterKeys, logs)
    ensures ApplyAll(s, logs).feeRecipient == WriteFees(s.feeRecipient, logs)
  {
    if logs != [] {
      var init, last := logs[..|logs| - 1], logs[|logs| - 1];
      ApplyAllAbsorbs(s, init);
      var t := ApplyAll(s, init);
      AbsorbedByApply(t, last);
      forall log | log in logs ensures Absorbed(Apply(t, last), log) {
        if log != last {
          assert log in init;
          AbsorbedStays(t, log, last);
        }
      }
    }
  }

  lemma {:induction false} AbsorbedAreSkipped(s: Off, logs: seq<Log>)
    requires AllAbsorbed(s, logs)
    ensures ApplyAll(s, logs) ==
      s.(clusterKeys := WriteKeys(s.clusterKeys, logs), feeRecipient := WriteFees(s.feeRecipient, logs))
  {
    if logs != [] {
      var init, last := logs[..|logs| - 1], logs[|logs| - 1];
      AbsorbedAreSkipped(s, init);
      assert Absorbed(s, last);
      assert Absorbed(ApplyAll(s, init), last);
      AbsorbedIsSkipped(ApplyAll(s, init), last);
    }
  }

  lemma {:induction false} WriteKeysOverlay(m: map<nat, string>, logs: seq<Log>)
    ensures WriteKeys(m, logs) == m + WriteKeys(map[], logs)
  {
    if logs != [] {
      WriteKeysOverlay(m, logs[..|logs| - 1]);
    }
  }

  lemma {:induction false} WriteFeesTwice(fee: nat, logs: seq<Log>, again: nat)
    ensures WriteFees(fee, logs) == fee || WriteFees(again, logs) == WriteFees(fee, logs)
  {
    if logs != [] {
      WriteFeesTwice(fee, logs[..|logs| - 1], again);
    }
  }

  /** Replaying logs that have just been replayed changes nothing, from any state and in any order of blocks. */
  lemma ReplayTwice(s: Off, logs: seq<Log>)
    ensures ApplyAll(ApplyAll(s, logs), logs) == ApplyAll(s, logs)
  {
    var t := ApplyAll(s, logs);
    ApplyAllAbsorbs(s, logs);
    AbsorbedAreSkipped(t, logs);
    WriteKeysOverlay(s.clusterKeys, logs);
    WriteKeysOverlay(t.clusterKeys, logs);
    WriteFeesTwice(s.feeRecipient, logs, t.feeRecipient);
  }

  /** A pass that broke off after `done` logs costs nothing: going over the whole range again ends where an
      uninterrupted pass would have. */
  lemma ReplayAfterAbort(s: Off, logs: seq<Log>, done: nat)
    requires done <= |logs|
    ensures ApplyAll(ApplyAll(s, logs[..done]), logs) == ApplyAll(s, logs)
  {
    var p, q := logs[..done], logs[done..];
    assert logs == p + q;
    ReplayTwice(s, p);
    ApplyAllConcat(ApplyAll(s, p), p, q);
    ApplyAllConcat(s, p, q);
  }

  // ---- One pass over the blocks ----

  const FETCH_EVENT_BLOCK_LIMIT: nat := 4900 * 7
  const FETCH_ETH1_WAIT_BLOCK_NUMBERS: nat := 2

  /** The last block a pass may read when the node reports `head`. */
  function Target(head: nat): nat {
    if head > FETCH_ETH1_WAIT_BLOCK_NUMBERS then head - FETCH_ETH1_WAIT_BLOCK_NUMBERS else head
  }

  function ChunkEnd(start: nat, end: nat): nat {
    if end < start + FETCH_EVENT_BLOCK_LIMIT then end else start + FETCH_EVENT_BLOCK_LIMIT - 1
  }

  datatype Chunk = Chunk(start: nat, end: nat)

  /** How far the handler loop gets: it stops at the first log of an unknown validator, or when the oracle of
      failing calls says so. */
  function Handled(logs: seq<Log>, known: set<nat>, fuel: nat): (n: nat)
    ensures n <= |logs| && n <= fuel
  {
    if logs == [] || fuel == 0 then 0
    else if Unknown(logs[0], known) then 0
    else 1 + Handled(logs[1..], known, fuel - 1)
  }

  predicate Unknown(log: Log, known: set<nat>) {
    log.ClusterLog? && !log.removed &&
    ((log.kind.ValidatorAdded? || log.kind.ValidatorRemoved?) && log.kind.val !in known)
  }

  /** What the environment decides about one pass: the head it reads (or a failing call), the validators known at
      that time, after how many further calls one fails, and whether the final balance queries succeed. */
  datatype PassInput = PassInput(head: Option<nat>, known: set<nat>, fuel: nat, balancesOk: bool)

  datatype PassResult = PassResult(off: Off, dealed: nat, ok: bool, chunks: seq<Chunk>)

  function ScanBlocks(c: Blocks, known: set<nat>, s: Off, dealed: nat, end: nat, fuel: nat): PassResult
    decreases if dealed < end then end - dealed else 0
  {
    if end <= dealed then PassResult(s, dealed, true, [])
    else if fuel == 0 then PassResult(s, dealed, false, [])
    else
      var start, subEnd := dealed + 1, ChunkEnd(dealed + 1, end);
      var logs := Between(c, start, subEnd);
      var n := Handled(logs, known, fuel - 1);
      var s' := ApplyAll(s, logs[..n]);
      if n < |logs| then PassResult(s', dealed, false, [])
      else
        var rest := ScanBlocks(c, known, s', subEnd, end, fuel - 1 - n);
        rest.(chunks := [Chunk(start, subEnd)] + rest.chunks)
  }

  function RunPass(c: Blocks, s: Off, dealed: nat, input: PassInput): PassResult {
    if input.head.None? || Target(input.head.value) <= dealed then
      PassResult(s, dealed, input.head.Some?, [])
    else
      var r := ScanBlocks(c, input.known, s, dealed, Target(input.head.value), input.fuel);
      r.(ok := r.ok && input.balancesOk)
  }

  // ---- Convergence ----

  /** From (s, d), reading on to any block at or beyond `reach` gives what reading from (s0, d0) gives. */
  ghost predicate Recovers(c: Blocks, s0: Off, d0: nat, s: Off, d: nat, reach: nat) {
    && d0 <= d
    && (forall b: nat :: reach <= b && d <= b ==> Meet(c, s0, d0, s, d, b))
  }

  ghost predicate Meet(c: Blocks, s0: Off, d0: nat, s: Off, d: nat, b: nat) {
    ApplyAll(s, Between(c, d + 1, b)) == ApplyAll(s0, Between(c, d0 + 1, b))
  }

  function Max(a: nat, b: nat): nat { if a < b then b else a }

  lemma RecoversAfterAbort(c: Blocks, s0: Off, d0: nat, s: Off, d: nat, reach: nat, subEnd: nat, n: nat)
    requires Recovers(c, s0, d0, s, d, reach) && d < subEnd && n <= |Between(c, d + 1, subEnd)|
    ensures Recovers(c, s0, d0, ApplyAll(s, Between(c, d + 1, subEnd)[..n]), d, Max(reach, subEnd))
  {
    var logs := Between(c, d + 1, subEnd);
    var t := ApplyAll(s, logs[..n]);
    forall b: nat | Max(reach, subEnd) <= b && d <= b
      ensures Meet(c, s0, d0, t, d, b)
    {
      assert Meet(c, s0, d0, s, d, b);
      BetweenSplit(c, d + 1, subEnd, b);
      var rest := Between(c, subEnd + 1, b);
      ReplayAfterAbort(s, logs, n);
      ApplyAllConcat(t, logs, rest);
      ApplyAllConcat(s, logs, rest);
    }
  }

  lemma RecoversAfterChunk(c: Blocks, s0: Off, d0: nat, s: Off, d: nat, reach: nat, subEnd: nat)
    requires Recovers(c, s0, d0, s, d, reach) && d < subEnd
    ensures Recovers(c, s0, d0, ApplyAll(s, Between(c, d + 1, subEnd)), subEnd, reach)
  {
    var logs := Between(c, d + 1, subEnd);
    forall b: nat | reach <= b && subEnd <= b
      ensures Meet(c, s0, d0, ApplyAll(s, logs), subEnd, b)
    {
      assert Meet(c, s0, d0, s, d, b);
      BetweenSplit(c, d + 1, subEnd, b);
      ApplyAllConcat(s, logs, Between(c, subEnd + 1, b));
    }
  }

  lemma {:induction false} ScanRecovers(
    c: Blocks, known: set<nat>, s0: Off, d0: nat, s: Off, d: nat, reach: nat, end: nat, fuel: nat)
    requires Recovers(c, s0, d0, s, d, reach)
    ensures var r := ScanBlocks(c, known, s, d, end, fuel);
      && d <= r.dealed <= Max(d, end) && (r.ok ==> r.dealed == Max(d, end))
      && Recovers(c, s0, d0, r.off, r.dealed, Max(reach, end))
    decreases if d < end then end - d else 0
  {
    if d < end && fuel > 0 {
      var subEnd := ChunkEnd(d + 1, end);
      var logs := Between(c, d + 1, subEnd);
      var n := Handled(logs, known, fuel - 1);
      if n < |logs| {
        RecoversAfterAbort(c, s0, d0, s, d, reach, subEnd, n);
      } else {
        assert logs[..n] == logs;
        RecoversAfterChunk(c, s0, d0, s, d, reach, subEnd);
        ScanRecovers(c, known, s0, d0, ApplyAll(s, logs), subEnd, reach, end, fuel - 1 - n);
      }
    }
  }

  lemma PassRecovers(c: Blocks, s0: Off, d0: nat, s: Off, d: nat, reach: nat, input: PassInput)
    requires Recovers(c, s0, d0, s, d, reach)
    ensures var r := RunPass(c, s, d, input);
      && d <= r.dealed
      && Recovers(c, s0, d0, r.off, r.dealed,
                  if input.head.Some? then Max(reach, Target(input.head.value)) else reach)
      && (r.ok ==> input.head.Some? && r.dealed == Max(d, Target(input.head.value)))
  {
    if input.head.Some? {
      ScanRecovers(c, input.known, s0, d0, s, d, reach, Target(input.head.value), input.fuel);
    }
  }

  lemma RecoversStart(c: Blocks, s: Off, d: nat)
    ensures Recovers(c, s, d, s, d, d)
  {
  }

  /** Once the reach itself has been read, nothing of the failures is left. */
  lemma RecoversAtReach(c: Blocks, s0: Off, d0: nat, s: Off, d: nat, reach: nat)
    requires Recovers(c, s0, d0, s, d, reach) && reach <= d
    ensures s == ApplyAll(s0, Between(c, d0 + 1, d))
  {
    assert Meet(c, s0, d0, s, d, d);
    assert Between(c, d + 1, d) == [];
    assert ApplyAll(s, []) == s;
  }

  function RunPasses(c: Blocks, s: Off, dealed: nat, inputs: seq<PassInput>): PassResult {
    if inputs == [] then PassResult(s, dealed, true, [])
    else
      var r := RunPasses(c, s, dealed, inputs[..|inputs| - 1]);
      var r' := RunPass(c, r.off, r.dealed, inputs[|inputs| - 1]);
      r'.(chunks := r.chunks + r'.chunks)
  }

  ghost predicate WithinReach(inputs: seq<PassInput>, reach: nat) {
    forall i :: 0 <= i < |inputs| && inputs[i].head.Some? ==> Target(inputs[i].head.value) <= reach
  }

  lemma {:induction false} PassesRecover(c: Blocks, s: Off, d: nat, inputs: seq<PassInput>, reach: nat)
    requires WithinReach(inputs, reach) && d <= reach
    ensures var r := RunPasses(c, s, d, inputs); d <= r.dealed && Recovers(c, s, d, r.off, r.dealed, reach)
  {
    if inputs == [] {
      RecoversStart(c, s, d);
    } else {
      var init := inputs[..|inputs| - 1];
      assert WithinReach(init, reach);
      PassesRecover(c, s, d, init, reach);
      var r := RunPasses(c, s, d, init);
      PassRecovers(c, s, d, r.off, r.dealed, reach, inputs[|inputs| - 1]);
    }
  }

  /** Replay convergence: passes failing at arbitrary calls, each with its own head and its own set of known
      validators, followed by a pass that succeeds at a head no lower than theirs, leave exactly the state of one
      uninterrupted reading of the blocks. */
  lemma ReplayConverges(c: Blocks, s: Off, d: nat, failing: seq<PassInput>, last: PassInput)
    requires last.head.Some? && d <= Target(last.head.value)
    requires WithinReach(failing, Target(last.head.value))
    requires RunPasses(c, s, d, failing + [last]).ok
    ensures var r := RunPasses(c, s, d, failing + [last]);
      && r.dealed == Target(last.head.value)
      && r.off == ApplyAll(s, Between(c, d + 1, r.dealed))
  {
    var reach := Target(last.head.value);
    var inputs := failing + [last];
    assert inputs[..|inputs| - 1] == failing;
    PassesRecover(c, s, d, failing, reach);
    var r := RunPasses(c, s, d, failing);
    PassRecovers(c, s, d, r.off, r.dealed, reach, last);
    DealedWithinReach(c, s, d, failing, reach);
    RecoversAtReach(c, s, d, RunPasses(c, s, d, inputs).off, reach, reach);
  }

  lemma {:induction false} DealedWithinReach(c: Blocks, s: Off, d: nat, inputs: seq<PassInput>, reach: nat)
    requires WithinReach(inputs, reach) && d <= reach
    ensures RunPasses(c, s, d, inputs).dealed <= reach
  {
    if inputs != [] {
      var init, input := inputs[..|inputs| - 1], inputs[|inputs| - 1];
      assert WithinReach(init, reach);
      DealedWithinReach(c, s, d, init, reach);
      var r := RunPasses(c, s, d, init);
      RecoversStart(c, r.off, r.dealed);
      if input.head.Some? {
        ScanRecovers(c, input.known, r.off, r.dealed, r.off, r.dealed, r.dealed, Target(input.head.value), input.fuel);
      }
    }
  }

  // ---- When a pass fails ----

  /** The log's validator, if it adds or removes one, is known to the client. */
  predicate KnownTo(known: set<nat>, log: Log) {
    log.removed || match log
      case ClusterLog(_, _, _, _, ValidatorAdded(v)) => v in known
      case ClusterLog(_, _, _, _, ValidatorRemoved(v)) => v in known
      case _ => true
  }

  ghost predicate AllKnown(known: set<nat>, logs: seq<Log>) {
    forall i :: 0 <= i < |logs| ==> KnownTo(known, logs[i])
  }

  lemma {:induction false} HandlesAllKnown(logs: seq<Log>, known: set<nat>, fuel: nat)
    ensures Handled(logs, known, fuel) == |logs| ==> AllKnown(known, logs)
    ensures AllKnown(known, logs) && fuel >= |logs| ==> Handled(logs, known, fuel) == |logs|
  {
    if logs != [] && fuel > 0 {
      HandlesAllKnown(logs[1..], known, fuel - 1);
      assert logs == [logs[0]] + logs[1..];
      assert Unknown(logs[0], known) <==> !KnownTo(known, logs[0]);
      if AllKnown(known, logs) {
        assert forall i :: 0 <= i < |logs[1..]| ==> logs[1..][i] == logs[i + 1];
      }
    }
  }

  lemma AllKnownConcat(known: set<nat>, a: seq<Log>, b: seq<Log>)
    ensures AllKnown(known, a + b) <==> AllKnown(known, a) && AllKnown(known, b)
  {
    if AllKnown(known, a + b) {
      assert forall i :: 0 <= i < |a| ==> (a + b)[i] == a[i];
      assert forall i :: 0 <= i < |b| ==> (a + b)[|a| + i] == b[i];
    }
  }

  lemma {:induction false} ScanCompletes(c: Blocks, known: set<nat>, s: Off, d: nat, end: nat, fuel: nat)
    ensures ScanBlocks(c, known, s, d, end, fuel).ok ==> AllKnown(known, Between(c, d + 1, end))
    ensures AllKnown(known, Between(c, d + 1, end)) && fuel >= end - d + |Between(c, d + 1, end)| ==>
      ScanBlocks(c, known, s, d, end, fuel).ok
    decreases if d < end then end - d else 0
  {
    hide ApplyAll, Handled;
    if end <= d {
      assert Between(c, d + 1, end) == [];
    } else if fuel > 0 {
      hide AllKnown, Between;
      var subEnd := ChunkEnd(d + 1, end);
      var logs, rest := Between(c, d + 1, subEnd), Between(c, subEnd + 1, end);
      var n := Handled(logs, known, fuel - 1);
      HandlesAllKnown(logs, known, fuel - 1);
      BetweenSplit(c, d + 1, subEnd, end);
      AllKnownConcat(known, logs, rest);
      assert |Between(c, d + 1, end)| == |logs| + |rest|;
      if n == |logs| {
        assert logs[..n] == logs;
        ScanCompletes(c, known, ApplyAll(s, logs), subEnd, end, fuel - 1 - n);
      }
    }
  }

  /** Why a pass fails when no call does: exactly when a log it has to read adds or removes a validator that the client
      does not know, or the balances cannot be refreshed. */
  lemma PassSucceedsExactly(c: Blocks, s: Off, d: nat, input: PassInput)
    requires input.head.Some? && input.fuel >= input.head.value + |Between(c, d + 1, input.head.value)|
    ensures var head := input.head.value;
      var target := if head > 2 then head - 2 else head;
      RunPass(c, s, d, input).ok <==>
        target <= d || (input.balancesOk && AllKnown(input.known, Between(c, d + 1, target)))
  {
    var target := Target(input.head.value);
    ScanCompletes(c, input.known, s, d, target, input.fuel);
    if d < target {
      BetweenSplit(c, d + 1, target, input.head.value);
    }
  }

  // ---- Block cover ----

  /** The chunks, laid end to end, are the blocks after `from` up to `upto`. */
  ghost predicate Tiles(chunks: seq<Chunk>, from: nat, upto: nat) {
    if chunks == [] then from == upto
    else
      var last := chunks[|chunks| - 1];
      && last.end == upto
      && last.start <= last.end < last.start + FETCH_EVENT_BLOCK_LIMIT
      && from < last.start
      && Tiles(chunks[..|chunks| - 1], from, last.start - 1)
  }

  lemma {:induction false} TilesConcat(a: seq<Chunk>, b: seq<Chunk>, from: nat, mid: nat, upto: nat)
    requires Tiles(a, from, mid) && Tiles(b, mid, upto) && from <= mid
    ensures Tiles(a + b, from, upto) && mid <= upto
  {
    if b == [] {
      assert a + b == a;
    } else {
      assert (a + b)[..|a + b| - 1] == a + b[..|b| - 1];
      TilesConcat(a, b[..|b| - 1], from, mid, b[|b| - 1].start - 1);
    }
  }

  lemma {:induction false} ScanTiles(c: Blocks, known: set<nat>, s: Off, d: nat, end: nat, fuel: nat)
    ensures var r := ScanBlocks(c, known, s, d, end, fuel); d <= r.dealed && Tiles(r.chunks, d, r.dealed)
    decreases if d < end then end - d else 0
  {
    if d < end && fuel > 0 {
      var subEnd := ChunkEnd(d + 1, end);
      var logs := Between(c, d + 1, subEnd);
      var n := Handled(logs, known, fuel - 1);
      if n == |logs| {
        var s' := ApplyAll(s, logs[..n]);
        ScanTiles(c, known, s', subEnd, end, fuel - 1 - n);
        var rest := ScanBlocks(c, known, s', subEnd, end, fuel - 1 - n);
        var head := [Chunk(d + 1, subEnd)];
        assert head[..0] == [];
        assert Tiles(head, d, subEnd);
        TilesConcat(head, rest.chunks, d, subEnd, rest.dealed);
      }
    }
  }

  /** Over any run of passes, failing or not, the completed chunks tile the blocks from the initial height to the
      last dealt block. */
  lemma {:induction false} PassesTile(c: Blocks, s: Off, d: nat, inputs: seq<PassInput>)
    ensures var r := RunPasses(c, s, d, inputs); d <= r.dealed && Tiles(r.chunks, d, r.dealed)
  {
    if inputs != [] {
      var init, input := inputs[..|inputs| - 1], inputs[|inputs| - 1];
      PassesTile(c, s, d, init);
      var r := RunPasses(c, s, d, init);
      var r' := RunPass(c, r.off, r.dealed, input);
      if input.head.Some? {
        ScanTiles(c, input.known, r.off, r.dealed, Target(input.head.value), input.fuel);
      }
      TilesConcat(r.chunks, r'.chunks, d, r.dealed, r'.dealed);
    }
  }

  /** No query asks for less than the fetch limit, unless it reaches the last block wanted. */
  lemma {:induction false} ChunksAreFull(c: Blocks, known: set<nat>, s: Off, d: nat, end: nat, fuel: nat, i: nat)
    requires i < |ScanBlocks(c, known, s, d, end, fuel).chunks|
    ensures var chunk := ScanBlocks(c, known, s, d, end, fuel).chunks[i];
      chunk.end == end || chunk.end - chunk.start + 1 == 34300
    decreases if d < end then end - d else 0
  {
    var subEnd := ChunkEnd(d + 1, end);
    var logs := Between(c, d + 1, subEnd);
    hide ApplyAll, Between, Handled;
    assert Handled(logs, known, fuel - 1) == |logs| && logs[..|logs|] == logs;
    if i > 0 {
      ChunksAreFull(c, known, ApplyAll(s, logs), subEnd, end, fuel - 1 - |logs|, i - 1);
    }
  }

  predicate InChunk(b: nat, chunk: Chunk) { chunk.start <= b <= chunk.end }

  ghost predicate Covered(chunks: seq<Chunk>, b: nat) { exists i :: 0 <= i < |chunks| && InChunk(b, chunks[i]) }

  /** Tiling means: a block is in some chunk iff it lies in the range, and never in two; no chunk is longer than the
      fetch limit. */
  lemma {:induction false} TilesCoverOnce(chunks: seq<Chunk>, from: nat, upto: nat)
    requires Tiles(chunks, from, upto) && from <= upto
    ensures forall b: nat :: Covered(chunks, b) <==> from < b <= upto
    ensures forall b: nat, i, j :: 0 <= i < j < |chunks| ==> !(InChunk(b, chunks[i]) && InChunk(b, chunks[j]))
    ensures forall i :: 0 <= i < |chunks| ==> 1 <= chunks[i].end - chunks[i].start + 1 <= 34300
  {
    if chunks != [] {
      var init, last := chunks[..|chunks| - 1], chunks[|chunks| - 1];
      TilesCoverOnce(init, from, last.start - 1);
      assert chunks == init + [last];
      forall b: nat ensures Covered(chunks, b) <==> Covered(init, b) || InChunk(b, last) {
        if Covered(init, b) {
          var i :| 0 <= i < |init| && InChunk(b, init[i]);
          assert InChunk(b, chunks[i]);
        }
        if InChunk(b, last) {
          assert InChunk(b, chunks[|chunks| - 1]);
        }
      }
      forall b: nat, i, j | 0 <= i < j < |chunks|
        ensures !(InChunk(b, chunks[i]) && InChunk(b, chunks[j]))
      {
        if InChunk(b, chunks[i]) {
          assert InChunk(b, init[i]) && Covered(init, b);
        }
      }
    }
  }
}
