/** The part of the client's state that replay updates in place, with the methods that update it. */
module OffchainState {
  import opened Wrappers
  import opened Sorting
  import opened ClusterKeys
  import opened Chain
  import opened Replay

  ghost predicate SameOutcome(r: PassResult, off: Off, dealed: nat, ok: bool) {
    r.off == off && r.dealed == dealed && r.ok == ok
  }

  ghost predicate SameTail(whole: PassResult, rest: PassResult) { SameOutcome(whole, rest.off, rest.dealed, rest.ok) }

  lemma ChunkBreaksOff(c: Blocks, known: set<nat>, s: Off, dealed: nat, end: nat, fuel: nat, s': Off)
    requires dealed < end
    requires fuel == 0 ==> s' == s
    requires fuel > 0 ==>
      var logs := Between(c, dealed + 1, ChunkEnd(dealed + 1, end));
      var n := Handled(logs, known, fuel - 1);
      n < |logs| && s' == ApplyAll(s, logs[..n])
    ensures SameOutcome(ScanBlocks(c, known, s, dealed, end, fuel), s', dealed, false)
  {
  }

  lemma ChunkCompletes(c: Blocks, known: set<nat>, s: Off, dealed: nat, end: nat, fuel: nat, s': Off, left: nat)
    requires dealed < end && fuel > 0
    requires var logs := Between(c, dealed + 1, ChunkEnd(dealed + 1, end));
      Handled(logs, known, fuel - 1) == |logs| && s' == ApplyAll(s, logs) && left == fuel - 1 - |logs|
    ensures SameTail(ScanBlocks(c, known, s, dealed, end, fuel),
                     ScanBlocks(c, known, s', ChunkEnd(dealed + 1, end), end, left))
  {
    hide ApplyAll, Between, Handled;
    var logs := Between(c, dealed + 1, ChunkEnd(dealed + 1, end));
    assert logs[..|logs|] == logs;
  }

  lemma ScanEnds(c: Blocks, known: set<nat>, s: Off, dealed: nat, end: nat, fuel: nat)
    requires end <= dealed
    ensures SameOutcome(ScanBlocks(c, known, s, dealed, end, fuel), s, dealed, true)
  {
  }

  class OffchainState {
    var dealedEth1Block: nat
    var clusters: map<string, Cluster>
    var latestRegistrationNonce: nat
    var feeRecipientAddressOnSsv: nat
    var clusterKeys: map<nat, string>
    var removedFromSsvOnBlock: map<nat, nat>
    var knownValidators: set<nat>

    ghost function View(): Off
      reads this
    {
      Off(clusters, latestRegistrationNonce, feeRecipientAddressOnSsv, clusterKeys, removedFromSsvOnBlock)
    }

    constructor (initialHeight: nat, known: set<nat>)
      ensures View() == Off(map[], 0, 0, map[], map[])
      ensures dealedEth1Block == initialHeight && knownValidators == known
    {
      dealedEth1Block, knownValidators := initialHeight, known;
      clusters, latestRegistrationNonce, feeRecipientAddressOnSsv := map[], 0, 0;
      clusterKeys, removedFromSsvOnBlock := map[], map[];
    }

    constructor Resume(off: Off, dealed: nat, known: set<nat>)
      ensures View() == off && dealedEth1Block == dealed && knownValidators == known
    {
      dealedEth1Block, knownValidators := dealed, known;
      clusters, latestRegistrationNonce, feeRecipientAddressOnSsv := off.clusters, off.nonce, off.feeRecipient;
      clusterKeys, removedFromSsvOnBlock := off.clusterKeys, off.removedBlocks;
    }

    method UpdateClusterInPlace(operatorIds: seq<nat>, newCluster: Snapshot, blockNumber: nat, kind: Kind)
      modifies this`clusters, this`latestRegistrationNonce
      ensures View() == UpdateCluster(old(View()), operatorIds, newCluster, blockNumber, kind)
    {
      hide ClusterKey;
      var sorted := SortIds(operatorIds);
      var cltKey := BuildClusterKey(sorted);
      if cltKey !in clusters {
        clusters := clusters[cltKey := Cluster(sorted, newCluster, {}, 0, 0, 0)];
      }
      var cluster := clusters[cltKey];
      if cluster.latestUpdate < blockNumber {
        cluster := cluster.(latestUpdate := blockNumber, latestCluster := newCluster);
      }
      match kind {
        case ValidatorAdded(keyIndex) =>
          if cluster.latestAdded < blockNumber {
            cluster := cluster.(latestAdded := blockNumber, managing := cluster.managing + {keyIndex});
            latestRegistrationNonce := latestRegistrationNonce + 1;
          }
        case ValidatorRemoved(keyIndex) =>
          if cluster.latestRemoved < blockNumber {
            cluster := cluster.(latestRemoved := blockNumber, managing := cluster.managing - {keyIndex});
          }
        case _ =>
      }
      clusters := clusters[cltKey := cluster];
    }

    /** One turn of the loop over logs; `false` when the log's validator is not known. */
    method HandleLog(log: Log) returns (ok: bool)
      modifies this`clusters, this`latestRegistrationNonce, this`feeRecipientAddressOnSsv, this`clusterKeys,
               this`removedFromSsvOnBlock
      ensures ok == !Unknown(log, knownValidators)
      ensures View() == if ok then Apply(old(View()), log) else old(View())
    {
      if log.removed {
        return true;
      }
      match log {
        case FeeRecipientLog(_, _, recipient) =>
          feeRecipientAddressOnSsv := recipient;
        case ClusterLog(block, _, ids, snapshot, kind) =>
          match kind {
            case ValidatorAdded(val) =>
              if val !in knownValidators {
                return false;
              }
              var cltKey := BuildClusterKey(ids);
              clusterKeys := clusterKeys[val := cltKey];
            case ValidatorRemoved(val) =>
              if val !in knownValidators {
                return false;
              }
              if (if val in removedFromSsvOnBlock then removedFromSsvOnBlock[val] else 0) < block {
                removedFromSsvOnBlock := removedFromSsvOnBlock[val := block];
              }
            case _ =>
          }
          UpdateClusterInPlace(ids, snapshot, block, kind);
      }
      return true;
    }

    /** The loop over the logs of one chunk; after `fuel` logs a call fails. */
    method HandleLogs(logs: seq<Log>, fuel: nat) returns (done: bool, left: nat)
      modifies this`clusters, this`latestRegistrationNonce, this`feeRecipientAddressOnSsv, this`clusterKeys,
               this`removedFromSsvOnBlock
      ensures var n := Handled(logs, knownValidators, fuel);
        View() == ApplyAll(old(View()), logs[..n]) && done == (n == |logs|) && left == fuel - n
    {
      left := fuel;
      for j := 0 to |logs|
        invariant View() == ApplyAll(old(View()), logs[..j]) && left + j == fuel
        invariant Handled(logs, knownValidators, fuel) == j + Handled(logs[j..], knownValidators, left)
      {
        if left == 0 {
          return false, left;
        }
        var handled := HandleLog(logs[j]);
        if !handled {
          return false, left;
        }
        left := left - 1;
        assert logs[..j + 1][..j] == logs[..j];
        assert logs[j..][1..] == logs[j + 1..];
      }
      return true, left;
    }

    /** One chunk: fetch its logs, handle them, and advance past it. */
    method ScanChunk(c: Blocks, end: nat, fuel: nat) returns (done: bool, left: nat)
      requires dealedEth1Block < end
      modifies this`dealedEth1Block, this`clusters, this`latestRegistrationNonce, this`feeRecipientAddressOnSsv,
               this`clusterKeys, this`removedFromSsvOnBlock
      ensures var before := ScanBlocks(c, knownValidators, old(View()), old(dealedEth1Block), end, fuel);
        if done then
          && dealedEth1Block == ChunkEnd(old(dealedEth1Block) + 1, end)
          && SameTail(before, ScanBlocks(c, knownValidators, View(), dealedEth1Block, end, left))
        else SameOutcome(before, View(), dealedEth1Block, false)
    {
      hide ScanBlocks, ApplyAll, Between, Handled;
      left := fuel;
      ghost var before := View();
      var subStart := dealedEth1Block + 1;
      var subEnd := subStart + FETCH_EVENT_BLOCK_LIMIT - 1;
      if end < subStart + FETCH_EVENT_BLOCK_LIMIT {
        subEnd := end;
      }
      if left == 0 {
        ChunkBreaksOff(c, knownValidators, before, dealedEth1Block, end, fuel, before);
        return false, left;
      }
      var logs := Between(c, subStart, subEnd);
      done, left := HandleLogs(logs, left - 1);
      ghost var reached := View();
      if done {
        assert logs[..|logs|] == logs;
        ChunkCompletes(c, knownValidators, before, dealedEth1Block, end, fuel, reached, left);
        dealedEth1Block := subEnd;
        assert View() == reached;
      } else {
        ChunkBreaksOff(c, knownValidators, before, dealedEth1Block, end, fuel, reached);
      }
    }

    /** The loop over chunks. */
    method ScanChunks(c: Blocks, end: nat, fuel: nat) returns (ok: bool)
      requires dealedEth1Block < end
      modifies this`dealedEth1Block, this`clusters, this`latestRegistrationNonce, this`feeRecipientAddressOnSsv,
               this`clusterKeys, this`removedFromSsvOnBlock
      ensures SameOutcome(ScanBlocks(c, knownValidators, old(View()), old(dealedEth1Block), end, fuel),
                          View(), dealedEth1Block, ok)
    {
      var i := dealedEth1Block + 1;
      var left: nat := fuel;
      while i <= end
        invariant 1 <= i && dealedEth1Block == if i <= end then i - 1 else end
        invariant SameTail(ScanBlocks(c, knownValidators, old(View()), old(dealedEth1Block), end, fuel),
                           ScanBlocks(c, knownValidators, View(), dealedEth1Block, end, left))
      {
        var done;
        done, left := ScanChunk(c, end, left);
        if !done {
          return false;
        }
        i := i + FETCH_EVENT_BLOCK_LIMIT;
      }
      ScanEnds(c, knownValidators, View(), dealedEth1Block, end, left);
      return true;
    }

    /** A pass over the blocks. `fuel` says after how many further calls one fails. */
    method UpdateSsvOffchainState(c: Blocks, head: Option<nat>, fuel: nat, balancesOk: bool) returns (ok: bool)
      modifies this`dealedEth1Block, this`clusters, this`latestRegistrationNonce, this`feeRecipientAddressOnSsv,
               this`clusterKeys, this`removedFromSsvOnBlock
      ensures var r := RunPass(c, old(View()), old(dealedEth1Block),
                               PassInput(head, knownValidators, fuel, balancesOk));
        View() == r.off && dealedEth1Block == r.dealed && ok == r.ok
    {
      if head.None? {
        return false;
      }
      var latestBlockNumber := head.value;
      if latestBlockNumber > FETCH_ETH1_WAIT_BLOCK_NUMBERS {
        latestBlockNumber := latestBlockNumber - FETCH_ETH1_WAIT_BLOCK_NUMBERS;
      }
      if latestBlockNumber <= dealedEth1Block {
        return true;
      }
      var scanned := ScanChunks(c, latestBlockNumber, fuel);
      ok := scanned && balancesOk;
    }
  }
}
