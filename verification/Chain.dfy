/** The chain as the client can read it: for every block number, the SSV network logs of the client's account. */
module Chain {

  datatype Snapshot = Snapshot(
    validatorCount: nat, networkFeeIndex: nat, index: nat, active: bool, balance: nat)

  datatype Kind =
    | ValidatorAdded(val: nat)
    | ValidatorRemoved(val: nat)
    | ClusterDeposited
    | ClusterWithdrawn
    | ClusterLiquidated
    | ClusterReactivated

  /** A validator is named by its key index: the public key is an injective function of it. */
  datatype Log =
    | ClusterLog(block: nat, removed: bool, ids: seq<nat>, snapshot: Snapshot, kind: Kind)
    | FeeRecipientLog(block: nat, removed: bool, recipient: nat)

  /** Logs by block number. The block at the head minus the lag is never reorganised, so this does not change. */
  type Blocks = nat -> seq<Log>

  /** What a log filter over blocks `from` to `upto` returns. */
  function Between(c: Blocks, from: nat, upto: nat): seq<Log>
    decreases upto
  {
    if from > upto then [] else if upto == 0 then c(0) else Between(c, from, upto - 1) + c(upto)
  }

  /** The logs after block `start` up to block `b`. */
  function History(c: Blocks, start: nat, b: nat): seq<Log> { Between(c, start + 1, b) }

  lemma {:induction false} BetweenSplit(c: Blocks, from: nat, mid: nat, upto: nat)
    requires from <= mid + 1 && mid <= upto
    ensures Between(c, from, upto) == Between(c, from, mid) + Between(c, mid + 1, upto)
    decreases upto
  {
    if mid < upto {
      BetweenSplit(c, from, mid, upto - 1);
    }
  }
}
