/** Validator keys: the two maps that hold every validator, the next free key index, its repair from the chain, and
    the deposit loop with its rollback. */
module KeyTable {
  import opened Wrappers
  import opened ValidatorStatus

  /** Public keys are an injective function of the key index. */
  datatype Pubkey = Pubkey(keyIndex: nat)

  const RETRY_LIMIT: nat := 200

  class Validator {
    const keyIndex: nat
    var statusOnStafi: Stafi
    var statusOnSsv: nat
    var statusOnBeacon: nat
    var validatorIndex: nat

    constructor (keyIndex: nat, status: Stafi)
      ensures this.keyIndex == keyIndex && statusOnStafi == status
      ensures statusOnSsv == 0 && statusOnBeacon == 0 && validatorIndex == 0
    {
      this.keyIndex, statusOnStafi := keyIndex, status;
      statusOnSsv, statusOnBeacon, validatorIndex := 0, 0, 0;
    }
  }

  /** `n` is the least key index whose public key the contract has never seen. */
  ghost predicate LeastUninitial(chain: nat -> nat, n: nat) {
    chain(n) == UNINITIAL && forall i: nat :: i < n ==> chain(i) != UNINITIAL
  }

  /** A contract query with its retries. `faulty(t)` says whether the t-th remote call fails. */
  method MustGetSuperNodePubkeyStatus(chain: nat -> nat, keyIndex: nat, faulty: nat -> bool, now: nat)
    returns (status: Option<nat>, later: nat)
    ensures status.None? <==> forall t :: now <= t <= now + 200 ==> faulty(t)
    ensures status.Some? ==> status.value == chain(keyIndex)
    ensures now <= later
  {
    later := now;
    var retry := 0;
    while true
      invariant later == now + retry && retry <= RETRY_LIMIT + 1
      invariant forall t :: now <= t < later ==> faulty(t)
      decreases RETRY_LIMIT + 1 - retry
    {
      if retry > RETRY_LIMIT {
        return None, later;
      }
      if faulty(later) {
        retry, later := retry + 1, later + 1;
        continue;
      }
      return Some(chain(keyIndex)), later + 1;
    }
  }

  datatype Turn = Stopped | Failed | Finished | Advanced

  datatype DepositOutcome = Kept | RolledBack | Crashed

  type ByKey = map<nat, Validator>
  type ByPubkey = map<Pubkey, Validator>

  /** The key-index map covers exactly the indices below `next`, and the public-key map holds the very same validator
      objects. */
  ghost predicate Mirror(byKey: ByKey, byPub: ByPubkey, next: nat) {
    && (forall i: nat :: i in byKey <==> i < next)
    && (forall p: Pubkey :: p in byPub <==> p.keyIndex < next)
    && (forall i: nat :: i in byKey ==> byKey[i].keyIndex == i)
    && (forall i: nat :: i in byKey && Pubkey(i) in byPub ==> byPub[Pubkey(i)] == byKey[i])
  }

  /** The first `n` entries of `a` are kept in `b`. */
  ghost predicate Keeps(a: ByKey, b: ByKey, n: nat) {
    forall i: nat :: i < n ==> i in a && i in b && b[i] == a[i]
  }

  ghost predicate AllFine(chain: nat -> nat, derivable: nat -> bool, faulty: nat -> bool, n: nat) {
    && (forall t: nat :: !faulty(t))
    && (forall i: nat :: i < n ==> 1 <= chain(i) <= 4)
    && (forall i: nat :: i <= n ==> derivable(i))
  }

  /** A key of the batch whose preparation fails. */
  ghost predicate BadKey(chain: nat -> nat, fails: nat -> bool, i: nat) { fails(i) || chain(i) != UNINITIAL }

  /** The statuses of the keys `lo` to `hi` are those that the contract's numbers stand for. */
  ghost predicate Learned(byKey: ByKey, chain: nat -> nat, lo: nat, hi: nat)
    reads byKey.Values
  {
    forall i: nat :: lo <= i < hi ==> i in byKey && chain(i) != UNINITIAL && Means(chain(i), byKey[i].statusOnStafi)
  }

  /** What is left while entries `lo` to `hi` are deleted and the deletion has reached `i`. */
  ghost predicate Deleted(was: ByKey, wasPub: ByPubkey, byKey: ByKey, byPub: ByPubkey, lo: nat, i: nat, hi: nat) {
    && (forall k: nat :: k in byKey <==> k < lo || i <= k < hi)
    && (forall p: Pubkey :: p in byPub <==> p.keyIndex < lo || i <= p.keyIndex < hi)
    && (forall k: nat :: k in byKey && k in was ==> byKey[k] == was[k])
    && (forall p: Pubkey :: p in byPub && p in wasPub ==> byPub[p] == wasPub[p])
  }

  lemma DeletedStep(was: ByKey, wasPub: ByPubkey, byKey: ByKey, byPub: ByPubkey, lo: nat, i: nat, hi: nat)
    requires Deleted(was, wasPub, byKey, byPub, lo, i, hi) && lo <= i < hi
    ensures Deleted(was, wasPub, byKey - {i}, byPub - {Pubkey(i)}, lo, i + 1, hi)
  {
    forall p: Pubkey ensures p in byPub - {Pubkey(i)} <==> p.keyIndex < lo || i + 1 <= p.keyIndex < hi {
      assert p == Pubkey(i) <==> p.keyIndex == i;
    }
  }

  lemma DeletedAll(was: ByKey, wasPub: ByPubkey, byKey: ByKey, byPub: ByPubkey, lo: nat, hi: nat)
    requires Mirror(was, wasPub, hi) && Deleted(was, wasPub, byKey, byPub, lo, hi, hi) && lo <= hi
    ensures Mirror(byKey, byPub, lo) && Keeps(was, byKey, lo)
  {
  }

  lemma MirroredMapsAgree(a: ByPubkey, b: ByPubkey, ka: ByKey, kb: ByKey, next: nat)
    requires Mirror(ka, a, next) && Mirror(kb, b, next) && Keeps(ka, kb, next)
    ensures ka == kb && a == b
  {
    forall i: nat | i in ka ensures i in kb && ka[i] == kb[i] {}
    forall p: Pubkey | p in a ensures p in b && a[p] == b[p] {
      assert p == Pubkey(p.keyIndex) && p.keyIndex in ka;
    }
  }

  class KeyTable {
    var nextKeyIndex: nat
    var byKeyIndex: ByKey
    var byPubkey: ByPubkey

    ghost predicate Mirrored()
      reads this
    {
      Mirror(byKeyIndex, byPubkey, nextKeyIndex)
    }

    constructor ()
      ensures Mirrored() && nextKeyIndex == 0
    {
      nextKeyIndex, byKeyIndex, byPubkey := 0, map[], map[];
    }

    /** Store a validator under the next index and advance. */
    method Append(status: Stafi)
      requires Mirrored()
      modifies this
      ensures Mirrored() && nextKeyIndex == old(nextKeyIndex) + 1
      ensures Keeps(old(byKeyIndex), byKeyIndex, old(nextKeyIndex))
      ensures fresh(byKeyIndex[old(nextKeyIndex)]) && byKeyIndex[old(nextKeyIndex)].statusOnStafi == status
    {
      var val := new Validator(nextKeyIndex, status);
      byKeyIndex := byKeyIndex[nextKeyIndex := val];
      byPubkey := byPubkey[Pubkey(nextKeyIndex) := val];
      nextKeyIndex := nextKeyIndex + 1;
    }

    /** Store a validator found on the chain. */
    method TakeIn(status: Stafi, ghost chain: nat -> nat, ghost first: nat)
      requires Mirrored() && first <= nextKeyIndex && Learned(byKeyIndex, chain, first, nextKeyIndex)
      requires chain(nextKeyIndex) != UNINITIAL && Means(chain(nextKeyIndex), status)
      modifies this
      ensures Mirrored() && nextKeyIndex == old(nextKeyIndex) + 1
      ensures Keeps(old(byKeyIndex), byKeyIndex, old(nextKeyIndex))
      ensures Learned(byKeyIndex, chain, first, nextKeyIndex)
    {
      Append(status);
    }

    /** One turn of the repair loop: ask for the next key, and take it in if the contract has seen it. */
    method RepairTurn(
      chain: nat -> nat, derivable: nat -> bool, faulty: nat -> bool, now: nat, ghost n: nat, ghost first: nat)
      returns (turn: Turn, later: nat)
      requires Mirrored() && LeastUninitial(chain, n) && first <= nextKeyIndex <= n
      requires Learned(byKeyIndex, chain, first, nextKeyIndex)
      modifies this
      ensures Mirrored() && Learned(byKeyIndex, chain, first, nextKeyIndex)
      ensures Keeps(old(byKeyIndex), byKeyIndex, old(nextKeyIndex))
      ensures nextKeyIndex == if turn == Advanced then old(nextKeyIndex) + 1 else old(nextKeyIndex)
      ensures nextKeyIndex <= n && (turn == Finished ==> nextKeyIndex == n)
      ensures AllFine(chain, derivable, faulty, n) ==> turn == Finished || turn == Advanced
    {
      if !derivable(nextKeyIndex) {
        return Stopped, now;
      }
      var status;
      status, later := MustGetSuperNodePubkeyStatus(chain, nextKeyIndex, faulty, now);
      if status.None? {
        assert faulty(now);
        return Failed, later;
      }
      if status.value == UNINITIAL {
        return Finished, later;
      }
      ClientStatusMeans(status.value);
      var valStatus := ClientStatus(status.value);
      if valStatus.None? {
        return Stopped, later;
      }
      TakeIn(valStatus.value, chain, first);
      return Advanced, later;
    }

    /** Walk up from the next key index to the first key the contract has not seen, taking in every key on the way.
        It ends because each turn either takes in a key below `n` or uses up a retry. */
    method CheckAndRepairValNextKeyIndex(chain: nat -> nat, derivable: nat -> bool, faulty: nat -> bool, ghost n: nat)
      returns (ok: bool)
      requires Mirrored() && LeastUninitial(chain, n) && nextKeyIndex <= n
      modifies this
      ensures Mirrored() && old(nextKeyIndex) <= nextKeyIndex <= n
      ensures ok ==> LeastUninitial(chain, nextKeyIndex)
      ensures Keeps(old(byKeyIndex), byKeyIndex, old(nextKeyIndex))
      ensures Learned(byKeyIndex, chain, old(nextKeyIndex), nextKeyIndex)
      ensures AllFine(chain, derivable, faulty, n) ==> ok
    {
      var retry := 0;
      var now := 0;
      while true
        invariant Mirrored() && old(nextKeyIndex) <= nextKeyIndex <= n && retry <= RETRY_LIMIT + 1
        invariant Keeps(old(byKeyIndex), byKeyIndex, old(nextKeyIndex))
        invariant Learned(byKeyIndex, chain, old(nextKeyIndex), nextKeyIndex)
        invariant AllFine(chain, derivable, faulty, n) ==> retry == 0
        decreases n - nextKeyIndex, RETRY_LIMIT + 1 - retry
      {
        if retry > RETRY_LIMIT {
          return false;
        }
        var turn;
        turn, now := RepairTurn(chain, derivable, faulty, now, n, old(nextKeyIndex));
        match turn {
          case Stopped => return false;
          case Finished => return true;
          case Failed => retry := retry + 1;
          case Advanced =>
        }
      }
    }

    method InitValNextKeyIndex(chain: nat -> nat, derivable: nat -> bool, faulty: nat -> bool, ghost n: nat)
      returns (ok: bool)
      requires Mirrored() && nextKeyIndex == 0 && LeastUninitial(chain, n)
      modifies this
      ensures Mirrored() && (ok ==> LeastUninitial(chain, nextKeyIndex))
    {
      nextKeyIndex := 0;
      ok := CheckAndRepairValNextKeyIndex(chain, derivable, faulty, n);
    }

    /** The deferred loop: reset the index, then delete entry by entry; reading an entry that was never stored is a
        nil dereference. */
    method Rollback(oldKeyIndex: nat, depositLen: nat) returns (crashed: bool)
      requires Mirrored() && oldKeyIndex <= nextKeyIndex <= oldKeyIndex + depositLen
      modifies this
      ensures Mirrored() && nextKeyIndex == oldKeyIndex
      ensures crashed <==> old(nextKeyIndex) < oldKeyIndex + depositLen
      ensures Keeps(old(byKeyIndex), byKeyIndex, oldKeyIndex)
    {
      ghost var stored, was, wasPub := nextKeyIndex, byKeyIndex, byPubkey;
      nextKeyIndex := oldKeyIndex;
      var i := nextKeyIndex;
      while i < nextKeyIndex + depositLen
        invariant oldKeyIndex <= i <= stored && nextKeyIndex == oldKeyIndex
        invariant Deleted(was, wasPub, byKeyIndex, byPubkey, oldKeyIndex, i, stored)
      {
        if i !in byKeyIndex {
          DeletedAll(was, wasPub, byKeyIndex, byPubkey, oldKeyIndex, stored);
          return true;
        }
        DeletedStep(was, wasPub, byKeyIndex, byPubkey, oldKeyIndex, i, stored);
        var pubkey := Pubkey(byKeyIndex[i].keyIndex);
        byKeyIndex := byKeyIndex - {i};
        byPubkey := byPubkey - {pubkey};
        i := i + 1;
      }
      DeletedAll(was, wasPub, byKeyIndex, byPubkey, oldKeyIndex, stored);
      return false;
    }

    /** The insertion loop; it stops at the first key whose preparation fails. */
    method InsertBatch(depositLen: nat, chain: nat -> nat, fails: nat -> bool) returns (failed: bool)
      requires Mirrored()
      modifies this
      ensures Mirrored() && old(nextKeyIndex) <= nextKeyIndex <= old(nextKeyIndex) + depositLen
      ensures Keeps(old(byKeyIndex), byKeyIndex, old(nextKeyIndex))
      ensures failed <==> nextKeyIndex < old(nextKeyIndex) + depositLen
      ensures failed ==> BadKey(chain, fails, nextKeyIndex)
      ensures forall i: nat :: old(nextKeyIndex) <= i < nextKeyIndex ==>
        !BadKey(chain, fails, i) && byKeyIndex[i].statusOnStafi == Uninitiated
    {
      for k := 0 to depositLen
        invariant Mirrored() && nextKeyIndex == old(nextKeyIndex) + k
        invariant Keeps(old(byKeyIndex), byKeyIndex, old(nextKeyIndex))
        invariant forall i: nat :: old(nextKeyIndex) <= i < nextKeyIndex ==>
          !BadKey(chain, fails, i) && byKeyIndex[i].keyIndex == i && byKeyIndex[i].statusOnStafi == Uninitiated
      {
        if fails(nextKeyIndex) || chain(nextKeyIndex) != UNINITIAL {
          return true;
        }
        Append(Uninitiated);
      }
      return false;
    }

    /** The deposit after its size is fixed: insert the keys, send, check. `fails(i)` is any error while preparing
        key `i`; `sent` and `confirmed` say whether the transaction and the checks after it succeed. Every error
        leaves both maps and the next index as they were; it crashes exactly when a key in the batch fails. */
    method DepositBatch(depositLen: nat, chain: nat -> nat, fails: nat -> bool, sent: bool, confirmed: bool)
      returns (r: DepositOutcome)
      requires Mirrored() && depositLen > 0
      modifies this
      ensures Mirrored()
      ensures r.Crashed? <==>
        exists i: nat :: old(nextKeyIndex) <= i < old(nextKeyIndex) + depositLen && BadKey(chain, fails, i)
      ensures r.RolledBack? <==> !r.Crashed? && !(sent && confirmed)
      ensures !r.Kept? ==>
        nextKeyIndex == old(nextKeyIndex) && byKeyIndex == old(byKeyIndex) && byPubkey == old(byPubkey)
      ensures r.Kept? ==>
        && nextKeyIndex == old(nextKeyIndex) + depositLen
        && Keeps(old(byKeyIndex), byKeyIndex, old(nextKeyIndex))
        && (forall i: nat :: old(nextKeyIndex) <= i < nextKeyIndex ==> byKeyIndex[i].statusOnStafi == Uninitiated)
    {
      var oldKeyIndex := nextKeyIndex;
      var failed := InsertBatch(depositLen, chain, fails);
      if failed || !sent || !confirmed {
        var crashed := Rollback(oldKeyIndex, depositLen);
        MirroredMapsAgree(old(byPubkey), byPubkey, old(byKeyIndex), byKeyIndex, oldKeyIndex);
        return if crashed then Crashed else RolledBack;
      }
      return Kept;
    }

    /** A deposit that was mined but whose checks failed is rolled back here and found again by the next repair: the
        keys of the batch return with the status the contract gives them. */
    method RecoverMinedDeposit(
      depositLen: nat, before: nat -> nat, after: nat -> nat, derivable: nat -> bool, faulty: nat -> bool)
      returns (ok: bool)
      requires Mirrored() && depositLen > 0 && LeastUninitial(before, nextKeyIndex)
      requires LeastUninitial(after, nextKeyIndex + depositLen)
      requires forall i: nat :: nextKeyIndex <= i < nextKeyIndex + depositLen ==>
        before(i) == UNINITIAL && after(i) == 1
      modifies this
      ensures Mirrored() && Keeps(old(byKeyIndex), byKeyIndex, old(nextKeyIndex))
      ensures ok ==> nextKeyIndex == old(nextKeyIndex) + depositLen
      ensures forall i: nat :: old(nextKeyIndex) <= i < nextKeyIndex ==> byKeyIndex[i].statusOnStafi == Deposited
    {
      var fails := (i: nat) => false;
      var r := DepositBatch(depositLen, before, fails, true, false);
      assert forall i: nat :: nextKeyIndex <= i < nextKeyIndex + depositLen ==> !BadKey(before, fails, i);
      ok := CheckAndRepairValNextKeyIndex(after, derivable, faulty, nextKeyIndex + depositLen);
    }
  }

  /** A batch of two whose second key is already on chain: the loop fails there, the rollback reads an entry that was
      never stored, and the table is as it was. */
  method SecondKeyOnChain() returns (r: DepositOutcome, next: nat, stored: set<nat>)
    ensures r == Crashed && next == 0 && stored == {}
  {
    var chain := (i: nat) => if i == 1 then 1 else UNINITIAL;
    var fails := (i: nat) => false;
    var table := new KeyTable();
    assert BadKey(chain, fails, 1);
    r := table.DepositBatch(2, chain, fails, true, true);
    next, stored := table.nextKeyIndex, table.byKeyIndex.Keys;
  }
}
