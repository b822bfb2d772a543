/** The three-part status of each validator, polled from the super node contract, the SSV contract and the beacon
    chain. A poll can break off after any call, and it skips validators whose life has ended. */
module ValInfo {
  import opened ValidatorStatus
  import opened KeyTable
  import opened Placement
  import opened Replay
  import opened Budget

  datatype BeaconStatus =
    | PendingInitialized | PendingQueued
    | ActiveOngoing | ActiveExiting | ActiveSlashed
    | ExitedUnslashed | ExitedSlashed | WithdrawalPossible | WithdrawalDone
    | Unsupported

  datatype BeaconAnswer = NotThere | There(index: nat, status: BeaconStatus)

  /** What the three systems say about one validator at one time. */
  datatype Seen = Seen(stafi: nat, onboard: bool, beacon: BeaconAnswer)

  predicate Active(b: BeaconAnswer) {
    b.There? && (b.status.ActiveOngoing? || b.status.ActiveExiting? || b.status.ActiveSlashed?)
  }

  predicate Exited(b: BeaconAnswer) {
    b.There? && (b.status.ExitedUnslashed? || b.status.ExitedSlashed? || b.status.WithdrawalPossible?
                 || b.status.WithdrawalDone?)
  }

  /** The place of a status in a validator's life: 0 and 1 before it is active, 2 to 4 active, 5 to 8 after. */
  function Rank(status: BeaconStatus): nat {
    match status
    case PendingInitialized => 0
    case PendingQueued => 1
    case ActiveOngoing => 2
    case ActiveExiting => 3
    case ActiveSlashed => 4
    case ExitedUnslashed => 5
    case ExitedSlashed => 6
    case WithdrawalPossible => 7
    case WithdrawalDone => 8
    case Unsupported => 9
  }

  predicate Between(b: BeaconAnswer, lo: nat, hi: nat) { b.There? && lo <= Rank(b.status) <= hi }

  /** Removed from SSV after it left the beacon chain. */
  predicate Ended(st: ValStatus) { st.onBeacon == EXITED_ON_BEACON && st.onSsv == REMOVED_FROM_SSV }

  // ---- One poll ----

  /** `left` counts the calls that still succeed. */
  datatype Polled = Polled(st: ValStatus, left: nat, ok: bool)

  function PollStafi(st: ValStatus, seen: Seen, fuel: nat): Polled {
    if st.onStafi == Staked then Polled(st, fuel, true)
    else if fuel == 0 then Polled(st, 0, false)
    else if ClientStatus(seen.stafi).None? then Polled(st, fuel - 1, false)
    else Polled(st.(onStafi := ClientStatus(seen.stafi).value), fuel - 1, true)
  }

  function PollSsv(st: ValStatus, seen: Seen, fuel: nat): Polled {
    if st.onStafi != Staked then Polled(st, fuel, true)
    else if fuel == 0 then Polled(st, 0, false)
    else Polled(st.(onSsv := if seen.onboard then REGISTERED_VALID else REMOVED_FROM_SSV), fuel - 1, true)
  }

  function PollBeacon(st: ValStatus, seen: Seen, fuel: nat): Polled {
    if st.onStafi != Staked then Polled(st, fuel, true)
    else if fuel < 2 then Polled(st, 0, false)
    else if seen.beacon.NotThere? then Polled(st, fuel - 2, true)
    else if seen.beacon.index == 0 || seen.beacon.status.Unsupported? then Polled(st, fuel - 2, false)
    else if Active(seen.beacon) then Polled(st.(onBeacon := ACTIVE_ON_BEACON), fuel - 2, true)
    else if Exited(seen.beacon) then Polled(st.(onBeacon := EXITED_ON_BEACON), fuel - 2, true)
    else Polled(st, fuel - 2, true)
  }

  /** The poll without the skip. */
  function FullPoll(st: ValStatus, seen: Seen, fuel: nat): Polled {
    var a := PollStafi(st, seen, fuel);
    if !a.ok then a else
    var b := PollSsv(a.st, seen, a.left);
    if !b.ok then b else PollBeacon(b.st, seen, b.left)
  }

  function Poll(st: ValStatus, seen: Seen, fuel: nat): Polled {
    if Ended(st) then Polled(st, fuel, true) else FullPoll(st, seen, fuel)
  }

  datatype Board = Board(sts: seq<ValStatus>, left: nat, ok: bool)

  /** The loop over the validators from index `i` on. */
  function PollFrom(sts: seq<ValStatus>, seen: nat -> Seen, fuel: nat, i: nat): (b: Board)
    ensures |b.sts| == |sts|
    decreases |sts| - i
  {
    if i >= |sts| then Board(sts, fuel, true)
    else
      var r := Poll(sts[i], seen(i), fuel);
      if r.ok then PollFrom(sts[i := r.st], seen, r.left, i + 1) else Board(sts[i := r.st], r.left, false)
  }

  /** What the loop does to one validator is one poll of it, which may break off before its first call. */
  lemma {:induction false} PollFromAt(sts: seq<ValStatus>, seen: nat -> Seen, fuel: nat, i: nat, k: nat)
    returns (f: nat)
    requires k < |sts|
    ensures var b := PollFrom(sts, seen, fuel, i);
      && b.sts[k] == (if k < i then sts[k] else Poll(sts[k], seen(k), f).st)
      && (b.ok && i <= k ==> Poll(sts[k], seen(k), f).ok)
    decreases |sts| - i
  {
    f := 0;
    if i < |sts| {
      var r := Poll(sts[i], seen(i), fuel);
      if r.ok {
        f := PollFromAt(sts[i := r.st], seen, r.left, i + 1, k);
      }
      if k == i {
        f := fuel;
      }
    }
  }

  /** What the three systems say lets no poll of the status complete: the contract does not know the key, or the
      beacon chain knows a staked one under index 0 or in a state of its own. A life that has ended is not asked for. */
  predicate Stuck(st: ValStatus, seen: Seen) {
    && !(st.onBeacon == 2 && st.onSsv == 3)
    && (|| (st.onStafi != Staked && (seen.stafi == 0 || seen.stafi > 4))
        || ((st.onStafi == Staked || seen.stafi == 3) && seen.beacon.There?
            && (seen.beacon.index == 0 || Rank(seen.beacon.status) > 8)))
  }

  lemma PollCompletes(st: ValStatus, seen: Seen, fuel: nat)
    ensures fuel >= 4 ==> (Poll(st, seen, fuel).ok <==> !Stuck(st, seen))
    ensures Poll(st, seen, fuel).ok ==> !Stuck(st, seen) && fuel <= Poll(st, seen, fuel).left + 4
  {
    ClientStatusMeans(seen.stafi);
  }

  /** Why a poll of all validators fails when no call does: exactly when one of them is stuck. */
  lemma {:induction false} PollFailsExactly(sts: seq<ValStatus>, seen: nat -> Seen, fuel: nat, i: nat)
    requires i <= |sts| && fuel >= 4 * (|sts| - i)
    ensures PollFrom(sts, seen, fuel, i).ok <==> forall k :: i <= k < |sts| ==> !Stuck(sts[k], seen(k))
    decreases |sts| - i
  {
    if i < |sts| {
      PollCompletes(sts[i], seen(i), fuel);
      var r := Poll(sts[i], seen(i), fuel);
      if r.ok {
        var next := sts[i := r.st];
        PollFailsExactly(next, seen, r.left, i + 1);
        assert forall k :: i < k < |sts| ==> next[k] == sts[k];
      }
    }
  }

  // ---- Many polls ----

  /** The stored status says what the three systems say, in the contract's numbers and the beacon chain's ranks. */
  predicate Tells(st: ValStatus, seen: Seen) {
    && 1 <= seen.stafi <= 4 && Means(seen.stafi, st.onStafi)
    && (seen.stafi != 3 ==> st.onSsv == 0 && st.onBeacon == 0)
    && (seen.stafi == 3 ==>
          && st.onSsv == (if seen.onboard then REGISTERED_VALID else REMOVED_FROM_SSV)
          && (st.onBeacon == ACTIVE_ON_BEACON <==> Between(seen.beacon, 2, 4))
          && (st.onBeacon == EXITED_ON_BEACON <==> Between(seen.beacon, 5, 8))
          && st.onBeacon <= EXITED_ON_BEACON)
  }

  /** Staking and leaving the beacon chain are final, an active validator does not become pending, and one that has
      left and is not on SSV is not registered there again. */
  predicate Lawful(seen: Seen, later: Seen) {
    && (seen.stafi == 3 ==> later.stafi == 3)
    && (Between(seen.beacon, 2, 4) ==> Between(later.beacon, 2, 8))
    && (Between(seen.beacon, 5, 8) ==> Between(later.beacon, 5, 8))
    && (Between(seen.beacon, 5, 8) && !seen.onboard ==> !later.onboard)
  }

  /** A stored status that was true in parts at times up to that of `seen`. */
  predicate Lags(st: ValStatus, seen: Seen) {
    && (st.onStafi == Staked ==> seen.stafi == 3)
    && (st.onStafi != Staked ==> st.onSsv == 0 && st.onBeacon == 0)
    && st.onBeacon <= EXITED_ON_BEACON
    && (st.onBeacon == ACTIVE_ON_BEACON ==> Between(seen.beacon, 2, 8))
    && (st.onBeacon == EXITED_ON_BEACON ==> Between(seen.beacon, 5, 8))
    && (Ended(st) ==> !seen.onboard)
  }

  lemma PollLags(st: ValStatus, seen: Seen, fuel: nat, later: Seen)
    requires Lags(st, seen) && Lawful(seen, later)
    ensures Lags(Poll(st, seen, fuel).st, later)
  {
    ClientStatusMeans(seen.stafi);
  }

  /** A completed poll of a lagging status, skipped or not, tells the truth. */
  lemma PollTellsTruth(st: ValStatus, seen: Seen, fuel: nat)
    requires Lags(st, seen) && Poll(st, seen, fuel).ok
    ensures Tells(Poll(st, seen, fuel).st, seen)
  {
    ClientStatusMeans(seen.stafi);
  }

  /** The skip gives what a full poll would have given exactly when the validator is still off SSV and not active. */
  lemma SkipIsSafe(st: ValStatus, seen: Seen, fuel: nat)
    requires Ended(st) && st.onStafi == Staked && FullPoll(st, seen, fuel).ok
    ensures Poll(st, seen, fuel).st == FullPoll(st, seen, fuel).st <==> !seen.onboard && !Between(seen.beacon, 2, 4)
  {
  }

  /** One call of the handler: the validators added since the last call, with the contract status they were added
      with, then what the systems say and after how many calls one fails. */
  datatype Visit = Visit(added: seq<Stafi>, seen: nat -> Seen, fuel: nat)

  function Entered(added: seq<Stafi>): (r: seq<ValStatus>)
    ensures |r| == |added| && forall k :: 0 <= k < |r| ==> r[k] == ValStatus(added[k], 0, 0)
  {
    seq(|added|, k requires 0 <= k < |added| => ValStatus(added[k], 0, 0))
  }

  /** The statuses the last call starts from, and those it leaves. */
  function Before(visits: seq<Visit>): seq<ValStatus>
    requires visits != []
    decreases |visits|, 0
  {
    Visits(visits[..|visits| - 1]).sts + Entered(visits[|visits| - 1].added)
  }

  function Visits(visits: seq<Visit>): Board
    decreases |visits|, 1
  {
    if visits == [] then Board([], 0, true)
    else PollFrom(Before(visits), visits[|visits| - 1].seen, visits[|visits| - 1].fuel, 0)
  }

  /** Every validator enters with a status the contract had by then. */
  ghost predicate EntersLawfully(known: nat, visit: Visit) {
    forall i :: 0 <= i < |visit.added| ==> Lags(ValStatus(visit.added[i], 0, 0), visit.seen(known + i))
  }

  ghost predicate MovesLawfully(visit: Visit, next: Visit) {
    forall k: nat :: Lawful(visit.seen(k), next.seen(k))
  }

  /** The world moves lawfully from each call to the next. */
  ghost predicate LawfulVisits(visits: seq<Visit>) {
    visits == [] ||
    var init, last := visits[..|visits| - 1], visits[|visits| - 1];
    && LawfulVisits(init) && EntersLawfully(|Visits(init).sts|, last)
    && (init != [] ==> MovesLawfully(init[|init| - 1], last))
  }

  lemma {:induction false} VisitsLag(visits: seq<Visit>, k: nat)
    requires LawfulVisits(visits) && visits != [] && k < |Before(visits)|
    ensures Lags(Before(visits)[k], visits[|visits| - 1].seen(k))
  {
    var init, last := visits[..|visits| - 1], visits[|visits| - 1];
    var known := |Visits(init).sts|;
    if k < known {
      var prev := init[|init| - 1];
      VisitsLag(init, k);
      var f := PollFromAt(Before(init), prev.seen, prev.fuel, 0, k);
      PollLags(Before(init)[k], prev.seen(k), f, last.seen(k));
    } else {
      assert Lags(ValStatus(last.added[k - known], 0, 0), last.seen(known + (k - known)));
    }
  }

  /** However many calls broke off, wherever they did, and whatever was skipped: after a call that completes, every
      validator's three statuses are what the three systems say now. */
  lemma StatusesTellTruth(visits: seq<Visit>, k: nat)
    requires LawfulVisits(visits) && visits != [] && Visits(visits).ok && k < |Visits(visits).sts|
    ensures Tells(Visits(visits).sts[k], visits[|visits| - 1].seen(k))
  {
    var last := visits[|visits| - 1];
    VisitsLag(visits, k);
    var f := PollFromAt(Before(visits), last.seen, last.fuel, 0, k);
    PollTellsTruth(Before(visits)[k], last.seen(k), f);
  }

  // ---- What the statuses are used for ----

  /** `checkAndOnboardOnSSV` considers the validator. */
  predicate WantsCluster(st: ValStatus) {
    && st.onStafi == Staked
    && (st.onSsv == 0 || st.onSsv == REMOVED_FROM_SSV)
    && (st.onBeacon == 0 || st.onBeacon == ACTIVE_ON_BEACON)
  }

  /** On a true status the two placement handlers never both act, each acts only on the right side, and both leave a
      validator alone once it is exited and off SSV. */
  lemma PlacementHandlersExclude(st: ValStatus, seen: Seen, c: Cluster, ops: Operators, limit: nat)
    requires Tells(st, seen)
    ensures WantsCluster(st) <==> seen.stafi == 3 && !seen.onboard && !Between(seen.beacon, 5, 8)
    ensures OffboardDecision(st, c, ops, limit) != Keep ==>
      seen.stafi == 3 && seen.onboard && Between(seen.beacon, 2, 8)
    ensures seen.stafi == 3 && seen.onboard && Between(seen.beacon, 5, 8) ==>
      OffboardDecision(st, c, ops, limit) == Offboard
    ensures Ended(st) ==> !WantsCluster(st) && OffboardDecision(st, c, ops, limit) == Keep
  {
  }

  function OnStafi(sts: seq<ValStatus>): seq<Stafi> {
    seq(|sts|, k requires 0 <= k < |sts| => sts[k].onStafi)
  }

  /** A key chosen for a stake had the number 2, matched, on the contract when it was last read; and one that had it is
      passed over only when less than 31 ETH are left. */
  lemma ChosenWereMatched(visits: seq<Visit>, balance: nat, k: nat)
    requires LawfulVisits(visits) && visits != [] && Visits(visits).ok && k < |Visits(visits).sts|
    ensures var (chosen, left) := StakeLoop(OnStafi(Visits(visits).sts), balance);
      var number := visits[|visits| - 1].seen(k).stafi;
      && (k in chosen ==> number == 2)
      && (number == 2 && k !in chosen ==> left < 31_000_000_000_000_000_000)
  {
    var view := OnStafi(Visits(visits).sts);
    StatusesTellTruth(visits, k);
    StakeOrder(view, balance);
    PassedOverForLack(view, balance);
  }

  // ---- The handler ----

  function StatusOf(val: Validator): ValStatus
    reads val
  {
    ValStatus(val.statusOnStafi, val.statusOnSsv, val.statusOnBeacon)
  }

  /** The statuses of the first validators of the table, in key order. */
  ghost predicate Shows(byKey: ByKey, sts: seq<ValStatus>)
    reads byKey.Values
  {
    forall i: nat :: i < |sts| ==> i in byKey && byKey[i].keyIndex == i && StatusOf(byKey[i]) == sts[i]
  }

  /** Every cached validator is stored under its own beacon index. */
  ghost predicate Indexed(byKey: ByKey, byValIndex: map<nat, Validator>, indexOf: nat -> nat)
    reads byValIndex.Values
  {
    forall x :: x in byValIndex ==>
      && byValIndex[x].validatorIndex == x == indexOf(byValIndex[x].keyIndex)
      && byValIndex[x].keyIndex in byKey && byKey[byValIndex[x].keyIndex] == byValIndex[x]
  }

  /** Each validator has one beacon index. */
  ghost predicate OneIndex(seen: nat -> Seen, indexOf: nat -> nat) {
    forall k: nat :: seen(k).beacon.There? ==> seen(k).beacon.index == indexOf(k)
  }

  class ValInfo {
    const keys: KeyTable
    var byValIndex: map<nat, Validator>

    constructor (keys: KeyTable)
      ensures this.keys == keys && byValIndex == map[]
    {
      this.keys, byValIndex := keys, map[];
    }

    /** Ask the contract for a status that can still change. */
    method UpdateOnStafi(val: Validator, seen: Seen, fuel: nat) returns (left: nat, ok: bool)
      modifies val`statusOnStafi
      ensures Polled(StatusOf(val), left, ok) == PollStafi(old(StatusOf(val)), seen, fuel)
    {
      if val.statusOnStafi == Staked {
        return fuel, true;
      }
      if fuel == 0 {
        return 0, false;
      }
      var status := ClientStatus(seen.stafi);
      if status.None? {
        return fuel - 1, false;
      }
      val.statusOnStafi := status.value;
      return fuel - 1, true;
    }

    method UpdateOnSsv(val: Validator, seen: Seen, fuel: nat) returns (left: nat, ok: bool)
      modifies val`statusOnSsv
      ensures Polled(StatusOf(val), left, ok) == PollSsv(old(StatusOf(val)), seen, fuel)
    {
      if val.statusOnStafi != Staked {
        return fuel, true;
      }
      if fuel == 0 {
        return 0, false;
      }
      if seen.onboard {
        if val.statusOnSsv != REGISTERED_VALID {
          val.statusOnSsv := REGISTERED_VALID;
        }
      } else if val.statusOnSsv != REMOVED_FROM_SSV {
        val.statusOnSsv := REMOVED_FROM_SSV;
      }
      return fuel - 1, true;
    }

    /** Ask the beacon chain; the validator is cached under its index before its status is looked at. */
    method UpdateOnBeacon(val: Validator, seen: Seen, fuel: nat, ghost indexOf: nat -> nat)
      returns (left: nat, ok: bool)
      requires seen.beacon.There? ==> seen.beacon.index == indexOf(val.keyIndex)
      requires val.keyIndex in keys.byKeyIndex && keys.byKeyIndex[val.keyIndex] == val
      requires Indexed(keys.byKeyIndex, byValIndex, indexOf)
      modifies val`statusOnBeacon, val`validatorIndex, this`byValIndex
      ensures Polled(StatusOf(val), left, ok) == PollBeacon(old(StatusOf(val)), seen, fuel)
      ensures Indexed(keys.byKeyIndex, byValIndex, indexOf)
      ensures ok && val.statusOnStafi == Staked && seen.beacon.There? ==> seen.beacon.index in byValIndex
      ensures old(byValIndex.Keys) <= byValIndex.Keys
    {
      if val.statusOnStafi != Staked {
        return fuel, true;
      }
      if fuel < 2 {
        return 0, false;
      }
      left := fuel - 2;
      match seen.beacon {
        case NotThere =>
          return left, true;
        case There(index, status) =>
          if index == 0 {
            return left, false;
          }
          if index !in byValIndex {
            val.validatorIndex := index;
            byValIndex := byValIndex[index := val];
          }
          match status {
            case PendingInitialized | PendingQueued =>
            case ActiveOngoing | ActiveExiting | ActiveSlashed =>
              val.statusOnBeacon := ACTIVE_ON_BEACON;
            case ExitedUnslashed | ExitedSlashed | WithdrawalPossible | WithdrawalDone =>
              val.statusOnBeacon := EXITED_ON_BEACON;
            case Unsupported =>
              return left, false;
          }
          return left, true;
      }
    }

    /** One turn of the loop. */
    method UpdateOne(val: Validator, seen: Seen, fuel: nat, ghost indexOf: nat -> nat) returns (left: nat, ok: bool)
      requires seen.beacon.There? ==> seen.beacon.index == indexOf(val.keyIndex)
      requires val.keyIndex in keys.byKeyIndex && keys.byKeyIndex[val.keyIndex] == val
      requires Indexed(keys.byKeyIndex, byValIndex, indexOf)
      modifies val, this`byValIndex
      ensures Polled(StatusOf(val), left, ok) == Poll(old(StatusOf(val)), seen, fuel)
      ensures Indexed(keys.byKeyIndex, byValIndex, indexOf)
    {
      if val.statusOnBeacon == EXITED_ON_BEACON && val.statusOnSsv == REMOVED_FROM_SSV {
        return fuel, true;
      }
      left, ok := UpdateOnStafi(val, seen, fuel);
      if !ok {
        return;
      }
      left, ok := UpdateOnSsv(val, seen, left);
      if !ok {
        return;
      }
      left, ok := UpdateOnBeacon(val, seen, left, indexOf);
    }

    /** The loop over the validators: their statuses change as the specification says, in place, and the index cache
        stays sound. `sts` are their statuses before. */
    method UpdateValStatus(seen: nat -> Seen, fuel: nat, ghost sts: seq<ValStatus>, ghost indexOf: nat -> nat)
      returns (ok: bool)
      requires Shows(keys.byKeyIndex, sts) && |sts| == keys.nextKeyIndex
      requires Indexed(keys.byKeyIndex, byValIndex, indexOf) && OneIndex(seen, indexOf)
      modifies keys.byKeyIndex.Values, this`byValIndex
      ensures Shows(keys.byKeyIndex, PollFrom(sts, seen, fuel, 0).sts) && ok == PollFrom(sts, seen, fuel, 0).ok
      ensures Indexed(keys.byKeyIndex, byValIndex, indexOf)
    {
      ghost var now := sts;
      var left := fuel;
      var i := 0;
      while i < keys.nextKeyIndex
        invariant i <= keys.nextKeyIndex && |now| == |sts|
        invariant Shows(keys.byKeyIndex, now) && Indexed(keys.byKeyIndex, byValIndex, indexOf)
        invariant PollFrom(now, seen, left, i) == PollFrom(sts, seen, fuel, 0)
      {
        var val := keys.byKeyIndex[i];
        ghost var r := Poll(now[i], seen(i), left);
        left, ok := UpdateOne(val, seen(i), left, indexOf);
        now := now[i := r.st];
        if !ok {
          return;
        }
        i := i + 1;
      }
      return true;
    }
  }
}
