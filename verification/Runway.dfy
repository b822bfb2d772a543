/** How much a cluster is topped up and how long that lasts. Amounts are in the smallest token unit, periods in
    blocks. */
module Runway {
  import opened Wrappers
  import opened Placement

  const BLOCKS_OF_ONE_YEAR: nat := 2629800

  function TotalFee(ids: seq<nat>, ops: Operators): Option<nat> {
    if ids == [] then Some(0)
    else
      var rest, id := TotalFee(ids[..|ids| - 1], ops), ids[|ids| - 1];
      if rest.None? || id !in ops then None else Some(rest.value + ops[id].fee)
  }

  /** Balance wanted for a cluster of `n` validators and one more, for a year and a liquidation period. */
  function MaxExpected(n: nat, fee: nat, ltp: nat): nat {
    var wanted := (n + 1) * fee * (BLOCKS_OF_ONE_YEAR + ltp);
    if wanted < MinExpected(n, fee, ltp) then MinExpected(n, fee, ltp) else wanted
  }

  function MinExpected(n: nat, fee: nat, ltp: nat): nat { (n + 1) * fee * (ltp * 2) }

  /** The amount that must, and the amount that may, be deposited. */
  function NeedDeposit(balance: nat, n: nat, fee: nat, ltp: nat): (nat, nat) {
    var max := MaxExpected(n, fee, ltp);
    if balance >= max then (0, 0)
    else if balance >= MinExpected(n, fee, ltp) then (0, max - balance)
    else (max - balance, max - balance)
  }

  method CalClusterNeedDepositAmount(
    ids: seq<nat>, ops: Operators, networkFee: nat, balance: nat, managing: nat, ltp: nat)
    returns (r: Option<(nat, nat)>)
    ensures var fees := TotalFee(ids, ops);
      r == if fees.None? then None else Some(NeedDeposit(balance, managing, fees.value + networkFee, ltp))
    ensures r.Some? <==> AllKnown(ids, ops)
    ensures r.Some? ==>
      Lasts(balance + r.value.1, managing + 1, ids, ops, networkFee, 2629800 + ltp)
  {
    MaxLasts(balance, managing, ids, ops, networkFee, ltp);
    var totalOpFee := 0;
    for i := 0 to |ids|
      invariant TotalFee(ids[..i], ops) == Some(totalOpFee)
    {
      assert ids[..i + 1][..i] == ids[..i];
      if ids[i] !in ops {
        UnknownOperatorFails(ids, ops, i);
        return None;
      }
      totalOpFee := totalOpFee + ops[ids[i]].fee;
    }
    assert ids[..|ids|] == ids;
    totalOpFee := totalOpFee + networkFee;
    var valAmount := managing + 1;
    var maxExpected := valAmount * totalOpFee * (BLOCKS_OF_ONE_YEAR + ltp);
    var minExpected := valAmount * totalOpFee * (ltp * 2);
    if maxExpected < minExpected {
      maxExpected := minExpected;
    }
    if balance >= maxExpected {
      return Some((0, 0));
    }
    if balance >= minExpected {
      return Some((0, maxExpected - balance));
    }
    return Some((maxExpected - balance, maxExpected - balance));
  }

  lemma {:induction false} UnknownOperatorFails(ids: seq<nat>, ops: Operators, i: nat)
    requires i < |ids| && ids[i] !in ops
    ensures TotalFee(ids, ops) == None
  {
    if i < |ids| - 1 {
      UnknownOperatorFails(ids[..|ids| - 1], ops, i);
    }
  }

  /** The periodic check asks for a deposit. */
  predicate TopUpDue(balance: nat, n: nat, fee: nat, ltp: nat) { NeedDeposit(balance, n, fee, ltp).0 > 0 }

  /** What `n` validators burn in `t` blocks. */
  function Burned(n: nat, fee: nat, t: nat): nat { n * fee * t }

  lemma TopUpDueExactly(balance: nat, n: nat, fee: nat, ltp: nat)
    ensures TopUpDue(balance, n, fee, ltp) <==> balance < MinExpected(n, fee, ltp)
  {
  }

  lemma Products(n: nat, fee: nat, ltp: nat, m: nat, t: nat)
    requires ltp <= BLOCKS_OF_ONE_YEAR
    ensures MaxExpected(n, fee, ltp) == ((n + 1) * (BLOCKS_OF_ONE_YEAR + ltp)) * fee
    ensures MinExpected(n, fee, ltp) == ((n + 1) * (ltp * 2)) * fee
    ensures Burned(m, fee, t) == (m * t) * fee
  {
    assert (n + 1) * fee * (BLOCKS_OF_ONE_YEAR + ltp) == ((n + 1) * (BLOCKS_OF_ONE_YEAR + ltp)) * fee;
    assert (n + 1) * fee * (BLOCKS_OF_ONE_YEAR + ltp) >= (n + 1) * fee * (ltp * 2);
  }

  lemma Scaled(a: nat, b: nat, c: nat, fee: nat)
    requires b <= a && fee > 0
    ensures b * fee <= a * fee
    ensures a * fee - b * fee < c * fee <==> a < b + c
  {
    assert a * fee - b * fee == (a - b) * fee;
    if a - b < c {
      assert (c - (a - b)) * fee > 0;
    } else {
      assert (a - b - c) * fee >= 0;
    }
  }

  /** From a balance of a year plus the liquidation period for `n` validators, `m` of which burn, the next top-up is
      due exactly when the blocks left no longer carry `k` validators and one more for twice the period. */
  lemma DueAfter(n: nat, m: nat, k: nat, fee: nat, ltp: nat, t: nat)
    requires fee > 0 && ltp <= BLOCKS_OF_ONE_YEAR && m * t <= (n + 1) * (BLOCKS_OF_ONE_YEAR + ltp)
    ensures Burned(m, fee, t) <= MaxExpected(n, fee, ltp)
    ensures TopUpDue(MaxExpected(n, fee, ltp) - Burned(m, fee, t), k, fee, ltp) <==>
      (n + 1) * (BLOCKS_OF_ONE_YEAR + ltp) < m * t + (k + 1) * (ltp * 2)
  {
    Products(n, fee, ltp, m, t);
    Products(k, fee, ltp, m, t);
    Scaled((n + 1) * (BLOCKS_OF_ONE_YEAR + ltp), m * t, (k + 1) * (ltp * 2), fee);
    TopUpDueExactly(MaxExpected(n, fee, ltp) - Burned(m, fee, t), k, fee, ltp);
  }

  lemma NoFeeNoTopUp(balance: nat, n: nat, ltp: nat)
    ensures !TopUpDue(balance, n, 0, ltp)
  {
    assert (n + 1) * 0 * (ltp * 2) == 0;
  }

  lemma MoreIsNotDue(a: nat, b: nat, n: nat, fee: nat, ltp: nat)
    requires a <= b && !TopUpDue(a, n, fee, ltp)
    ensures !TopUpDue(b, n, fee, ltp)
  {
    TopUpDueExactly(a, n, fee, ltp);
    TopUpDueExactly(b, n, fee, ltp);
  }

  /** Onboarding runway: after registering with the larger amount, the enlarged cluster asks for nothing for a year
      less three liquidation periods. */
  lemma OnboardRunway(balance: nat, n: nat, fee: nat, ltp: nat, t: nat)
    requires 3 * ltp + t <= BLOCKS_OF_ONE_YEAR
    ensures var funded := balance + NeedDeposit(balance, n, fee, ltp).1;
      && Burned(n + 1, fee, t) <= funded
      && !TopUpDue(funded - Burned(n + 1, fee, t), n + 1, fee, ltp)
  {
    var funded := balance + NeedDeposit(balance, n, fee, ltp).1;
    var max := MaxExpected(n, fee, ltp);
    assert funded >= max;
    if fee > 0 {
      assert (n + 1) * (BLOCKS_OF_ONE_YEAR + ltp) - (n + 1) * t == (n + 1) * (BLOCKS_OF_ONE_YEAR + ltp - t);
      assert (n + 1) * (BLOCKS_OF_ONE_YEAR + ltp - t) >= (n + 1) * (4 * ltp);
      assert (n + 1) * (4 * ltp) == (2 * n + 2) * (ltp * 2) >= (n + 2) * (ltp * 2);
      DueAfter(n, n + 1, n + 1, fee, ltp, t);
      MoreIsNotDue(max - Burned(n + 1, fee, t), funded - Burned(n + 1, fee, t), n + 1, fee, ltp);
    } else {
      assert (n + 1) * 0 * t == 0;
      NoFeeNoTopUp(funded, n + 1, ltp);
    }
  }

  /** The bound is met with equality: a first validator in an empty cluster asks one block later. */
  lemma OnboardRunwayIsTight(balance: nat, fee: nat, ltp: nat)
    requires fee > 0 && 0 < 3 * ltp <= BLOCKS_OF_ONE_YEAR && balance <= MaxExpected(0, fee, ltp)
    ensures var funded := balance + NeedDeposit(balance, 0, fee, ltp).1;
      var t := BLOCKS_OF_ONE_YEAR - 3 * ltp + 1;
      Burned(1, fee, t) <= funded && TopUpDue(funded - Burned(1, fee, t), 1, fee, ltp)
  {
    DueAfter(0, 1, 1, fee, ltp, BLOCKS_OF_ONE_YEAR - 3 * ltp + 1);
  }

  lemma BlocksLeft(n: nat, ltp: nat, t: nat)
    requires ltp + t <= BLOCKS_OF_ONE_YEAR
    ensures n * t + (n + 1) * (ltp * 2) <= (n + 1) * (BLOCKS_OF_ONE_YEAR + ltp)
  {
    assert n * t <= (n + 1) * t;
    assert (n + 1) * t + (n + 1) * (ltp * 2) == (n + 1) * (t + ltp * 2);
    assert (n + 1) * (t + ltp * 2) <= (n + 1) * (BLOCKS_OF_ONE_YEAR + ltp);
  }

  /** Top-up runway: a top-up settles the check at once, and lasts a year less one liquidation period. */
  lemma TopUpRunway(balance: nat, n: nat, fee: nat, ltp: nat, t: nat)
    requires TopUpDue(balance, n, fee, ltp)
    ensures var funded := balance + NeedDeposit(balance, n, fee, ltp).0;
      && NeedDeposit(funded, n, fee, ltp) == (0, 0)
      && (ltp + t <= BLOCKS_OF_ONE_YEAR ==>
            Burned(n, fee, t) <= funded && !TopUpDue(funded - Burned(n, fee, t), n, fee, ltp))
  {
    var funded := balance + NeedDeposit(balance, n, fee, ltp).0;
    assert funded == MaxExpected(n, fee, ltp);
    if ltp + t <= BLOCKS_OF_ONE_YEAR {
      if fee == 0 {
        NoFeeNoTopUp(balance, n, ltp);
      }
      BlocksLeft(n, ltp, t);
      DueAfter(n, n, n, fee, ltp, t);
    }
  }

  // ---- The network's side ----

  ghost predicate AllKnown(ids: seq<nat>, ops: Operators) { forall id :: id in ids ==> id in ops }

  /** In one block every operator of the cluster takes its own fee for each of the `n` validators. */
  ghost function PayOperators(balance: int, n: nat, ids: seq<nat>, ops: Operators): int
    requires AllKnown(ids, ops)
  {
    if ids == [] then balance
    else PayOperators(balance, n, ids[..|ids| - 1], ops) - n * ops[ids[|ids| - 1]].fee
  }

  /** What is left after `t` blocks, in each of which the operators and then the network have been paid. */
  ghost function AfterBlocks(balance: int, n: nat, ids: seq<nat>, ops: Operators, networkFee: nat, t: nat): int
    requires AllKnown(ids, ops)
  {
    if t == 0 then balance
    else PayOperators(AfterBlocks(balance, n, ids, ops, networkFee, t - 1), n, ids, ops) - n * networkFee
  }

  /** The network can be paid in every block up to the `upTo`-th. */
  ghost predicate Lasts(balance: int, n: nat, ids: seq<nat>, ops: Operators, networkFee: nat, upTo: nat)
    requires AllKnown(ids, ops)
  {
    forall t: nat :: t <= upTo ==> 0 <= AfterBlocks(balance, n, ids, ops, networkFee, t)
  }

  lemma {:induction false} FeesAreKnown(ids: seq<nat>, ops: Operators)
    ensures TotalFee(ids, ops).Some? <==> AllKnown(ids, ops)
  {
    if ids != [] {
      FeesAreKnown(ids[..|ids| - 1], ops);
      assert ids == ids[..|ids| - 1] + [ids[|ids| - 1]];
    }
  }

  lemma {:induction false} PaidExactly(balance: int, n: nat, ids: seq<nat>, ops: Operators)
    requires AllKnown(ids, ops) && TotalFee(ids, ops).Some?
    ensures PayOperators(balance, n, ids, ops) == balance - n * TotalFee(ids, ops).value
  {
    if ids != [] {
      PaidExactly(balance, n, ids[..|ids| - 1], ops);
      var rest, fee := TotalFee(ids[..|ids| - 1], ops).value, ops[ids[|ids| - 1]].fee;
      assert n * (rest + fee) == n * rest + n * fee;
    }
  }

  lemma {:induction false} BlockBurns(n: nat, fee: nat, t: nat)
    requires t > 0
    ensures Burned(n, fee, t) == Burned(n, fee, t - 1) + n * fee
  {
  }

  /** The client's charge is what the network takes. */
  lemma {:induction false} ChargedExactly(balance: int, n: nat, ids: seq<nat>, ops: Operators, networkFee: nat, t: nat)
    requires AllKnown(ids, ops) && TotalFee(ids, ops).Some?
    ensures AfterBlocks(balance, n, ids, ops, networkFee, t)
      == balance - Burned(n, TotalFee(ids, ops).value + networkFee, t)
  {
    var fee := TotalFee(ids, ops).value;
    if t > 0 {
      ChargedExactly(balance, n, ids, ops, networkFee, t - 1);
      PaidExactly(AfterBlocks(balance, n, ids, ops, networkFee, t - 1), n, ids, ops);
      BlockBurns(n, fee + networkFee, t);
      assert n * (fee + networkFee) == n * fee + n * networkFee;
    } else {
      assert Burned(n, fee + networkFee, 0) == 0;
    }
  }

  lemma MaxCovers(n: nat, m: nat, fee: nat, ltp: nat, t: nat)
    requires m <= n + 1 && t <= BLOCKS_OF_ONE_YEAR + ltp
    ensures Burned(m, fee, t) <= MaxExpected(n, fee, ltp)
  {
    var year := BLOCKS_OF_ONE_YEAR + ltp;
    assert m * fee <= (n + 1) * fee;
    assert m * fee * t <= m * fee * year <= (n + 1) * fee * year;
  }

  lemma FundedToMax(balance: nat, n: nat, fee: nat, ltp: nat)
    ensures var (min, max) := NeedDeposit(balance, n, fee, ltp);
      balance + max >= MaxExpected(n, fee, ltp) && (min > 0 ==> min == max)
  {
  }

  /** Onboarding, charged by the network: with the larger amount the enlarged cluster keeps a whole liquidation period
      of charges for 2629800 blocks, and asks for nothing for as many less three periods. */
  lemma OnboardSurvives(balance: nat, n: nat, ids: seq<nat>, ops: Operators, networkFee: nat, ltp: nat, t: nat)
    requires AllKnown(ids, ops) && TotalFee(ids, ops).Some?
    ensures var fee := TotalFee(ids, ops).value + networkFee;
      var funded := balance + NeedDeposit(balance, n, fee, ltp).1;
      && (t <= 2629800 + ltp ==> 0 <= AfterBlocks(funded, n + 1, ids, ops, networkFee, t))
      && (3 * ltp + t <= 2629800 ==>
            var left := AfterBlocks(funded, n + 1, ids, ops, networkFee, t);
            0 <= left && NeedDeposit(left, n + 1, fee, ltp).0 == 0)
  {
    var fee := TotalFee(ids, ops).value + networkFee;
    var funded := balance + NeedDeposit(balance, n, fee, ltp).1;
    FundedToMax(balance, n, fee, ltp);
    ChargedExactly(funded, n + 1, ids, ops, networkFee, t);
    if t <= 2629800 + ltp {
      MaxCovers(n, n + 1, fee, ltp, t);
    }
    if 3 * ltp + t <= 2629800 {
      OnboardRunway(balance, n, fee, ltp, t);
    }
  }

  lemma MaxLasts(balance: nat, n: nat, ids: seq<nat>, ops: Operators, networkFee: nat, ltp: nat)
    ensures TotalFee(ids, ops).Some? <==> AllKnown(ids, ops)
    ensures AllKnown(ids, ops) ==>
      var fee := TotalFee(ids, ops).value + networkFee;
      Lasts(balance + NeedDeposit(balance, n, fee, ltp).1, n + 1, ids, ops, networkFee, 2629800 + ltp)
  {
    FeesAreKnown(ids, ops);
    if AllKnown(ids, ops) {
      var funded := balance + NeedDeposit(balance, n, TotalFee(ids, ops).value + networkFee, ltp).1;
      var m := n + 1;
      forall t: nat | t <= 2629800 + ltp ensures 0 <= AfterBlocks(funded, m, ids, ops, networkFee, t) {
        OnboardSurvives(balance, n, ids, ops, networkFee, ltp, t);
      }
    }
  }

  /** A top-up, charged by the network: the cluster keeps a whole liquidation period of charges for 2629800 blocks, and
      asks for nothing for as many less one period. */
  lemma TopUpSurvives(balance: nat, n: nat, ids: seq<nat>, ops: Operators, networkFee: nat, ltp: nat, t: nat)
    requires AllKnown(ids, ops) && TotalFee(ids, ops).Some?
    requires NeedDeposit(balance, n, TotalFee(ids, ops).value + networkFee, ltp).0 > 0
    ensures var fee := TotalFee(ids, ops).value + networkFee;
      var funded := balance + NeedDeposit(balance, n, fee, ltp).0;
      && (t <= 2629800 + ltp ==> 0 <= AfterBlocks(funded, n, ids, ops, networkFee, t))
      && (ltp + t <= 2629800 ==>
            var left := AfterBlocks(funded, n, ids, ops, networkFee, t);
            0 <= left && NeedDeposit(left, n, fee, ltp).0 == 0)
  {
    var fee := TotalFee(ids, ops).value + networkFee;
    var funded := balance + NeedDeposit(balance, n, fee, ltp).0;
    FundedToMax(balance, n, fee, ltp);
    ChargedExactly(funded, n, ids, ops, networkFee, t);
    if t <= 2629800 + ltp {
      MaxCovers(n, n, fee, ltp, t);
    }
    TopUpRunway(balance, n, fee, ltp, t);
  }

  /** Four operators that take 100 each and a network that takes 10: an empty cluster is asked for 410 a block. */
  lemma FourOperators(ids: seq<nat>, ops: Operators)
    requires |ids| == 4 && forall id :: id in ids ==> id in ops && ops[id].fee == 100
    ensures TotalFee(ids, ops) == Some(400)
    ensures NeedDeposit(0, 0, 400 + 10, 1000) == (410 * 2630800, 410 * 2630800)
  {
    var a := ids[..3];
    var b := a[..2];
    var d := b[..1];
    assert d[..0] == [];
    assert ids[3] in ids && a[2] == ids[2] && b[1] == ids[1] && d[0] == ids[0];
    assert TotalFee(d, ops) == Some(100);
    assert TotalFee(b, ops) == Some(200);
    assert TotalFee(a, ops) == Some(300);
  }
}
