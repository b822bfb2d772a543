/** Amounts in wei: the usable pool balance, how many validators one batch deposits, how many it stakes, and the limit
    that the gas setting puts on a batch. */
module Budget {
  import opened ValidatorStatus

  const ETH: nat := 1_000_000_000_000_000_000
  const MIN_AMOUNT_NEED_STAKE: nat := 31 * ETH
  const MIN_AMOUNT_NEED_DEPOSIT: nat := 32 * ETH
  const SUPER_NODE_DEPOSIT_AMOUNT: nat := 1 * ETH
  const SUPER_NODE_STAKE_AMOUNT: nat := 31 * ETH

  /** Digits kept by decimal division. */
  const SCALE: nat := 10_000_000_000_000_000

  /** Decimal quotient of two whole numbers, in units of 1/SCALE, rounded half up. */
  function DivScaled(a: nat, b: nat): nat
    requires b > 0
  {
    var q, r := a * SCALE / b, a * SCALE % b;
    if 2 * r < b then q else q + 1
  }

  function IntPart(scaled: nat): nat { scaled / SCALE }

  const TWO_63: nat := 0x8000_0000_0000_0000
  const TWO_64: nat := 0x1_0000_0000_0000_0000

  type Uint64 = x: nat | x < TWO_64

  /** Conversion of an unsigned to a signed 64-bit integer. */
  function ToInt64(x: nat): int
    requires x < TWO_64
  {
    if x < TWO_63 then x else x - TWO_64
  }

  function UsablePoolBalance(pool: nat, reserved: nat): nat { if pool > reserved then pool - reserved else 0 }

  // ---- Gas ----

  const GAS_BASE: nat := 268921
  const GAS_PER_VALIDATOR: nat := 162917

  /** Validators per batch for the gas limit `g / unit`, where `unit` is a power of ten that depends on the digits
      given. A negative quotient loses its sign when it is read back as an unsigned number. */
  function ValidatorsLimitByGas(g: nat, unit: nat): nat
    requires unit > 0
  {
    var base, price := GAS_BASE * unit, GAS_PER_VALIDATOR * unit;
    IntPart(DivScaled(if g >= base then g - base else base - g, price)) % TWO_64
  }

  predicate GasLimitAccepted(g: nat, unit: nat)
    requires unit > 0
  {
    g > 0 && ValidatorsLimitByGas(g, unit) != 0
  }

  /** The quotient is so little short of the next whole number that sixteen digits round it up. */
  predicate RoundsUp(x: nat, b: nat)
    requires b > 0
  {
    2 * SCALE * (b - x % b) <= b
  }

  lemma Times(a: int, b: int, c: nat)
    ensures a <= b ==> a * c <= b * c
    ensures a < b ==> a * c + c <= b * c
  {
    var d := b - a;
    assert b * c == a * c + d * c;
    if 0 < d {
      assert d * c == (d - 1) * c + c;
      assert 0 <= (d - 1) * c;
    }
  }

  lemma Distribute(k: nat, q: nat, b: nat)
    ensures (k * SCALE + q) * b == k * b * SCALE + q * b
  {
  }

  lemma RoundedIntPart(k: nat, q: nat, r: nat, b: nat)
    requires q < SCALE
    ensures IntPart(if 2 * r < b then k * SCALE + q else k * SCALE + q + 1)
      == if q == SCALE - 1 && b <= 2 * r then k + 1 else k
  {
  }

  lemma QuotientIs(a: nat, b: nat, q: nat, r: nat)
    requires b > 0 && a == q * b + r && r < b
    ensures a / b == q && a % b == r
  {
    var k, m := a / b, a % b;
    assert a == k * b + m;
    Times(k, q, b);
    Times(q, k, b);
  }

  lemma ScaledDigits(x: nat, b: nat)
    requires b > 0
    ensures var k, m := x / b, x % b;
      x * SCALE / b == k * SCALE + m * SCALE / b && x * SCALE % b == m * SCALE % b && m * SCALE / b < SCALE
  {
    var k, m := x / b, x % b;
    var q, r := m * SCALE / b, m * SCALE % b;
    assert m * SCALE == q * b + r;
    Distribute(k, q, b);
    assert x == k * b + m;
    assert x * SCALE == k * b * SCALE + m * SCALE;
    QuotientIs(x * SCALE, b, k * SCALE + q, r);
    Times(m, b, SCALE);
    Times(SCALE, q, b);
  }

  lemma RoundsUpExactly(x: nat, b: nat)
    requires b > 0
    ensures RoundsUp(x, b) <==> x % b * SCALE / b == SCALE - 1 && b <= 2 * (x % b * SCALE % b)
  {
    var m := x % b;
    var q, r := m * SCALE / b, m * SCALE % b;
    assert m * SCALE == q * b + r;
    Times(SCALE, q, b);
    Times(q, SCALE - 1, b);
  }

  lemma DivScaledIs(x: nat, b: nat)
    requires b > 0
    ensures var k, q, r := x / b, x % b * SCALE / b, x % b * SCALE % b;
      q < SCALE && DivScaled(x, b) == if 2 * r < b then k * SCALE + q else k * SCALE + q + 1
  {
    ScaledDigits(x, b);
  }

  lemma DecimalQuotient(x: nat, b: nat)
    requires b > 0
    ensures IntPart(DivScaled(x, b)) == if RoundsUp(x, b) then x / b + 1 else x / b
  {
    hide DivScaled, IntPart, RoundsUp;
    DivScaledIs(x, b);
    RoundsUpExactly(x, b);
    RoundedIntPart(x / b, x % b * SCALE / b, x % b * SCALE % b, b);
  }

  /** With up to eleven digits after the point no gas limit is rounded up. */
  lemma ElevenDigitsDoNotRound(x: nat, unit: nat)
    requires 0 < unit <= 100_000_000_000
    ensures !RoundsUp(x, GAS_PER_VALIDATOR * unit)
  {
  }

  /** The gas limit pays for the largest batch it allows. */
  predicate Pays(g: nat, unit: nat)
    requires unit > 0
  {
    (162917 * ValidatorsLimitByGas(g, unit) + 268921) * unit <= g
  }

  lemma CostOf(count: nat, unit: nat)
    ensures (GAS_PER_VALIDATOR * count + GAS_BASE) * unit == count * (GAS_PER_VALIDATOR * unit) + GAS_BASE * unit
  {
  }

  lemma AffordableCount(len: nat, n: nat, k: nat, b: nat, x: nat)
    requires b > 0 && len == n % TWO_64 && k <= n <= k + 1 && k * b <= x < k * b + b
    ensures len * b <= x <==> n == k || k + 1 >= TWO_64
  {
    Times(len, k, b);
    Times(k, len, b);
  }

  lemma PaysExactly(g: nat, unit: nat)
    requires unit > 0 && g >= GAS_BASE * unit
    ensures Pays(g, unit) <==> ValidatorsLimitByGas(g, unit) * (GAS_PER_VALIDATOR * unit) <= g - GAS_BASE * unit
  {
    hide ValidatorsLimitByGas;
    CostOf(ValidatorsLimitByGas(g, unit), unit);
  }

  lemma LargeLimitPays(g: nat, unit: nat)
    requires unit > 0 && g >= GAS_BASE * unit
    ensures var x, b := g - GAS_BASE * unit, GAS_PER_VALIDATOR * unit;
      Pays(g, unit) <==> !RoundsUp(x, b) || x / b + 1 >= TWO_64
  {
    hide IntPart, DivScaled, RoundsUp, Pays;
    var x, b := g - GAS_BASE * unit, GAS_PER_VALIDATOR * unit;
    PaysExactly(g, unit);
    DecimalQuotient(x, b);
    assert x == x / b * b + x % b;
    AffordableCount(ValidatorsLimitByGas(g, unit), IntPart(DivScaled(x, b)), x / b, b, x);
  }

  lemma SmallLimitFails(g: nat, unit: nat)
    requires unit > 0 && g < GAS_BASE * unit
    ensures GasLimitAccepted(g, unit) ==> !Pays(g, unit) && ValidatorsLimitByGas(g, unit) == 1
    ensures GasLimitAccepted(g, unit) <==> 0 < g && 2 * SCALE * g <= (2 * SCALE * 106004 + GAS_PER_VALIDATOR) * unit
  {
    var x, b := GAS_BASE * unit - g, GAS_PER_VALIDATOR * unit;
    DecimalQuotient(x, b);
    assert x < 2 * b && 4 * SCALE * unit <= 2 * SCALE * b;
    if x < b {
      QuotientIs(x, b, 0, x);
    } else {
      QuotientIs(x, b, 1, x - b);
      assert 2 * SCALE * (b - (x - b)) > b;
    }
  }

  /** An accepted gas limit pays for every batch it allows if and only if it is at least the base cost and its count is
      not rounded up, which takes twelve digits after the point; those below the base cost are the ones up to 106004
      and the half of the last digit, and allow one validator that they cannot pay for. */
  lemma GasLimitPaysForBatch(g: nat, unit: nat)
    requires unit > 0 && GasLimitAccepted(g, unit)
    ensures Pays(g, unit) <==>
      && g >= GAS_BASE * unit
      && var x, b := g - GAS_BASE * unit, GAS_PER_VALIDATOR * unit;
         !RoundsUp(x, b) || x / b + 1 >= TWO_64
    ensures unit <= 100_000_000_000 ==> (Pays(g, unit) <==> g >= GAS_BASE * unit)
    ensures g < GAS_BASE * unit <==> 2 * SCALE * g <= (2 * SCALE * 106004 + GAS_PER_VALIDATOR) * unit
    ensures g < GAS_BASE * unit ==> ValidatorsLimitByGas(g, unit) == 1
  {
    if g >= GAS_BASE * unit {
      LargeLimitPays(g, unit);
      if unit <= 100_000_000_000 {
        ElevenDigitsDoNotRound(g - GAS_BASE * unit, unit);
      }
      assert 2 * SCALE * g >= 2 * SCALE * GAS_BASE * unit;
    } else {
      SmallLimitFails(g, unit);
    }
  }

  /** A limit that is accepted and does not pay. */
  lemma SmallGasLimitIsAccepted()
    ensures GasLimitAccepted(100000, 1) && !Pays(100000, 1)
  {
    SmallLimitFails(100000, 1);
  }

  // ---- Deposit batch ----

  /** Size of the deposit batch; negative when a conversion wraps, which makes the allocation after it panic. */
  function DepositLen(balance: nat, existing: nat, superNodeLimit: nat, gasLimitCount: nat): int
    requires superNodeLimit < TWO_64 && gasLimitCount < TWO_64
  {
    var wanted: int := IntPart(DivScaled(balance, MIN_AMOUNT_NEED_DEPOSIT));
    var available := if superNodeLimit > existing then superNodeLimit - existing else 0;
    var bySlots := if wanted > ToInt64(available) then ToInt64(available) else wanted;
    if bySlots > ToInt64(gasLimitCount) then ToInt64(gasLimitCount) else bySlots
  }

  lemma DepositQuotient(balance: nat)
    ensures IntPart(DivScaled(balance, MIN_AMOUNT_NEED_DEPOSIT)) == (balance + 1600) / MIN_AMOUNT_NEED_DEPOSIT
  {
    assert MIN_AMOUNT_NEED_DEPOSIT == 3200 * SCALE;
    var k, m := balance / 3200, balance % 3200;
    assert balance * SCALE == k * MIN_AMOUNT_NEED_DEPOSIT + m * SCALE;
    assert DivScaled(balance, MIN_AMOUNT_NEED_DEPOSIT) == (balance + 1600) / 3200;
    var s := (balance + 1600) / 3200;
    assert s / SCALE == (balance + 1600) / (3200 * SCALE);
  }

  /** The batch never costs more than the balance plus half a unit of the sixteenth decimal, which is 1600 wei; it is
      as large as the balance, the free slots and the gas limit allow; and it fits the super node limit. */
  lemma DepositLenBounds(balance: nat, existing: nat, superNodeLimit: nat, gasLimitCount: nat)
    requires superNodeLimit < TWO_64 && gasLimitCount < TWO_64
    ensures var len := DepositLen(balance, existing, superNodeLimit, gasLimitCount);
      var available := if superNodeLimit > existing then superNodeLimit - existing else 0;
      && 32_000_000_000_000_000_000 * len <= balance + 1600
      && (0 <= len <==> available < TWO_63 && gasLimitCount < TWO_63)
      && (0 < len ==> existing + len <= superNodeLimit && len <= gasLimitCount)
      && (0 <= len ==>
            || len >= balance / 32_000_000_000_000_000_000 || len == available || len == gasLimitCount)
  {
    DepositQuotient(balance);
  }

  /** A super node limit that wraps: 32 ETH would pay for one validator, and the length is negative. */
  lemma WrappingLimitIsNegative()
    ensures DepositLen(32 * ETH, 0, TWO_63, 100) + TWO_63 == 0
  {
    DepositQuotient(32 * ETH);
  }

  /** With a gas limit of at least the base cost and at most eleven digits after the point, the batch's gas stays
      within it. */
  lemma DepositGasWithinLimit(balance: nat, existing: nat, superNodeLimit: nat, g: nat, unit: nat)
    requires superNodeLimit < TWO_64 && 0 < unit <= 100_000_000_000 && GasLimitAccepted(g, unit)
    requires g >= GAS_BASE * unit
    ensures var len := DepositLen(balance, existing, superNodeLimit, ValidatorsLimitByGas(g, unit));
      (162917 * len + 268921) * unit <= g
  {
    var count := ValidatorsLimitByGas(g, unit);
    var len := DepositLen(balance, existing, superNodeLimit, count);
    DepositLenBounds(balance, existing, superNodeLimit, count);
    GasLimitPaysForBatch(g, unit);
    hide DepositLen, ValidatorsLimitByGas;
    assert len <= count;
    Times(GAS_PER_VALIDATOR * len + GAS_BASE, GAS_PER_VALIDATOR * count + GAS_BASE, unit);
  }

  // ---- Stake selection ----

  function CountMatch(view: seq<Stafi>): nat {
    if view == [] then 0 else CountMatch(view[..|view| - 1]) + if view[|view| - 1] == Match then 1 else 0
  }

  /** The selection: how much is left and which indices are chosen, after looking at the validators in key order. */
  function StakeLoop(view: seq<Stafi>, balance: nat): (seq<nat>, nat) {
    if view == [] then ([], balance)
    else
      var (chosen, left) := StakeLoop(view[..|view| - 1], balance);
      if view[|view| - 1] == Match && left >= MIN_AMOUNT_NEED_STAKE then
        (chosen + [|view| - 1], left - SUPER_NODE_STAKE_AMOUNT)
      else (chosen, left)
  }

  method SelectForStake(view: seq<Stafi>, balance: nat) returns (chosen: seq<nat>)
    ensures chosen == StakeLoop(view, balance).0
  {
    chosen := [];
    var left := balance;
    var i := 0;
    while i < |view|
      invariant i <= |view| && (chosen, left) == StakeLoop(view[..i], balance)
    {
      if view[i] == Match && left < MIN_AMOUNT_NEED_STAKE {
        StakeLoopExhausted(view, balance, i);
        return;
      }
      assert view[..i + 1][..i] == view[..i];
      if view[i] == Match {
        chosen := chosen + [i];
        left := left - SUPER_NODE_STAKE_AMOUNT;
      }
      i := i + 1;
    }
    assert view[..|view|] == view;
  }

  lemma {:induction false} StakeLoopExhausted(view: seq<Stafi>, balance: nat, i: nat)
    requires i <= |view| && StakeLoop(view[..i], balance).1 < MIN_AMOUNT_NEED_STAKE
    ensures StakeLoop(view, balance) == StakeLoop(view[..i], balance)
    decreases |view|
  {
    if i == |view| {
      assert view[..i] == view;
    } else {
      var init := view[..|view| - 1];
      assert init[..i] == view[..i];
      StakeLoopExhausted(init, balance, i);
    }
  }

  function Smaller(a: nat, b: nat): nat { if a < b then a else b }

  /** The selection stakes as many matched validators as the balance covers and spends exactly 31 ETH on each. */
  lemma {:induction false} StakeCount(view: seq<Stafi>, balance: nat)
    ensures var (chosen, left) := StakeLoop(view, balance);
      && left + 31_000_000_000_000_000_000 * |chosen| == balance
      && |chosen| == Smaller(CountMatch(view), balance / 31_000_000_000_000_000_000)
      && (|chosen| == CountMatch(view) ==> forall k :: 0 <= k < |view| && view[k] == Match ==> k in chosen)
  {
    if view != [] {
      StakeCount(view[..|view| - 1], balance);
    }
  }

  predicate Increasing(s: seq<nat>) { forall i, j :: 0 <= i < j < |s| ==> s[i] < s[j] }

  lemma PassedOverForLack(view: seq<Stafi>, balance: nat)
    ensures var (chosen, left) := StakeLoop(view, balance);
      left < 31_000_000_000_000_000_000 || forall k :: 0 <= k < |view| && view[k] == Match ==> k in chosen
  {
    StakeCount(view, balance);
  }

  /** It stakes matched validators only, each once, and passes over one only if all those chosen have lower indices. */
  lemma {:induction false} StakeOrder(view: seq<Stafi>, balance: nat)
    ensures var chosen := StakeLoop(view, balance).0;
      && Increasing(chosen)
      && (forall k :: k in chosen ==> k < |view| && view[k] == Match)
      && (forall k, i :: 0 <= k < |view| && view[k] == Match && k !in chosen && i in chosen ==> i < k)
  {
    if view != [] {
      var init := view[..|view| - 1];
      StakeOrder(init, balance);
      PassedOverForLack(init, balance);
      var (before, left) := StakeLoop(init, balance);
      assert forall i :: 0 <= i < |before| ==> before[i] in before;
    }
  }
}
