/** Fixed-ratio position sizing. The trade size starts at 0.01 lots and grows
    by 0.01 lots each time the account has earned `delta` more per extra
    hundredth: with n hundredths the account must hold
    `minRequired + delta * (1 + 2 + ... + n)`. The size returned is the first
    n whose requirement exceeds the balance, searched for at most 10000 steps.
    Sizes are counted in hundredths of a lot, so the search is exact. */
module PositionSizer {
  import opened Wrappers

  /** Bound of the search loop. */
  const MaxIterations: nat := 10000

  /** The panel's risk-management parameters, fixed when the panel is built. */
  datatype RiskConfig = RiskConfig(delta: real, riskPercentage: real, maxDrawdown: real)

  /** A double that may be infinite or NaN. Only `maxDrawdown / riskPercentage`
      can leave the finite range, when `riskPercentage` is zero. */
  datatype Threshold = Finite(value: real) | PositiveInfinity | NegativeInfinity | NotANumber

  /** `maxDrawdown / riskPercentage` with the IEEE outcomes of a zero divisor. */
  function MinRequiredBalance(c: RiskConfig): (t: Threshold)
    ensures t.Finite? <==> c.riskPercentage != 0.0
    ensures t.Finite? ==> t.value * c.riskPercentage == c.maxDrawdown
    ensures t == PositiveInfinity <==> c.riskPercentage == 0.0 && c.maxDrawdown > 0.0
    ensures t == NegativeInfinity <==> c.riskPercentage == 0.0 && c.maxDrawdown < 0.0
  {
    if c.riskPercentage != 0.0 then Finite(c.maxDrawdown / c.riskPercentage)
    else if c.maxDrawdown > 0.0 then PositiveInfinity
    else if c.maxDrawdown < 0.0 then NegativeInfinity
    else NotANumber
  }

  /** `balance < t`; every comparison with NaN is false. */
  predicate IsBelow(balance: real, t: Threshold)
  {
    match t
    case Finite(m) => balance < m
    case PositiveInfinity => true
    case NegativeInfinity => false
    case NotANumber => false
  }

  /** `t > balance`. */
  predicate Exceeds(t: Threshold, balance: real)
  {
    match t
    case Finite(m) => m > balance
    case PositiveInfinity => true
    case NegativeInfinity => false
    case NotANumber => false
  }

  /** `t + x` for a finite `x`: infinities and NaN absorb it. */
  function Add(t: Threshold, x: real): Threshold
  {
    match t
    case Finite(m) => Finite(m + x)
    case _ => t
  }

  /** A size of `hundredths` hundredths of a lot, in lots. */
  function LotsToReal(hundredths: nat): (lots: real)
    ensures lots * 100.0 == hundredths as real
  {
    hundredths as real / 100.0
  }

  /** 1 + 2 + ... + n. */
  function Triangle(n: nat): nat
  {
    if n == 0 then 0 else Triangle(n - 1) + n
  }

  lemma {:induction false} TriangleClosedForm(n: nat)
    ensures 2 * Triangle(n) == n * (n + 1)
  {
    if n > 0 {
      TriangleClosedForm(n - 1);
      assert 2 * Triangle(n) == (n - 1) * n + 2 * n;
    }
  }

  lemma {:induction false} TriangleMonotone(i: nat, j: nat)
    requires i <= j
    ensures Triangle(i) <= Triangle(j)
    decreases j
  {
    if i < j {
      TriangleMonotone(i, j - 1);
    }
  }

  /** The balance the account needs for a size of n hundredths, in closed
      form: `minRequired + delta * n * (n + 1) / 2`. */
  function RunningBalance(minRequired: real, delta: real, n: nat): real
  {
    minRequired + delta * ((n * (n + 1)) as real / 2.0)
  }

  /** The running balance of the search after n steps, started from `t`. */
  function Cumulative(t: Threshold, delta: real, n: nat): Threshold
  {
    match t
    case Finite(m) => Finite(m + delta * Triangle(n) as real)
    case _ => t
  }

  lemma CumulativeClosedForm(m: real, delta: real, n: nat)
    ensures Cumulative(Finite(m), delta, n) == Finite(RunningBalance(m, delta, n))
  {
    TriangleClosedForm(n);
    assert (n * (n + 1)) as real == 2.0 * Triangle(n) as real;
  }

  /** One step of the search adds `lots * 100 * delta` for the size reached. */
  lemma CumulativeStep(t: Threshold, delta: real, n: nat)
    ensures Cumulative(t, delta, n + 1) == Add(Cumulative(t, delta, n), LotsToReal(n + 1) * 100.0 * delta)
  {
    if t.Finite? {
      assert LotsToReal(n + 1) * 100.0 * delta == (n + 1) as real * delta;
      assert Triangle(n + 1) as real == Triangle(n) as real + (n + 1) as real;
      assert delta * Triangle(n + 1) as real == delta * Triangle(n) as real + (n + 1) as real * delta;
    }
  }

  /** Size n (in hundredths) is one the search may stop at: within the loop
      bound, and its running balance exceeds the account balance. */
  predicate Qualifies(t: Threshold, delta: real, balance: real, n: nat)
  {
    1 <= n <= MaxIterations && Exceeds(Cumulative(t, delta, n), balance)
  }

  lemma {:induction false} LeastQualifyingExists(t: Threshold, delta: real, balance: real, k: nat)
    requires Qualifies(t, delta, balance, k)
    ensures exists n: nat :: Qualifies(t, delta, balance, n) && forall j: nat :: j < n ==> !Qualifies(t, delta, balance, j)
    decreases k
  {
    if exists j: nat :: j < k && Qualifies(t, delta, balance, j) {
      var j: nat :| j < k && Qualifies(t, delta, balance, j);
      LeastQualifyingExists(t, delta, balance, j);
    }
  }

  /** The smallest qualifying size. */
  ghost function LeastQualifying(t: Threshold, delta: real, balance: real): (n: nat)
    requires exists k: nat :: Qualifies(t, delta, balance, k)
    ensures Qualifies(t, delta, balance, n)
    ensures forall j: nat :: j < n ==> !Qualifies(t, delta, balance, j)
  {
    var k: nat :| Qualifies(t, delta, balance, k);
    LeastQualifyingExists(t, delta, balance, k);
    var n: nat :| Qualifies(t, delta, balance, n) && forall j: nat :: j < n ==> !Qualifies(t, delta, balance, j);
    n
  }

  /** What the sizer returns, in hundredths of a lot: 0 when the balance is
      below `maxDrawdown / riskPercentage`, otherwise the least size whose
      running balance exceeds the account balance, and None (the source's
      null) when no size up to the loop bound does. */
  ghost function FixedRatioLots(balance: real, c: RiskConfig): Option<nat>
  {
    var t := MinRequiredBalance(c);
    if IsBelow(balance, t) then Some(0)
    else if exists n: nat :: Qualifies(t, c.delta, balance, n) then Some(LeastQualifying(t, c.delta, balance))
    else None
  }

  /** The search itself: `lots` starts at one hundredth and grows by one
      hundredth per step, the running balance by `lots * 100 * delta`. */
  method GetFixedRatioLots(currentBalance: real, c: RiskConfig) returns (lots: Option<nat>)
    ensures lots == FixedRatioLots(currentBalance, c)
  {
    var minRequiredBalance := MinRequiredBalance(c);
    if IsBelow(currentBalance, minRequiredBalance) {
      return Some(0);
    }
    var cummulativeBalance := minRequiredBalance;
    var hundredths: nat := 1;
    var i: nat := 0;
    while i < MaxIterations
      invariant i <= MaxIterations
      invariant hundredths == i + 1
      invariant cummulativeBalance == Cumulative(minRequiredBalance, c.delta, i)
      invariant forall j: nat :: j <= i ==> !Qualifies(minRequiredBalance, c.delta, currentBalance, j)
    {
      CumulativeStep(minRequiredBalance, c.delta, i);
      cummulativeBalance := Add(cummulativeBalance, LotsToReal(hundredths) * 100.0 * c.delta);
      if Exceeds(cummulativeBalance, currentBalance) {
        assert Qualifies(minRequiredBalance, c.delta, currentBalance, hundredths);
        ghost var least := LeastQualifying(minRequiredBalance, c.delta, currentBalance);
        assert !(least < hundredths) && !(hundredths < least);
        return Some(hundredths);
      }
      hundredths := hundredths + 1;
      i := i + 1;
    }
    assert forall n: nat :: !Qualifies(minRequiredBalance, c.delta, currentBalance, n);
    return None;
  }

  /** The sizer answers 0 exactly when the balance is below
      `maxDrawdown / riskPercentage`; a balance equal to it enters the search
      and never gets 0. With a zero risk percentage the quotient is +inf
      (positive drawdown: always 0), or -inf or NaN (never 0). */
  lemma ZeroLotsIffBelowMinimum(balance: real, c: RiskConfig)
    ensures c.riskPercentage != 0.0 ==>
      (FixedRatioLots(balance, c) == Some(0) <==> balance < c.maxDrawdown / c.riskPercentage)
    ensures c.riskPercentage == 0.0 ==>
      (FixedRatioLots(balance, c) == Some(0) <==> c.maxDrawdown > 0.0)
  {
  }

  /** A size other than 0 is between 0.01 and 100.00 lots. */
  lemma LotsWithinBounds(balance: real, c: RiskConfig)
    requires FixedRatioLots(balance, c).Some?
    ensures FixedRatioLots(balance, c).value <= MaxIterations
    ensures FixedRatioLots(balance, c).value != 0 ==>
      0.01 <= LotsToReal(FixedRatioLots(balance, c).value) <= 100.0
  {
  }

  /** In closed form: from the minimum balance up, the size is the least n in
      1..10000 with `min + delta * n * (n + 1) / 2 > balance`. */
  lemma LeastLotsClosedForm(balance: real, c: RiskConfig, n: nat)
    requires c.riskPercentage != 0.0
    requires balance >= c.maxDrawdown / c.riskPercentage
    ensures FixedRatioLots(balance, c) == Some(n) <==>
      && 1 <= n <= MaxIterations
      && RunningBalance(MinRequiredBalance(c).value, c.delta, n) > balance
      && forall j: nat :: 1 <= j < n ==> RunningBalance(MinRequiredBalance(c).value, c.delta, j) <= balance
  {
    var m := c.maxDrawdown / c.riskPercentage;
    forall j: nat
      ensures Qualifies(Finite(m), c.delta, balance, j) <==>
        1 <= j <= MaxIterations && RunningBalance(m, c.delta, j) > balance
    {
      CumulativeClosedForm(m, c.delta, j);
    }
    if FixedRatioLots(balance, c) == Some(n) {
      assert n == LeastQualifying(Finite(m), c.delta, balance);
    }
    if && 1 <= n <= MaxIterations
       && RunningBalance(m, c.delta, n) > balance
       && forall j: nat :: 1 <= j < n ==> RunningBalance(m, c.delta, j) <= balance
    {
      assert Qualifies(Finite(m), c.delta, balance, n);
      var least := LeastQualifying(Finite(m), c.delta, balance);
      assert !(least < n) && !(n < least);
    }
  }

  /** A larger balance never gets a smaller size. */
  lemma LotsMonotoneInBalance(b1: real, b2: real, c: RiskConfig)
    requires b1 <= b2
    requires FixedRatioLots(b1, c).Some? && FixedRatioLots(b2, c).Some?
    ensures FixedRatioLots(b1, c).value <= FixedRatioLots(b2, c).value
  {
    var t := MinRequiredBalance(c);
    if !IsBelow(b1, t) {
      assert !IsBelow(b2, t);
      var n2 := LeastQualifying(t, c.delta, b2);
      assert Qualifies(t, c.delta, b1, n2);
      assert !(n2 < LeastQualifying(t, c.delta, b1));
    }
  }

  /** Once the search fails for a balance it fails for every larger one. */
  lemma FailureUpwardClosed(b1: real, b2: real, c: RiskConfig)
    requires b1 <= b2
    requires FixedRatioLots(b1, c) == None
    ensures FixedRatioLots(b2, c) == None
  {
    var t := MinRequiredBalance(c);
    if exists n: nat :: Qualifies(t, c.delta, b2, n) {
      var n: nat :| Qualifies(t, c.delta, b2, n);
      assert Qualifies(t, c.delta, b1, n);
    }
  }

  /** With `delta <= 0` the running balance never grows, so from the minimum
      balance up the search always runs out. */
  lemma NonPositiveDeltaFails(balance: real, c: RiskConfig)
    requires c.delta <= 0.0
    requires c.riskPercentage != 0.0
    requires balance >= c.maxDrawdown / c.riskPercentage
    ensures FixedRatioLots(balance, c) == None
  {
    var m := c.maxDrawdown / c.riskPercentage;
    forall n: nat ensures !Qualifies(Finite(m), c.delta, balance, n) {
      assert c.delta * Triangle(n) as real <= 0.0;
    }
  }

  /** With a zero risk percentage the quotient is infinite or NaN: a positive
      drawdown always sizes 0, any other never leaves the loop. */
  lemma ZeroRiskPercentage(balance: real, c: RiskConfig)
    requires c.riskPercentage == 0.0
    ensures FixedRatioLots(balance, c) == if c.maxDrawdown > 0.0 then Some(0) else None
  {
  }

  /** With `delta > 0` the running balance grows with every step. */
  lemma RunningBalanceMonotone(m: real, delta: real, i: nat, j: nat)
    requires delta > 0.0
    requires i <= j
    ensures RunningBalance(m, delta, i) <= RunningBalance(m, delta, j)
  {
    TriangleMonotone(i, j);
    CumulativeClosedForm(m, delta, i);
    CumulativeClosedForm(m, delta, j);
    assert delta * Triangle(i) as real <= delta * Triangle(j) as real;
  }

  /** With `delta > 0` the search fails exactly when the balance reaches the
      running balance of the last step, `min + delta * 50005000`. */
  lemma PositiveDeltaSucceedsIff(balance: real, c: RiskConfig)
    requires c.delta > 0.0
    requires c.riskPercentage != 0.0
    requires balance >= c.maxDrawdown / c.riskPercentage
    ensures FixedRatioLots(balance, c).Some? <==>
      balance < c.maxDrawdown / c.riskPercentage + c.delta * 50005000.0
  {
    var m := c.maxDrawdown / c.riskPercentage;
    var t := Finite(m);
    var top := MaxIterations;
    CumulativeClosedForm(m, c.delta, top);
    assert RunningBalance(m, c.delta, top) == m + c.delta * 50005000.0;
    if exists n: nat :: Qualifies(t, c.delta, balance, n) {
      var n: nat :| Qualifies(t, c.delta, balance, n);
      CumulativeClosedForm(m, c.delta, n);
      RunningBalanceMonotone(m, c.delta, n, top);
    } else {
      assert !Qualifies(t, c.delta, balance, top);
    }
  }

  /** The panel's default parameters (delta 50, risk 2%, drawdown 10) need a
      balance of 500; a balance of 1000 sizes 0.05 lots, because
      500 + 50 * (1 + 2 + 3 + 4) = 1000 does not exceed it and adding the
      fifth step does. */
  lemma DefaultParametersExample()
    ensures FixedRatioLots(1000.0, RiskConfig(50.0, 0.02, 10.0)) == Some(5)
    ensures FixedRatioLots(499.0, RiskConfig(50.0, 0.02, 10.0)) == Some(0)
  {
    var c := RiskConfig(50.0, 0.02, 10.0);
    var t := MinRequiredBalance(c);
    assert t == Finite(500.0);
    assert Triangle(5) == 15;
    assert Qualifies(t, c.delta, 1000.0, 5);
    forall j: nat | j < 5 ensures !Qualifies(t, c.delta, 1000.0, j) {
      TriangleMonotone(j, 4);
      assert Triangle(4) == 10;
    }
    var least := LeastQualifying(t, c.delta, 1000.0);
    assert !(least < 5) && !(5 < least);
  }
}
