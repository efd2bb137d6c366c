/** Fee escalation of the transaction retry loop: scaled estimates, the carry-over
    of the previous attempt's fees, and what the two guarantee together. */
module GasFees {
  import opened Wrappers

  const PRECISION := 10

  datatype Fees = Fees(maxFeePerGas: nat, maxPriorityFeePerGas: nat)

  /** The gas multiplier of an attempt, in exact tenths. */
  function MultiplierTenths(attempt: nat, rateTenths: nat): nat {
    if attempt == 0 then PRECISION else PRECISION + attempt * rateTenths
  }

  function Scale(fee: nat, tenths: nat): nat { fee * tenths / PRECISION }

  function CalculateAdjustedGasPrices(tenths: nat, estimate: Fees): Fees {
    Fees(Scale(estimate.maxFeePerGas, tenths), Scale(estimate.maxPriorityFeePerGas, tenths))
  }

  function CalculateIncreasedGasFees(previous: Fees, current: Fees): Fees {
    Fees(if previous.maxFeePerGas > current.maxFeePerGas then previous.maxFeePerGas + 1 else current.maxFeePerGas,
         if previous.maxPriorityFeePerGas > current.maxPriorityFeePerGas
         then previous.maxPriorityFeePerGas else current.maxPriorityFeePerGas)
  }

  /** Carried-over fees count only when both are truthy, that is non-zero. */
  function NextFees(previous: Option<Fees>, current: Fees): Fees {
    if previous.Some? && previous.value.maxFeePerGas != 0 && previous.value.maxPriorityFeePerGas != 0
    then CalculateIncreasedGasFees(previous.value, current)
    else current
  }

  predicate AtLeast(a: Fees, b: Fees) {
    a.maxFeePerGas >= b.maxFeePerGas && a.maxPriorityFeePerGas >= b.maxPriorityFeePerGas
  }

  /** The estimate of each attempt; None where reading it throws. */
  type Estimates = nat -> Option<Fees>

  /** The scaled estimate attempt `k` works with. */
  function Scaled(estimates: Estimates, rateTenths: nat, k: nat): Option<Fees> {
    match estimates(k)
    case None => None
    case Some(e) => Some(CalculateAdjustedGasPrices(MultiplierTenths(k, rateTenths), e))
  }

  /** The fees the retry options hold after the first `n` attempts. */
  function FeesAfter(estimates: Estimates, rateTenths: nat, n: nat): Option<Fees> {
    if n == 0 then None
    else
      match Scaled(estimates, rateTenths, n - 1)
      case None => FeesAfter(estimates, rateTenths, n - 1)
      case Some(current) => Some(NextFees(FeesAfter(estimates, rateTenths, n - 1), current))
  }

  // ------------------------------------------------------------- the retry loop

  datatype AttemptOutcome = Confirmed | RetryableError | FatalError

  datatype SubmitResult = Receipt | MaxRetriesReached | Failed | UnexpectedEnd

  class RetryOptions {
    var maxFeePerGas: Option<nat>
    var maxPriorityFeePerGas: Option<nat>

    constructor ()
      ensures Carried() == None
    {
      maxFeePerGas, maxPriorityFeePerGas := None, None;
    }

    function Carried(): Option<Fees>
      reads this
    {
      if maxFeePerGas.Some? && maxPriorityFeePerGas.Some?
      then Some(Fees(maxFeePerGas.value, maxPriorityFeePerGas.value))
      else None
    }

    /** Sets the fees of one attempt; a failed estimate leaves them as they were. */
    method Escalate(current: Fees) returns (fees: Fees)
      modifies this
      ensures fees == NextFees(old(Carried()), current)
      ensures Carried() == Some(fees)
    {
      fees := current;
      if maxFeePerGas.Some? && maxPriorityFeePerGas.Some?
         && maxFeePerGas.value != 0 && maxPriorityFeePerGas.value != 0 {
        fees := CalculateIncreasedGasFees(Fees(maxFeePerGas.value, maxPriorityFeePerGas.value), current);
      }
      maxFeePerGas := Some(fees.maxFeePerGas);
      maxPriorityFeePerGas := Some(fees.maxPriorityFeePerGas);
    }
  }

  /** The attempt loop: it goes on exactly while attempts fail with a retryable
      error and retries are left, and the fees it ends with are those of
      `FeesAfter`. An estimate that throws counts as that attempt's error. */
  method SubmitWithRetries(estimates: Estimates, outcome: nat -> AttemptOutcome, rateTenths: nat, maxRetries: nat)
    returns (r: SubmitResult, attempts: nat, lastFees: Option<Fees>)
    requires forall k :: estimates(k).None? ==> outcome(k) != Confirmed
    ensures attempts <= maxRetries && (maxRetries > 0 ==> attempts > 0)
    ensures forall k :: 0 <= k < attempts - 1 ==> outcome(k) == RetryableError
    ensures r == if maxRetries == 0 then UnexpectedEnd
                 else if outcome(attempts - 1) == Confirmed then Receipt
                 else if attempts == maxRetries then MaxRetriesReached
                 else Failed
    ensures r == Failed ==> outcome(attempts - 1) == FatalError
    ensures lastFees == FeesAfter(estimates, rateTenths, attempts)
  {
    var retryOptions := new RetryOptions();
    attempts := 0;
    lastFees := None;
    while attempts < maxRetries
      invariant attempts <= maxRetries
      invariant attempts < maxRetries || maxRetries == 0
      invariant forall k :: 0 <= k < attempts ==> outcome(k) == RetryableError
      invariant retryOptions.Carried() == lastFees == FeesAfter(estimates, rateTenths, attempts)
    {
      var attempt := attempts;
      attempts := attempts + 1;
      var current := Scaled(estimates, rateTenths, attempt);
      if current.Some? {
        var fees := retryOptions.Escalate(current.value);
        lastFees := Some(fees);
      }
      match outcome(attempt) {
        case Confirmed =>
          return Receipt, attempts, lastFees;
        case RetryableError =>
          if attempt == maxRetries - 1 {
            return MaxRetriesReached, attempts, lastFees;
          }
        case FatalError =>
          if attempt == maxRetries - 1 {
            return MaxRetriesReached, attempts, lastFees;
          }
          return Failed, attempts, lastFees;
      }
    }
    return UnexpectedEnd, attempts, lastFees;
  }

  // -------------------------------------------------- the escalation invariant

  /** The running maximum of the scaled estimates, component by component. */
  function RunningMax(estimates: Estimates, rateTenths: nat, n: nat): Option<Fees> {
    if n == 0 then None
    else
      var before := RunningMax(estimates, rateTenths, n - 1);
      match Scaled(estimates, rateTenths, n - 1)
      case None => before
      case Some(e) =>
        if before.None? then Some(e)
        else Some(Fees(if e.maxFeePerGas > before.value.maxFeePerGas then e.maxFeePerGas else before.value.maxFeePerGas,
                       if e.maxPriorityFeePerGas > before.value.maxPriorityFeePerGas
                       then e.maxPriorityFeePerGas else before.value.maxPriorityFeePerGas))
  }

  ghost predicate PositiveEstimates(estimates: Estimates, n: nat) {
    forall k: nat :: k < n && estimates(k).Some? ==>
      estimates(k).value.maxFeePerGas > 0 && estimates(k).value.maxPriorityFeePerGas > 0
  }

  /** A scaled fee is the exact product of fee and multiplier, rounded down to a whole wei. */
  lemma ScaleRoundsDown(fee: nat, tenths: nat)
    ensures 10 * Scale(fee, tenths) <= fee * tenths < 10 * (Scale(fee, tenths) + 1)
  {
  }

  lemma ScaleBounds(fee: nat, tenths: nat)
    requires tenths >= PRECISION
    ensures Scale(fee, tenths) >= fee
  {
    assert fee * tenths >= fee * PRECISION;
  }

  lemma ScaleMonotone(a: nat, b: nat, s: nat, t: nat)
    requires a <= b && s <= t
    ensures Scale(a, s) <= Scale(b, t)
  {
    assert a * s <= b * s <= b * t;
  }

  /** Over all attempts, for positive estimates in any order: the priority fee is
      the running maximum of the scaled estimates, the max fee is at least that
      maximum and exceeds it by at most one per earlier attempt. */
  lemma {:induction false} EscalationInvariant(estimates: Estimates, rateTenths: nat, n: nat)
    requires PositiveEstimates(estimates, n)
    ensures FeesAfter(estimates, rateTenths, n).Some? <==> RunningMax(estimates, rateTenths, n).Some?
    ensures FeesAfter(estimates, rateTenths, n).Some? ==>
      var fees, max := FeesAfter(estimates, rateTenths, n).value, RunningMax(estimates, rateTenths, n).value;
      && fees.maxPriorityFeePerGas == max.maxPriorityFeePerGas > 0
      && 0 < max.maxFeePerGas <= fees.maxFeePerGas <= max.maxFeePerGas + (n - 1)
  {
    if n > 0 {
      EscalationInvariant(estimates, rateTenths, n - 1);
      if estimates(n - 1).Some? {
        var e := estimates(n - 1).value;
        ScaleBounds(e.maxFeePerGas, MultiplierTenths(n - 1, rateTenths));
        ScaleBounds(e.maxPriorityFeePerGas, MultiplierTenths(n - 1, rateTenths));
      }
    }
  }

  /** What one attempt does to the carried fees, after any attempts before it: a lower
      estimate still raises the max fee, by exactly one, so that it stays where it is
      only if the scaled estimate equals it; the priority fee is the higher of the two. */
  lemma AttemptRaises(estimates: Estimates, rateTenths: nat, n: nat)
    requires PositiveEstimates(estimates, n + 1) && estimates(n).Some? && FeesAfter(estimates, rateTenths, n).Some?
    ensures var before, after := FeesAfter(estimates, rateTenths, n).value, FeesAfter(estimates, rateTenths, n + 1);
      var scaled := Scaled(estimates, rateTenths, n).value;
      && after.Some?
      && (after.value.maxFeePerGas > before.maxFeePerGas <==> scaled.maxFeePerGas != before.maxFeePerGas)
      && after.value.maxFeePerGas >= scaled.maxFeePerGas
      && (scaled.maxFeePerGas < before.maxFeePerGas ==> after.value.maxFeePerGas == before.maxFeePerGas + 1)
      && (scaled.maxFeePerGas >= before.maxFeePerGas ==> after.value.maxFeePerGas == scaled.maxFeePerGas)
      && after.value.maxPriorityFeePerGas >= scaled.maxPriorityFeePerGas
      && after.value.maxPriorityFeePerGas >= before.maxPriorityFeePerGas
      && after.value.maxPriorityFeePerGas in {scaled.maxPriorityFeePerGas, before.maxPriorityFeePerGas}
  {
    EscalationInvariant(estimates, rateTenths, n);
  }

  /** Neither fee ever falls from one attempt to a later one. */
  lemma {:induction false} FeesNeverFall(estimates: Estimates, rateTenths: nat, m: nat, n: nat)
    requires m <= n && PositiveEstimates(estimates, n) && FeesAfter(estimates, rateTenths, m).Some?
    ensures FeesAfter(estimates, rateTenths, n).Some?
    ensures AtLeast(FeesAfter(estimates, rateTenths, n).value, FeesAfter(estimates, rateTenths, m).value)
    decreases n
  {
    if m < n {
      FeesNeverFall(estimates, rateTenths, m, n - 1);
      EscalationInvariant(estimates, rateTenths, n - 1);
    }
  }

  /** The fee-validity rule of EIP-1559 (section "Specification"), that the max fee
      is not below the priority fee, carries over from the estimates. */
  lemma {:induction false} FeesStayValid(estimates: Estimates, rateTenths: nat, n: nat)
    requires PositiveEstimates(estimates, n)
    requires forall k: nat :: k < n && estimates(k).Some? ==>
               estimates(k).value.maxFeePerGas >= estimates(k).value.maxPriorityFeePerGas
    ensures FeesAfter(estimates, rateTenths, n).Some? ==>
      var fees := FeesAfter(estimates, rateTenths, n).value;
      fees.maxFeePerGas >= fees.maxPriorityFeePerGas
  {
    if n > 0 {
      FeesStayValid(estimates, rateTenths, n - 1);
      if estimates(n - 1).Some? {
        var e, t := estimates(n - 1).value, MultiplierTenths(n - 1, rateTenths);
        ScaleMonotone(e.maxPriorityFeePerGas, e.maxFeePerGas, t, t);
      }
    }
  }

  /** Without positivity one attempt may lower a fee, and this is exactly when it
      does not: the carried fees are both non-zero, or the new ones are no lower. */
  lemma FeesKeptIff(previous: Fees, current: Fees)
    ensures AtLeast(NextFees(Some(previous), current), previous)
       <==> (previous.maxFeePerGas > 0 && previous.maxPriorityFeePerGas > 0) || AtLeast(current, previous)
  {
  }

  /** A zero priority fee voids the carry-over: the max fee falls from 90 to 39. */
  lemma ZeroPriorityLowersMaxFee()
    ensures var estimates := (k: nat) => Some(if k == 0 then Fees(90, 0) else Fees(30, 0));
      && FeesAfter(estimates, 3, 1) == Some(Fees(90, 0))
      && FeesAfter(estimates, 3, 2) == Some(Fees(39, 0))
  {
    var estimates := (k: nat) => Some(if k == 0 then Fees(90, 0) else Fees(30, 0));
    assert FeesAfter(estimates, 3, 0) == None;
    assert Scaled(estimates, 3, 0) == Some(Fees(90, 0));
    assert Scaled(estimates, 3, 1) == Some(Fees(39, 0));
  }

  // ------------------------------------------------------ the replacement bump

  /** `after` is at least ten per cent above `before`. */
  predicate TenPercentAbove(after: nat, before: nat) { 10 * after >= 11 * before }

  /** Raising the multiplier from `tenths` by `rate` survives floor division as a
      ten per cent rise once the fee is large enough for the two. */
  lemma ScaleBump(a: nat, b: nat, tenths: nat, rate: nat)
    requires a <= b && a * (10 * rate - tenths) >= 90
    ensures TenPercentAbove(Scale(b, tenths + rate), Scale(a, tenths))
  {
    ScaleMonotone(a, b, tenths + rate, tenths + rate);
    var x, y := a * tenths, a * (tenths + rate);
    assert y == x + a * rate;
    assert a * (10 * rate - tenths) == 10 * (a * rate) - x;
    assert 10 * Scale(a, tenths + rate) >= y - 9;
    assert 10 * Scale(a, tenths) <= x;
  }

  /** On whole multiples of ten wei floor division is exact, and the rise is ten
      per cent if and only if the multiplier is at most ten times the rate. */
  lemma ScaleBumpIff(q: nat, tenths: nat, rate: nat)
    requires q > 0
    ensures TenPercentAbove(Scale(10 * q, tenths + rate), Scale(10 * q, tenths)) <==> tenths <= 10 * rate
  {
    ScaleOfTens(q, tenths);
    ScaleOfTens(q, tenths + rate);
    assert q * (tenths + rate) == q * tenths + q * rate;
    assert q * (10 * rate) == 10 * (q * rate);
    ProductOrder(q, tenths, 10 * rate);
  }

  lemma ScaleOfTens(q: nat, tenths: nat)
    ensures Scale(10 * q, tenths) == q * tenths
  {
    assert 10 * q * tenths == 10 * (q * tenths);
  }

  lemma {:induction false} ProductOrder(q: nat, a: nat, b: nat)
    requires q > 0
    ensures q * a <= q * b <==> a <= b
  {
    if q > 1 {
      ProductOrder(q - 1, a, b);
      assert q * a == (q - 1) * a + a;
      assert q * b == (q - 1) * b + b;
    }
  }

  ghost predicate NonFalling(estimates: Estimates, n: nat) {
    && (forall k: nat :: k < n ==> estimates(k).Some?)
    && (forall k: nat :: k + 1 < n ==> AtLeast(estimates(k + 1).value, estimates(k).value))
  }

  lemma {:induction false} RisingFeesAreEstimates(estimates: Estimates, rateTenths: nat, n: nat)
    requires n > 0 && NonFalling(estimates, n)
    ensures FeesAfter(estimates, rateTenths, n) == Scaled(estimates, rateTenths, n - 1)
    decreases n
  {
    assert estimates(n - 1).Some?;
    if n > 1 {
      RisingFeesAreEstimates(estimates, rateTenths, n - 1);
      var a, b := estimates(n - 2).value, estimates(n - 1).value;
      assert n - 2 + 1 < n;
      assert AtLeast(estimates(n - 2 + 1).value, a);
      MultiplierStep(n - 2, rateTenths);
      var s, t := MultiplierTenths(n - 2, rateTenths), MultiplierTenths(n - 1, rateTenths);
      ScaleMonotone(a.maxFeePerGas, b.maxFeePerGas, s, t);
      ScaleMonotone(a.maxPriorityFeePerGas, b.maxPriorityFeePerGas, s, t);
    }
  }

  /** The multiplier starts at one and grows by the rate with each attempt. */
  lemma MultiplierStep(k: nat, rateTenths: nat)
    ensures MultiplierTenths(0, rateTenths) == 10
    ensures MultiplierTenths(k + 1, rateTenths) == MultiplierTenths(k, rateTenths) + rateTenths
  {
    assert (k + 1) * rateTenths == k * rateTenths + rateTenths;
  }

  /** The retry after `n` attempts raises both fees by at least ten per cent. */
  predicate RetryBumps(estimates: Estimates, rateTenths: nat, n: nat) {
    var before, after := FeesAfter(estimates, rateTenths, n), FeesAfter(estimates, rateTenths, n + 1);
    && before.Some? && after.Some?
    && TenPercentAbove(after.value.maxFeePerGas, before.value.maxFeePerGas)
    && TenPercentAbove(after.value.maxPriorityFeePerGas, before.value.maxPriorityFeePerGas)
  }

  /** On non-falling estimates a retry bumps exactly if scaling alone does. */
  lemma RetryBumpsIff(estimates: Estimates, rateTenths: nat, n: nat)
    requires n > 0 && NonFalling(estimates, n + 1)
    ensures var a, b, t := estimates(n - 1).value, estimates(n).value, MultiplierTenths(n - 1, rateTenths);
      RetryBumps(estimates, rateTenths, n)
      <==> (&& TenPercentAbove(Scale(b.maxFeePerGas, t + rateTenths), Scale(a.maxFeePerGas, t))
            && TenPercentAbove(Scale(b.maxPriorityFeePerGas, t + rateTenths), Scale(a.maxPriorityFeePerGas, t)))
  {
    RisingFeesAreEstimates(estimates, rateTenths, n);
    RisingFeesAreEstimates(estimates, rateTenths, n + 1);
    MultiplierStep(n - 1, rateTenths);
  }

  /** Real replacement bump: every retry raises both fees by at least ten per cent
      despite floor division, if the estimates do not fall and are large enough for
      the multiplier. */
  lemma EveryRetryBumps(estimates: Estimates, rateTenths: nat, n: nat)
    requires n > 0 && NonFalling(estimates, n + 1)
    requires var e, d := estimates(n - 1).value, 10 * rateTenths - MultiplierTenths(n - 1, rateTenths);
      e.maxFeePerGas * d >= 90 && e.maxPriorityFeePerGas * d >= 90
    ensures RetryBumps(estimates, rateTenths, n)
  {
    RetryBumpsIff(estimates, rateTenths, n);
    var a, b := estimates(n - 1).value, estimates(n).value;
    assert AtLeast(estimates(n - 1 + 1).value, a);
    var t := MultiplierTenths(n - 1, rateTenths);
    ScaleBump(a.maxFeePerGas, b.maxFeePerGas, t, rateTenths);
    ScaleBump(a.maxPriorityFeePerGas, b.maxPriorityFeePerGas, t, rateTenths);
  }

  /** The multiplier tenths 10, 13, 16, 19, 22 of five attempts: four wei suffice. */
  lemma FiveAttemptsBump(estimates: Estimates, n: nat)
    requires 0 < n < 5 && NonFalling(estimates, n + 1) && AtLeast(estimates(n - 1).value, Fees(4, 4))
    ensures RetryBumps(estimates, 3, n)
  {
    RetryBumpsIff(estimates, 3, n);
    var a, b := estimates(n - 1).value, estimates(n).value;
    assert AtLeast(estimates(n - 1 + 1).value, a);
    FourWeiBump(a.maxFeePerGas, b.maxFeePerGas, MultiplierTenths(n - 1, 3));
    FourWeiBump(a.maxPriorityFeePerGas, b.maxPriorityFeePerGas, MultiplierTenths(n - 1, 3));
  }

  lemma FourWeiBump(a: nat, b: nat, tenths: nat)
    requires 4 <= a <= b && tenths in {10, 13, 16, 19}
    ensures TenPercentAbove(Scale(b, tenths + 3), Scale(a, tenths))
  {
    if a >= 9 {
      AtLeastProduct(a, 30 - tenths);
      ScaleBump(a, b, tenths, 3);
    } else {
      ScaleMonotone(a, b, tenths + 3, tenths + 3);
    }
  }

  /** And fewer do not: for a constant positive estimate all four retries bump if and
      only if it is at least four wei. */
  lemma ConstantEstimateBumpsIff(fee: nat)
    requires fee > 0
    ensures var estimates := (k: nat) => Some(Fees(fee, fee));
      (forall n :: 0 < n < 5 ==> RetryBumps(estimates, 3, n)) <==> fee >= 4
  {
    var estimates := (k: nat) => Some(Fees(fee, fee));
    RetryBumpsIff(estimates, 3, 1);
    if fee >= 4 {
      forall n | 0 < n < 5
        ensures RetryBumps(estimates, 3, n)
      {
        FiveAttemptsBump(estimates, n);
      }
    } else {
      assert MultiplierTenths(0, 3) == 10;
      assert !RetryBumps(estimates, 3, 1);
    }
  }

  lemma AtLeastProduct(x: nat, d: int)
    requires x >= 9 && d >= 11
    ensures x * d >= 90
  {
    assert x * d >= 9 * d;
  }
}
