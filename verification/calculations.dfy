/** The per-loan amortisation engine: monthly interest, months to payoff,
    total interest and payoff date, all built on one balance step. */
module Calculations {
  import opened Maybe
  import opened RealMath
  import opened Loans

  /** A balance at or below this counts as paid off (floating-point residue). */
  const Tolerance: real := 0.01

  /** Simulation cap: 50 years of monthly periods. Reaching it yields the cap
      itself, not `NeverPayoff`. */
  const MaxMonths: nat := 600

  /** `number` restricted to what months-to-payoff returns: a count or `Infinity`. */
  datatype PayoffResult = Payoff(months: nat) | NeverPayoff

  /** `interestRate / 100 / 12`: the monthly fraction charged on the balance. */
  function MonthlyRate(loan: Loan): real {
    loan.interestRate / 100.0 / 12.0
  }

  /** One month of the simple-interest model: interest accrues on the balance,
      the payment covers it first, and the balance never goes below zero. */
  function Step(loan: Loan, balance: real): (next: real)
    ensures next >= 0.0
  {
    var interest := balance * MonthlyRate(loan);
    var principalPayment := loan.monthlyPayment - interest;
    Max(0.0, balance - principalPayment)
  }

  /** `Step` applied `k` times. */
  function Iter(loan: Loan, balance: real, k: nat): real {
    if k == 0 then balance else Step(loan, Iter(loan, balance, k - 1))
  }

  /** The balance after `k` turns of a replay loop guarded by `balance > 0`:
      once the balance is not positive it stays where it is. */
  function Replay(loan: Loan, balance: real, k: nat): (r: real)
    ensures balance >= 0.0 ==> r >= 0.0
  {
    if k == 0 then balance
    else
      var prev := Replay(loan, balance, k - 1);
      if prev > 0.0 then Step(loan, prev) else prev
  }

  /** The `balance > 0` guard never matters when the payment is not negative. */
  lemma {:induction false} ReplayIsIter(loan: Loan, balance: real, k: nat)
    requires loan.monthlyPayment >= 0.0 && balance >= 0.0
    ensures Replay(loan, balance, k) == Iter(loan, balance, k) >= 0.0
  {
    if k > 0 {
      ReplayIsIter(loan, balance, k - 1);
    }
  }

  /** Interest of one month on the current balance; zero for a non-positive
      rate or balance. */
  function MonthlyInterest(loan: Loan): (interest: real)
    ensures interest >= 0.0
    ensures interest == 0.0 <==> loan.interestRate <= 0.0 || loan.currentBalance <= 0.0
    ensures interest > 0.0 ==> interest == loan.currentBalance * MonthlyRate(loan)
  {
    if loan.interestRate <= 0.0 || loan.currentBalance <= 0.0 then 0.0
    else loan.currentBalance * loan.interestRate / 100.0 / 12.0
  }

  /** The payment does not exceed the first month's interest: the balance can
      never come down. */
  predicate NeverPaysOff(loan: Loan) {
    && loan.monthlyPayment > 0.0
    && loan.currentBalance > 0.0
    && loan.interestRate > 0.0
    && loan.monthlyPayment <= loan.currentBalance * MonthlyRate(loan)
  }

  /** Positive rate and balance, and a payment above the first month's interest. */
  predicate Amortizing(loan: Loan) {
    && loan.currentBalance > 0.0
    && loan.interestRate > 0.0
    && loan.monthlyPayment > loan.currentBalance * MonthlyRate(loan)
  }

  /** What the first month's payment takes off the principal. */
  function FirstPrincipal(loan: Loan): real {
    loan.monthlyPayment - loan.currentBalance * MonthlyRate(loan)
  }

  /** `n` is where the capped simulation stops: every earlier balance is still
      above the tolerance, and either the cap is reached or the balance after
      `n` months is within the tolerance. */
  ghost predicate SettlesAt(loan: Loan, n: nat) {
    && n <= MaxMonths
    && (forall k :: 0 <= k < n ==> Iter(loan, loan.currentBalance, k) > Tolerance)
    && (n == MaxMonths || Iter(loan, loan.currentBalance, n) <= Tolerance)
  }

  /** The simulation loop, from `balance` after `months` iterations. */
  function PayoffLoop(loan: Loan, balance: real, months: nat): (r: PayoffResult)
    ensures r.Payoff? && months <= MaxMonths ==> months <= r.months <= MaxMonths
    ensures r.Payoff? && r.months > months ==> balance > Tolerance
    ensures r.NeverPayoff? ==> balance > Tolerance && months < MaxMonths
    decreases MaxMonths - months
  {
    if !(balance > Tolerance && months < MaxMonths) then Payoff(months)
    else if loan.monthlyPayment - balance * MonthlyRate(loan) <= 0.0 then NeverPayoff
    else PayoffLoop(loan, Step(loan, balance), months + 1)
  }

  /** In the amortising case the balance never rises above where it started,
      so every month's principal portion stays positive. */
  lemma {:induction false} IterStaysWithinBalance(loan: Loan, k: nat)
    requires Amortizing(loan)
    ensures 0.0 <= Iter(loan, loan.currentBalance, k) <= loan.currentBalance
    ensures loan.monthlyPayment - Iter(loan, loan.currentBalance, k) * MonthlyRate(loan) > 0.0
  {
    if k > 0 {
      IterStaysWithinBalance(loan, k - 1);
    }
    MulLeRight(Iter(loan, loan.currentBalance, k), loan.currentBalance, MonthlyRate(loan));
  }

  /** The loop never reaches its in-loop `Infinity` exit in the amortising case,
      and it stops exactly where `SettlesAt` says. */
  lemma {:induction false} PayoffLoopSettles(loan: Loan, m: nat)
    requires Amortizing(loan)
    requires m <= MaxMonths
    requires forall k :: 0 <= k < m ==> Iter(loan, loan.currentBalance, k) > Tolerance
    ensures PayoffLoop(loan, Iter(loan, loan.currentBalance, m), m).Payoff?
    ensures SettlesAt(loan, PayoffLoop(loan, Iter(loan, loan.currentBalance, m), m).months)
    decreases MaxMonths - m
  {
    if Iter(loan, loan.currentBalance, m) > Tolerance && m < MaxMonths {
      PayoffLoopUnfold(loan, m);
      PayoffLoopSettles(loan, m + 1);
    }
  }

  /** In the amortising case one more round of the loop is one more `Step`. */
  lemma PayoffLoopUnfold(loan: Loan, m: nat)
    requires Amortizing(loan)
    requires m < MaxMonths && Iter(loan, loan.currentBalance, m) > Tolerance
    ensures PayoffLoop(loan, Iter(loan, loan.currentBalance, m), m)
            == PayoffLoop(loan, Iter(loan, loan.currentBalance, m + 1), m + 1)
  {
    IterStaysWithinBalance(loan, m);
  }

  /** Months until the balance is paid off. */
  function MonthsToPayoff(loan: Loan): (r: PayoffResult)
    ensures loan.monthlyPayment <= 0.0 || loan.currentBalance <= 0.0 ==> r == Payoff(0)
    ensures r.NeverPayoff? <==> NeverPaysOff(loan)
    ensures loan.interestRate <= 0.0 && loan.monthlyPayment > 0.0 && loan.currentBalance > 0.0 ==>
              r == Payoff(Ceil(loan.currentBalance / loan.monthlyPayment))
    ensures Amortizing(loan) ==> r.Payoff? && SettlesAt(loan, r.months)
  {
    if loan.monthlyPayment <= 0.0 || loan.currentBalance <= 0.0 then Payoff(0)
    else if loan.interestRate <= 0.0 then
      Payoff(Ceil(loan.currentBalance / loan.monthlyPayment))
    else
      var monthlyRate := loan.interestRate / 100.0 / 12.0;
      var firstMonthInterest := loan.currentBalance * monthlyRate;
      if loan.monthlyPayment <= firstMonthInterest then NeverPayoff
      else
        PayoffLoopSettles(loan, 0);
        PayoffLoop(loan, loan.currentBalance, 0)
  }

  /** Without interest the months to payoff are the least count of payments
      that covers the balance. */
  lemma ZeroRatePayoff(loan: Loan)
    requires loan.interestRate <= 0.0 && loan.monthlyPayment > 0.0 && loan.currentBalance > 0.0
    ensures MonthsToPayoff(loan).Payoff?
    ensures (MonthsToPayoff(loan).months as real - 1.0) * loan.monthlyPayment < loan.currentBalance
    ensures loan.currentBalance <= MonthsToPayoff(loan).months as real * loan.monthlyPayment
  {
    CeilDivBounds(loan.currentBalance, loan.monthlyPayment);
  }

  /** The interest-summing replay: `remaining` more months, stopping early
      once the balance is not positive. */
  function InterestLoop(loan: Loan, balance: real, remaining: nat): (total: real)
    ensures MonthlyRate(loan) >= 0.0 ==> total >= 0.0
    decreases remaining
  {
    if remaining > 0 && balance > 0.0 then
      balance * MonthlyRate(loan) + InterestLoop(loan, Step(loan, balance), remaining - 1)
    else 0.0
  }

  /** Reference definition: the interest of months `0 .. k-1` of the schedule
      `Iter(currentBalance, j)`. */
  function InterestSum(loan: Loan, k: nat): real {
    if k == 0 then 0.0
    else InterestSum(loan, k - 1) + Iter(loan, loan.currentBalance, k - 1) * MonthlyRate(loan)
  }

  /** Interest paid until payoff under the current payment; zero when there is
      no interest, nothing owed, or no payoff. */
  function TotalInterest(loan: Loan): (total: real)
    ensures total >= 0.0
    ensures loan.interestRate <= 0.0 || loan.currentBalance <= 0.0 || NeverPaysOff(loan) ==> total == 0.0
    ensures MonthsToPayoff(loan) == Payoff(0) ==> total == 0.0
  {
    if loan.interestRate <= 0.0 || loan.currentBalance <= 0.0 then 0.0
    else
      match MonthsToPayoff(loan)
      case NeverPayoff => 0.0
      case Payoff(n) => if n <= 0 then 0.0 else InterestLoop(loan, loan.currentBalance, n)
  }

  /** The replay from month `j` adds up exactly the reference terms of months
      `j .. j+k-1` while the balance stays positive. */
  lemma {:induction false} InterestLoopIsSum(loan: Loan, j: nat, k: nat)
    requires forall i :: j <= i < j + k ==> Iter(loan, loan.currentBalance, i) > 0.0
    ensures InterestSum(loan, j) + InterestLoop(loan, Iter(loan, loan.currentBalance, j), k)
            == InterestSum(loan, j + k)
    decreases k
  {
    if k > 0 {
      var b := Iter(loan, loan.currentBalance, j);
      InterestLoopUnfold(loan, b, k);
      assert Iter(loan, loan.currentBalance, j + 1) == Step(loan, b);
      assert InterestSum(loan, j + 1) == InterestSum(loan, j) + b * MonthlyRate(loan);
      InterestLoopIsSum(loan, j + 1, k - 1);
    }
  }

  lemma InterestLoopUnfold(loan: Loan, b: real, k: nat)
    requires k > 0 && b > 0.0
    ensures InterestLoop(loan, b, k) == b * MonthlyRate(loan) + InterestLoop(loan, Step(loan, b), k - 1)
  {
  }

  /** Each month's interest lies between zero and the first month's interest. */
  lemma {:induction false} InterestSumBounds(loan: Loan, k: nat)
    requires Amortizing(loan)
    ensures 0.0 <= InterestSum(loan, k) <= Times(k, loan.currentBalance * MonthlyRate(loan))
  {
    if k > 0 {
      var first := loan.currentBalance * MonthlyRate(loan);
      var term := Iter(loan, loan.currentBalance, k - 1) * MonthlyRate(loan);
      var sum := InterestSum(loan, k - 1);
      assert InterestSum(loan, k) == sum + term;
      assert Times(k, first) == Times(k - 1, first) + first;
      assert 0.0 <= sum <= Times(k - 1, first) by {
        InterestSumBounds(loan, k - 1);
      }
      assert 0.0 <= term <= first by {
        InterestTermBounds(loan, k - 1);
      }
      AddBounds(sum, term, Times(k - 1, first), first);
    }
  }

  /** The interest of month `k` lies between zero and the first month's interest. */
  lemma InterestTermBounds(loan: Loan, k: nat)
    requires Amortizing(loan)
    ensures 0.0 <= Iter(loan, loan.currentBalance, k) * MonthlyRate(loan)
                <= loan.currentBalance * MonthlyRate(loan)
  {
    var b := Iter(loan, loan.currentBalance, k);
    IterStaysWithinBalance(loan, k);
    MulLeRight(0.0, b, MonthlyRate(loan));
    MulLeRight(b, loan.currentBalance, MonthlyRate(loan));
  }

  /** Total interest is the sum of the monthly interest on the schedule's
      balances, over exactly the months to payoff. */
  lemma TotalInterestIsInterestSum(loan: Loan)
    requires Amortizing(loan)
    ensures TotalInterest(loan) == InterestSum(loan, MonthsToPayoff(loan).months)
  {
    var n := MonthsToPayoff(loan).months;
    assert forall i :: 0 <= i < n ==> Iter(loan, loan.currentBalance, i) > 0.0 by {
      assert SettlesAt(loan, n);
    }
    InterestLoopIsSum(loan, 0, n);
  }

  /** Every month before payoff charges some interest, and less than the
      payment, so the total lies strictly between zero and the `n` payments made. */
  lemma TotalInterestBelowPayments(loan: Loan, n: nat)
    requires Amortizing(loan) && MonthsToPayoff(loan) == Payoff(n) && n > 0
    ensures 0.0 < TotalInterest(loan) < n as real * loan.monthlyPayment
  {
    TotalInterestIsInterestSum(loan);
    InterestSumBelowPayments(loan, n);
  }

  /** Each of `k > 0` months charges some interest, and less than the payment. */
  lemma InterestSumBelowPayments(loan: Loan, k: nat)
    requires Amortizing(loan) && k > 0
    ensures 0.0 < InterestSum(loan, k) < k as real * loan.monthlyPayment
  {
    var fi := loan.currentBalance * MonthlyRate(loan);
    InterestSumBounds(loan, k);
    InterestSumPositive(loan, k);
    TimesStrictlyMonotonic(k, fi, loan.monthlyPayment);
    TimesIsMul(k, loan.monthlyPayment);
  }

  lemma {:induction false} InterestSumPositive(loan: Loan, k: nat)
    requires Amortizing(loan) && k > 0
    ensures InterestSum(loan, k) > 0.0
  {
    if k > 1 {
      InterestSumPositive(loan, k - 1);
      IterStaysWithinBalance(loan, k - 1);
      MulLeRight(0.0, Iter(loan, loan.currentBalance, k - 1), MonthlyRate(loan));
    }
  }

  /** Payoff date as a month offset from today, or `None` (`calculatePayoffDate`'s
      `null`) exactly when the loan never pays off. */
  function PayoffDate(loan: Loan): (offset: Option<nat>)
    ensures offset.None? <==> NeverPaysOff(loan)
    ensures offset.Some? ==> MonthsToPayoff(loan) == Payoff(offset.value)
  {
    match MonthsToPayoff(loan)
    case NeverPayoff => None
    case Payoff(n) => Some(n)
  }

  /** With a non-negative rate a month lowers the balance by at most the payment. */
  lemma {:induction false} IterLowerBound(loan: Loan, k: nat)
    requires loan.interestRate >= 0.0 && loan.currentBalance >= 0.0
    ensures Iter(loan, loan.currentBalance, k) >= loan.currentBalance - Times(k, loan.monthlyPayment)
  {
    if k > 0 {
      IterLowerBound(loan, k - 1);
      var b := Iter(loan, loan.currentBalance, k - 1);
      assert b >= 0.0;
      MulLeRight(0.0, b, MonthlyRate(loan));
    }
  }

  /** In the amortising case a month lowers a positive balance by at least the
      payment minus the first month's interest. */
  lemma {:induction false} IterUpperBound(loan: Loan, k: nat)
    requires Amortizing(loan)
    ensures Iter(loan, loan.currentBalance, k) <= Max(0.0, loan.currentBalance - Times(k, FirstPrincipal(loan)))
  {
    if k > 0 {
      var b := Iter(loan, loan.currentBalance, k - 1);
      var d := FirstPrincipal(loan);
      var c := loan.currentBalance - Times(k - 1, d);
      assert Iter(loan, loan.currentBalance, k) == Step(loan, b);
      assert c - d == loan.currentBalance - Times(k, d);
      assert 0.0 <= b <= Max(0.0, c) by {
        IterUpperBound(loan, k - 1);
        IterStaysWithinBalance(loan, k - 1);
      }
      assert Step(loan, b) <= Max(0.0, b - d) by {
        IterStaysWithinBalance(loan, k - 1);
        StepUpperBound(loan, b);
      }
      MaxShift(b, d, c);
    }
  }

  /** One step from a balance within `[0, currentBalance]` removes at least
      `payment - first interest`, clamped at zero. */
  lemma StepUpperBound(loan: Loan, b: real)
    requires Amortizing(loan) && 0.0 <= b <= loan.currentBalance
    ensures Step(loan, b) <= Max(0.0, b - FirstPrincipal(loan))
  {
    StepBelowFirst(b, loan.currentBalance, MonthlyRate(loan), loan.monthlyPayment);
  }

  lemma StepBelowFirst(b: real, cb: real, r: real, p: real)
    requires 0.0 <= b <= cb && 0.0 <= r
    ensures Max(0.0, b - (p - b * r)) <= Max(0.0, b - (p - cb * r))
  {
    MulLeRight(b, cb, r);
    MaxMonotonic(b - (p - b * r), b - (p - cb * r));
  }

  /** Months to payoff never exceed `ceil(balance / (payment - first interest))`. */
  lemma PayoffWithinBound(loan: Loan)
    requires Amortizing(loan)
    ensures MonthsToPayoff(loan).months <= Ceil(loan.currentBalance / FirstPrincipal(loan))
  {
    var c := Ceil(loan.currentBalance / FirstPrincipal(loan));
    CeilDivBounds(loan.currentBalance, FirstPrincipal(loan));
    assert c >= 0;
    IterUpperBound(loan, c);
    TimesIsMul(c, FirstPrincipal(loan));
    assert Iter(loan, loan.currentBalance, c) <= 0.0;
  }

  /** Stepping first and then iterating is iterating once more. */
  lemma {:induction false} IterShift(loan: Loan, b: real, k: nat)
    ensures Iter(loan, Step(loan, b), k) == Iter(loan, b, k + 1)
  {
    if k > 0 {
      IterShift(loan, b, k - 1);
    }
  }

  /** At most one month count satisfies `SettlesAt`. */
  lemma SettlesAtUnique(loan: Loan, a: nat, b: nat)
    requires SettlesAt(loan, a) && SettlesAt(loan, b)
    ensures a == b
  {
  }

  /** The loan after one month's payment: its balance replaced by its step. */
  function AfterPayment(loan: Loan): (paid: Loan)
    ensures paid.currentBalance >= 0.0
    ensures paid == loan.(currentBalance := paid.currentBalance)
  {
    loan.(currentBalance := Step(loan, loan.currentBalance))
  }

  /** Paying one month shortens the schedule by exactly one month, as long as
      the schedule had not reached the cap and had not yet settled. */
  lemma StepAdvancesPayoff(loan: Loan, n: nat)
    requires loan.interestRate >= 0.0
    requires MonthsToPayoff(loan) == Payoff(n) && 0 < n < MaxMonths
    ensures MonthsToPayoff(AfterPayment(loan)) == Payoff(n - 1)
  {
    if loan.interestRate == 0.0 {
      ZeroRateStepAdvances(loan, n);
    } else {
      assert Amortizing(loan);
      AmortizingStepAdvances(loan, n);
    }
  }

  lemma AmortizingStepAdvances(loan: Loan, n: nat)
    requires Amortizing(loan) && SettlesAt(loan, n) && 0 < n < MaxMonths
    ensures MonthsToPayoff(AfterPayment(loan)) == Payoff(n - 1)
  {
    var paid := AfterPayment(loan);
    forall k: nat
      ensures Iter(paid, paid.currentBalance, k) == Iter(loan, loan.currentBalance, k + 1)
    {
      IterSameTerms(paid, loan, paid.currentBalance, k);
      IterShift(loan, loan.currentBalance, k);
    }
    assert SettlesAt(paid, n - 1);
    if paid.currentBalance > 0.0 {
      assert Amortizing(paid) by {
        IterStaysWithinBalance(loan, 1);
        MulLeRight(paid.currentBalance, loan.currentBalance, MonthlyRate(loan));
      }
      SettlesAtUnique(paid, n - 1, MonthsToPayoff(paid).months);
    }
  }

  /** `Iter` depends on the loan only through its rate and payment. */
  lemma {:induction false} IterSameTerms(a: Loan, b: Loan, balance: real, k: nat)
    requires a.interestRate == b.interestRate && a.monthlyPayment == b.monthlyPayment
    ensures Iter(a, balance, k) == Iter(b, balance, k)
  {
    if k > 0 {
      IterSameTerms(a, b, balance, k - 1);
    }
  }

  lemma ZeroRateStepAdvances(loan: Loan, n: nat)
    requires loan.interestRate == 0.0
    requires MonthsToPayoff(loan) == Payoff(n) && 0 < n
    ensures MonthsToPayoff(AfterPayment(loan)) == Payoff(n - 1)
  {
    var p := loan.monthlyPayment;
    ZeroRatePayoff(loan);
    assert (n as real - 1.0) * p < loan.currentBalance <= n as real * p;
    assert AfterPayment(loan).currentBalance == Max(0.0, loan.currentBalance - p);
    if loan.currentBalance > p {
      var rest := loan.currentBalance - p;
      MulPred(n as real, p);
      MulPred(n as real - 1.0, p);
      CeilDivUnique(rest, p, n - 1);
    } else {
      SingleMultiple(n, p, loan.currentBalance);
    }
  }

  /** Balance 120000 at 0% paying 10000 a month: exactly 12 months. */
  lemma ZeroRateExample()
    ensures MonthsToPayoff(Loan("loan", "zero rate", A, 120000.0, 120000.0, 0.0, 10000.0)) == Payoff(12)
  {
    CeilUnique(12.0, 12);
  }

  /** Balance 100000 at 24% (2% a month) paying 1500: the first month's
      interest of 2000 exceeds the payment. */
  lemma NeverPayoffExample()
    ensures var loan := Loan("card", "revolving", B, 0.0, 100000.0, 24.0, 1500.0);
            && MonthsToPayoff(loan) == NeverPayoff
            && TotalInterest(loan) == 0.0
            && PayoffDate(loan) == None
  {
  }

  /** Balance 1000000 at 12% (1% a month) paying 100000: a finite, positive
      month count after which the simulated balance is within the tolerance. */
  lemma ConvergenceExample()
    ensures var loan := Loan("loan", "fixed", A, 1000000.0, 1000000.0, 12.0, 100000.0);
            && MonthsToPayoff(loan).Payoff?
            && 0 < MonthsToPayoff(loan).months <= 12
            && Iter(loan, loan.currentBalance, MonthsToPayoff(loan).months) <= Tolerance
  {
    var loan := Loan("loan", "fixed", A, 1000000.0, 1000000.0, 12.0, 100000.0);
    assert FirstPrincipal(loan) == 90000.0;
    PayoffWithinBound(loan);
    CeilUnique(1000000.0 / 90000.0, 12);
  }

  /** The cap is a silent truncation: balance 1200000 at 1% paying 1001 needs
      far more than 600 months, yet the result is `Payoff(600)`, with the
      balance after 600 months still well above the tolerance. */
  lemma CapTruncatesSlowPayoff()
    ensures var loan := Loan("loan", "slow", A, 1200000.0, 1200000.0, 1.0, 1001.0);
            && MonthsToPayoff(loan) == Payoff(MaxMonths)
            && Iter(loan, loan.currentBalance, MaxMonths) > Tolerance
  {
    var loan := Loan("loan", "slow", A, 1200000.0, 1200000.0, 1.0, 1001.0);
    forall k: nat | k <= MaxMonths
      ensures Iter(loan, loan.currentBalance, k) > Tolerance
    {
      IterLowerBound(loan, k);
      TimesIsMul(k, 1001.0);
    }
    assert Amortizing(loan);
  }
}
