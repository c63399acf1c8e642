/** The portfolio figures shown on the dashboard. */
module Dashboard {
  import opened Maybe
  import opened RealMath
  import opened Loans
  import opened Calculations

  /** The loans of type "A", in order. */
  function TypeA(loans: seq<Loan>): (r: seq<Loan>)
    ensures |r| <= |loans|
    ensures forall l :: l in r <==> l in loans && l.loanType == A
  {
    if |loans| == 0 then []
    else
      var rest := TypeA(loans[..|loans| - 1]);
      var last := loans[|loans| - 1];
      assert loans == loans[..|loans| - 1] + [last];
      if last.loanType == A then rest + [last] else rest
  }

  function SumBalance(loans: seq<Loan>): real {
    if |loans| == 0 then 0.0 else SumBalance(loans[..|loans| - 1]) + loans[|loans| - 1].currentBalance
  }

  function SumPrincipal(loans: seq<Loan>): real {
    if |loans| == 0 then 0.0 else SumPrincipal(loans[..|loans| - 1]) + loans[|loans| - 1].principal
  }

  function SumPayment(loans: seq<Loan>): real {
    if |loans| == 0 then 0.0 else SumPayment(loans[..|loans| - 1]) + loans[|loans| - 1].monthlyPayment
  }

  function SumInterest(loans: seq<Loan>): (total: real)
    ensures total >= 0.0
  {
    if |loans| == 0 then 0.0 else SumInterest(loans[..|loans| - 1]) + TotalInterest(loans[|loans| - 1])
  }

  /** Share of `principal` already repaid, in percent; 0 without any principal. */
  function ProgressPercentage(principal: real, balance: real): (pct: real)
    ensures principal <= 0.0 ==> pct == 0.0
    ensures principal > 0.0 ==> pct * principal == (principal - balance) * 100.0
  {
    if principal > 0.0 then (principal - balance) / principal * 100.0 else 0.0
  }

  /** Months to repay `balance` at `payment` a month, ignoring interest; 0
      without a positive payment. */
  function EstimatedMonths(balance: real, payment: real): (months: int)
    ensures payment <= 0.0 ==> months == 0
    ensures payment > 0.0 ==>
              (months as real - 1.0) * payment < balance && balance <= months as real * payment
  {
    if payment > 0.0 then
      CeilDivBounds(balance, payment);
      Ceil(balance / payment)
    else 0
  }

  datatype Summary = Summary(
    totalBalance: real,
    totalPrincipal: real,
    totalMonthlyPayment: real,
    typeABalance: real,
    progressPercentage: real,
    estimatedMonths: int,
    totalPaid: real,
    totalInterest: real)

  /** The dashboard's figures: balances and payments over all loans, principal
      and progress over type-A loans only, a rough months estimate from the
      totals, and the total interest of every loan. */
  function Summarize(loans: seq<Loan>): (s: Summary)
    ensures s.totalBalance == SumBalance(loans) && s.totalMonthlyPayment == SumPayment(loans)
    ensures s.totalPrincipal == SumPrincipal(TypeA(loans)) && s.typeABalance == SumBalance(TypeA(loans))
    ensures s.progressPercentage == ProgressPercentage(s.totalPrincipal, s.typeABalance)
    ensures s.estimatedMonths == EstimatedMonths(s.totalBalance, s.totalMonthlyPayment)
    ensures s.totalPaid + s.totalBalance == s.totalPrincipal
    ensures s.totalInterest == SumInterest(loans) && s.totalInterest >= 0.0
  {
    var totalBalance := SumBalance(loans);
    var totalPrincipal := SumPrincipal(TypeA(loans));
    var totalMonthlyPayment := SumPayment(loans);
    var typeABalance := SumBalance(TypeA(loans));
    Summary(totalBalance, totalPrincipal, totalMonthlyPayment, typeABalance,
            ProgressPercentage(totalPrincipal, typeABalance),
            EstimatedMonths(totalBalance, totalMonthlyPayment),
            totalPrincipal - totalBalance, SumInterest(loans))
  }

  // ---- lemmas about the figures ----

  /** Filtering by type distributes over concatenation. */
  lemma {:induction false} TypeAAppend(a: seq<Loan>, b: seq<Loan>)
    ensures TypeA(a + b) == TypeA(a) + TypeA(b)
    decreases |b|
  {
    if |b| == 0 {
      assert a + b == a;
    } else {
      assert (a + b)[..|a + b| - 1] == a + b[..|b| - 1];
      TypeAAppend(a, b[..|b| - 1]);
    }
  }

  /** Filtering twice is filtering once. */
  lemma {:induction false} TypeAIdempotent(loans: seq<Loan>)
    ensures TypeA(TypeA(loans)) == TypeA(loans)
  {
    if |loans| > 0 {
      var init := loans[..|loans| - 1];
      var last := loans[|loans| - 1];
      TypeAIdempotent(init);
      if last.loanType == A {
        TypeAAppend(TypeA(init), [last]);
      }
    }
  }

  /** Each total over two lists is the sum of the totals over each. */
  lemma {:induction false} SumsAppend(a: seq<Loan>, b: seq<Loan>)
    ensures SumBalance(a + b) == SumBalance(a) + SumBalance(b)
    ensures SumPrincipal(a + b) == SumPrincipal(a) + SumPrincipal(b)
    ensures SumPayment(a + b) == SumPayment(a) + SumPayment(b)
    ensures SumInterest(a + b) == SumInterest(a) + SumInterest(b)
    decreases |b|
  {
    if |b| == 0 {
      assert a + b == a;
    } else {
      assert (a + b)[..|a + b| - 1] == a + b[..|b| - 1];
      SumsAppend(a, b[..|b| - 1]);
    }
  }

  /** Adding loans to the portfolio adds their figures: the summary of a
      concatenation is the sum of the summaries, field by field. */
  lemma SummaryAdditive(a: seq<Loan>, b: seq<Loan>)
    ensures Summarize(a + b).totalBalance == Summarize(a).totalBalance + Summarize(b).totalBalance
    ensures Summarize(a + b).totalPrincipal == Summarize(a).totalPrincipal + Summarize(b).totalPrincipal
    ensures Summarize(a + b).totalMonthlyPayment == Summarize(a).totalMonthlyPayment + Summarize(b).totalMonthlyPayment
    ensures Summarize(a + b).typeABalance == Summarize(a).typeABalance + Summarize(b).typeABalance
    ensures Summarize(a + b).totalPaid == Summarize(a).totalPaid + Summarize(b).totalPaid
    ensures Summarize(a + b).totalInterest == Summarize(a).totalInterest + Summarize(b).totalInterest
  {
    SumsAppend(a, b);
    TypeAAppend(a, b);
    SumsAppend(TypeA(a), TypeA(b));
  }

  /** Progress looks at type-A loans only: dropping every other loan leaves it unchanged. */
  lemma ProgressIgnoresTypeB(loans: seq<Loan>)
    ensures Summarize(TypeA(loans)).progressPercentage == Summarize(loans).progressPercentage
  {
    TypeAIdempotent(loans);
  }

  predicate WithinPrincipal(loan: Loan) {
    0.0 <= loan.currentBalance <= loan.principal
  }

  lemma {:induction false} TypeABalanceWithinPrincipal(loans: seq<Loan>)
    requires forall l :: l in loans ==> WithinPrincipal(l)
    ensures 0.0 <= SumBalance(loans) <= SumPrincipal(loans)
  {
    if |loans| > 0 {
      var init := loans[..|loans| - 1];
      assert forall l :: l in init ==> l in loans;
      assert loans[|loans| - 1] in loans;
      TypeABalanceWithinPrincipal(init);
    }
  }

  /** A balance between 0 and the principal gives a percentage between 0 and 100. */
  lemma PercentageBounds(principal: real, balance: real)
    requires 0.0 <= balance <= principal
    ensures 0.0 <= ProgressPercentage(principal, balance) <= 100.0
  {
    var pct := ProgressPercentage(principal, balance);
    if principal > 0.0 {
      if pct < 0.0 {
        MulLtRight(pct, 0.0, principal);
      }
      if pct > 100.0 {
        MulLtRight(100.0, pct, principal);
      }
    }
  }

  /** When every type-A balance lies between 0 and its principal, the
      dashboard's progress is a percentage between 0 and 100. */
  lemma ProgressIsPercentage(loans: seq<Loan>)
    requires forall l :: l in loans && l.loanType == A ==> WithinPrincipal(l)
    ensures 0.0 <= Summarize(loans).progressPercentage <= 100.0
  {
    TypeABalanceWithinPrincipal(TypeA(loans));
    PercentageBounds(SumPrincipal(TypeA(loans)), SumBalance(TypeA(loans)));
  }

  /** Paying counts type-B balances against type-A principals, so the
      paid-back figure can be negative. */
  lemma TotalPaidCanBeNegative()
    ensures Summarize([Loan("card", "card", B, 0.0, 1000.0, 15.0, 100.0)]).totalPaid == -1000.0
  {
    var card := Loan("card", "card", B, 0.0, 1000.0, 15.0, 100.0);
    assert TypeA([card]) == [];
    assert [card][..0] == [];
  }

  /** The "about X years Y months" caption shown beside estimates above 12 months. */
  datatype Duration = Duration(years: int, months: int)

  function DurationLabel(estimatedMonths: int): (d: Option<Duration>)
    ensures d.Some? <==> estimatedMonths > 12
    ensures d.Some? ==> d.value.years * 12 + d.value.months == estimatedMonths
    ensures d.Some? ==> d.value.years >= 1 && 0 <= d.value.months < 12
  {
    if estimatedMonths > 12 then Some(Duration(estimatedMonths / 12, estimatedMonths % 12)) else None
  }
}
