/** The portfolio series of the engine: the month-by-month principal/interest
    breakdown stacked over all loans, and the projected total balance. */
module Projections {
  import opened RealMath
  import opened Loans
  import opened Calculations

  /** One loan's payment in one month, split into principal and interest. */
  datatype Portion = Portion(principal: real, interest: real)

  const NoPortion := Portion(0.0, 0.0)

  function Add(a: Portion, b: Portion): Portion {
    Portion(a.principal + b.principal, a.interest + b.interest)
  }

  /** One point of the stacked chart (its date label is not modelled). */
  datatype StackedEntry = StackedEntry(principal: real, interest: real, total: real)

  function Entry(p: Portion): (e: StackedEntry)
    ensures e.total == e.principal + e.interest
  {
    StackedEntry(p.principal, p.interest, p.principal + p.interest)
  }

  /** The finite months to payoff of a loan; 0 for one that never pays off
      (such loans are filtered out before taking the maximum). */
  function FiniteMonths(loan: Loan): nat {
    match MonthsToPayoff(loan)
    case Payoff(n) => n
    case NeverPayoff => 0
  }

  /** The chart horizon: the largest finite months to payoff, or 0. */
  function MaxFiniteMonths(loans: seq<Loan>): (m: nat)
    ensures forall i :: 0 <= i < |loans| && MonthsToPayoff(loans[i]).Payoff? ==> MonthsToPayoff(loans[i]).months <= m
    ensures m == 0 || exists i :: 0 <= i < |loans| && MonthsToPayoff(loans[i]) == Payoff(m)
  {
    if |loans| == 0 then 0
    else
      var init := loans[..|loans| - 1];
      var rest := MaxFiniteMonths(init);
      var last := FiniteMonths(loans[|loans| - 1]);
      assert forall i :: 0 <= i < |init| ==> init[i] == loans[i];
      if rest >= last then rest else last
  }

  /** What one loan adds to month `month` of the stacked chart, given its
      months to payoff `months`. */
  function ContributionWith(loan: Loan, months: PayoffResult, month: nat): (c: Portion)
    ensures loan.currentBalance <= 0.0 || months.NeverPayoff? ==> c == NoPortion
    ensures months.Payoff? && month >= months.months ==> c == NoPortion
  {
    if loan.currentBalance <= 0.0 then NoPortion
    else
      match months
      case NeverPayoff => NoPortion
      case Payoff(n) =>
        if month >= n then NoPortion
        else
          var balance := Replay(loan, loan.currentBalance, month);
          if balance > 0.0 then
            var interest := balance * MonthlyRate(loan);
            Portion(Min(loan.monthlyPayment - interest, balance), interest)
          else NoPortion
  }

  /** What one loan adds to month `month` of the stacked chart: nothing once
      it is paid off, never paid off, or already past its own schedule. */
  function Contribution(loan: Loan, month: nat): (c: Portion)
    ensures loan.currentBalance <= 0.0 ==> c == NoPortion
    ensures MonthsToPayoff(loan).NeverPayoff? ==> c == NoPortion
    ensures MonthsToPayoff(loan).Payoff? && month >= MonthsToPayoff(loan).months ==> c == NoPortion
  {
    ContributionWith(loan, MonthsToPayoff(loan), month)
  }

  /** The month's portions summed over the loans, in list order. */
  function PeriodTotals(loans: seq<Loan>, month: nat): Portion {
    if |loans| == 0 then NoPortion
    else Add(PeriodTotals(loans[..|loans| - 1], month), Contribution(loans[|loans| - 1], month))
  }

  /** The stacked principal/interest series, months `0 ..= horizon`. */
  function GenerateStackedAreaData(loans: seq<Loan>): (data: seq<StackedEntry>)
    ensures |data| == MaxFiniteMonths(loans) + 1
    ensures forall m :: 0 <= m < |data| ==> data[m].total == data[m].principal + data[m].interest
  {
    seq(MaxFiniteMonths(loans) + 1, m requires 0 <= m => Entry(PeriodTotals(loans, m)))
  }

  /** What one loan adds to month `month` of the balance projection. */
  function ProjectedBalance(loan: Loan, month: nat): (b: real)
    ensures b >= 0.0
    ensures month == 0 && loan.currentBalance > 0.0 && MonthsToPayoff(loan).Payoff? && MonthsToPayoff(loan).months > 0
            ==> b == loan.currentBalance
  {
    if loan.currentBalance <= 0.0 then 0.0
    else
      match MonthsToPayoff(loan)
      case NeverPayoff => 0.0
      case Payoff(n) =>
        if month >= n then 0.0 else Replay(loan, loan.currentBalance, month)
  }

  function BalanceAt(loans: seq<Loan>, month: nat): (total: real)
    ensures total >= 0.0
  {
    if |loans| == 0 then 0.0
    else BalanceAt(loans[..|loans| - 1], month) + ProjectedBalance(loans[|loans| - 1], month)
  }

  /** Reference for month 0: the balances of the loans with a positive balance
      and a finite, positive months to payoff. */
  function ActiveBalance(loans: seq<Loan>): real {
    if |loans| == 0 then 0.0
    else
      var loan := loans[|loans| - 1];
      var active := loan.currentBalance > 0.0 && MonthsToPayoff(loan).Payoff? && MonthsToPayoff(loan).months > 0;
      ActiveBalance(loans[..|loans| - 1]) + (if active then loan.currentBalance else 0.0)
  }

  /** The projected total balance, months `0 ..= horizon`. */
  function GenerateBalanceProjection(loans: seq<Loan>): (data: seq<real>)
    ensures |data| == MaxFiniteMonths(loans) + 1
    ensures forall m :: 0 <= m < |data| ==> data[m] >= 0.0
    ensures data[0] == ActiveBalance(loans)
  {
    StartIsActiveBalance(loans);
    seq(MaxFiniteMonths(loans) + 1, m requires 0 <= m => BalanceAt(loans, m))
  }

  lemma {:induction false} StartIsActiveBalance(loans: seq<Loan>)
    ensures BalanceAt(loans, 0) == ActiveBalance(loans)
  {
    if |loans| > 0 {
      StartIsActiveBalance(loans[..|loans| - 1]);
    }
  }

  // ---- additivity across loans ----

  /** Month totals of a concatenated portfolio are the sums of the parts' totals. */
  lemma {:induction false} PeriodTotalsAppend(a: seq<Loan>, b: seq<Loan>, month: nat)
    ensures PeriodTotals(a + b, month) == Add(PeriodTotals(a, month), PeriodTotals(b, month))
    decreases |b|
  {
    if |b| > 0 {
      assert (a + b)[..|a + b| - 1] == a + b[..|b| - 1];
      PeriodTotalsAppend(a, b[..|b| - 1], month);
    } else {
      assert a + b == a;
    }
  }

  /** The horizon of a concatenated portfolio is the larger of the two horizons. */
  lemma MaxFiniteMonthsAppend(a: seq<Loan>, b: seq<Loan>)
    ensures MaxFiniteMonths(a + b) == if MaxFiniteMonths(a) >= MaxFiniteMonths(b) then MaxFiniteMonths(a) else MaxFiniteMonths(b)
  {
    var m := MaxFiniteMonths(a + b);
    forall i | 0 <= i < |a| ensures a[i] == (a + b)[i] { }
    forall i | 0 <= i < |b| ensures b[i] == (a + b)[|a| + i] { }
    if m != 0 {
      var i :| 0 <= i < |a + b| && MonthsToPayoff((a + b)[i]) == Payoff(m);
      if i < |a| {
        assert MonthsToPayoff(a[i]) == Payoff(m);
      } else {
        assert MonthsToPayoff(b[i - |a|]) == Payoff(m);
      }
    }
  }

  /** Past the horizon no loan contributes anything. */
  lemma {:induction false} QuietAfterHorizon(loans: seq<Loan>, month: nat)
    requires month >= MaxFiniteMonths(loans)
    ensures PeriodTotals(loans, month) == NoPortion
  {
    if |loans| > 0 {
      var init := loans[..|loans| - 1];
      var last := loans[|loans| - 1];
      assert MaxFiniteMonths(init) <= MaxFiniteMonths(loans)
          && FiniteMonths(last) <= MaxFiniteMonths(loans);
      QuietAfterHorizon(init, month);
      assert Contribution(last, month) == NoPortion by {
        QuietPastOwnHorizon(last, month);
      }
    }
  }

  lemma QuietPastOwnHorizon(loan: Loan, month: nat)
    requires month >= FiniteMonths(loan)
    ensures Contribution(loan, month) == NoPortion
  {
  }

  const NoEntry := StackedEntry(0.0, 0.0, 0.0)

  /** Entry `m` of a series, or an empty month past its end. */
  function EntryAt(data: seq<StackedEntry>, m: nat): StackedEntry {
    if m < |data| then data[m] else NoEntry
  }

  function AddEntries(x: StackedEntry, y: StackedEntry): StackedEntry {
    StackedEntry(x.principal + y.principal, x.interest + y.interest, x.total + y.total)
  }

  /** The stacked series is additive: the series of two portfolios together is
      the pointwise sum of their series, the shorter one padded with empty months. */
  lemma StackedSeriesAdditive(a: seq<Loan>, b: seq<Loan>)
    ensures |GenerateStackedAreaData(a + b)|
            == if |GenerateStackedAreaData(a)| >= |GenerateStackedAreaData(b)| then |GenerateStackedAreaData(a)| else |GenerateStackedAreaData(b)|
    ensures forall m :: 0 <= m < |GenerateStackedAreaData(a + b)| ==>
              GenerateStackedAreaData(a + b)[m]
              == AddEntries(EntryAt(GenerateStackedAreaData(a), m), EntryAt(GenerateStackedAreaData(b), m))
  {
    MaxFiniteMonthsAppend(a, b);
    var data := GenerateStackedAreaData(a + b);
    var da := GenerateStackedAreaData(a);
    var db := GenerateStackedAreaData(b);
    forall m | 0 <= m < |data|
      ensures data[m] == AddEntries(EntryAt(da, m), EntryAt(db, m))
    {
      assert data[m] == Entry(PeriodTotals(a + b, m));
      EntryAdditive(a, b, m);
    }
  }

  lemma EntryAdditive(a: seq<Loan>, b: seq<Loan>, m: nat)
    ensures Entry(PeriodTotals(a + b, m))
            == AddEntries(EntryAt(GenerateStackedAreaData(a), m), EntryAt(GenerateStackedAreaData(b), m))
  {
    var x := PeriodTotals(a, m);
    var y := PeriodTotals(b, m);
    assert PeriodTotals(a + b, m) == Add(x, y) by {
      PeriodTotalsAppend(a, b, m);
    }
    assert EntryAt(GenerateStackedAreaData(a), m) == Entry(x) by {
      EntryAtSeries(a, m);
    }
    assert EntryAt(GenerateStackedAreaData(b), m) == Entry(y) by {
      EntryAtSeries(b, m);
    }
    EntryOfAdd(x, y);
  }

  lemma EntryOfAdd(x: Portion, y: Portion)
    ensures Entry(Add(x, y)) == AddEntries(Entry(x), Entry(y))
  {
  }

  /** Reading a series at any month, even past its end, gives that month's totals. */
  lemma EntryAtSeries(loans: seq<Loan>, m: nat)
    ensures EntryAt(GenerateStackedAreaData(loans), m) == Entry(PeriodTotals(loans, m))
  {
    var data := GenerateStackedAreaData(loans);
    if m < |data| {
      assert data[m] == Entry(PeriodTotals(loans, m));
    } else {
      QuietAfterHorizon(loans, m);
      assert EntryAt(data, m) == NoEntry;
    }
  }

  // ---- principal conservation for one loan ----

  /** A month's principal portion is exactly the drop of the replayed balance. */
  lemma ContributionIsBalanceDrop(loan: Loan, month: nat)
    requires loan.currentBalance > 0.0
    requires MonthsToPayoff(loan).Payoff? && month < MonthsToPayoff(loan).months
    ensures Contribution(loan, month).principal
            == Replay(loan, loan.currentBalance, month) - Replay(loan, loan.currentBalance, month + 1)
  {
    PortionIsBalanceDrop(loan, MonthsToPayoff(loan).months, month);
  }

  lemma PortionIsBalanceDrop(loan: Loan, n: nat, month: nat)
    requires loan.currentBalance > 0.0 && month < n
    ensures ContributionWith(loan, Payoff(n), month).principal
            == Replay(loan, loan.currentBalance, month) - Replay(loan, loan.currentBalance, month + 1)
  {
    var b := Replay(loan, loan.currentBalance, month);
    if b > 0.0 {
      StepSplitsPayment(loan, b);
    }
  }

  /** The principal portion `min(payment - interest, balance)` is exactly what
      the step removes. */
  lemma StepSplitsPayment(loan: Loan, b: real)
    ensures Step(loan, b) == b - Min(loan.monthlyPayment - b * MonthlyRate(loan), b)
  {
  }

  function SumPrincipal(data: seq<StackedEntry>): real {
    if |data| == 0 then 0.0 else SumPrincipal(data[..|data| - 1]) + data[|data| - 1].principal
  }

  lemma {:induction false} SumPrincipalTelescopes(loan: Loan, k: nat)
    requires loan.currentBalance > 0.0 && MonthsToPayoff(loan).Payoff?
    requires k <= MonthsToPayoff(loan).months
    ensures SumPrincipal(GenerateStackedAreaData([loan])[..k])
            == loan.currentBalance - Replay(loan, loan.currentBalance, k)
  {
    var data := GenerateStackedAreaData([loan]);
    if k > 0 {
      SumPrincipalTelescopes(loan, k - 1);
      assert data[..k][..k - 1] == data[..k - 1];
      SingletonSeries(loan);
      ContributionIsBalanceDrop(loan, k - 1);
    }
  }

  /** Summing one loan's principal column over the whole chart gives the
      balance minus what the schedule leaves after its months to payoff. */
  lemma SingleLoanPrincipalSum(loan: Loan)
    requires loan.currentBalance > 0.0 && MonthsToPayoff(loan).Payoff?
    ensures SumPrincipal(GenerateStackedAreaData([loan]))
            == loan.currentBalance - Replay(loan, loan.currentBalance, MonthsToPayoff(loan).months)
  {
    var n := MonthsToPayoff(loan).months;
    var data := GenerateStackedAreaData([loan]);
    SingletonSeries(loan);
    SumPrincipalTelescopes(loan, n);
    assert data[..n + 1] == data;
    assert SumPrincipal(data) == SumPrincipal(data[..n]) + data[n].principal by {
      assert data[..n + 1][..n] == data[..n];
    }
  }

  /** The chart of a single loan: its months to payoff plus one entries, each
      holding that loan's own contribution. */
  lemma SingletonSeries(loan: Loan)
    ensures |GenerateStackedAreaData([loan])| == FiniteMonths(loan) + 1
    ensures forall m :: 0 <= m < |GenerateStackedAreaData([loan])| ==>
              GenerateStackedAreaData([loan])[m].principal == Contribution(loan, m).principal
  {
    assert MaxFiniteMonths([loan]) == FiniteMonths(loan) by {
      assert [loan][..0] == [];
    }
    var data := GenerateStackedAreaData([loan]);
    forall m | 0 <= m < |data|
      ensures data[m].principal == Contribution(loan, m).principal
    {
      assert data[m] == Entry(PeriodTotals([loan], m));
      SingletonTotals(loan, m);
    }
  }

  lemma SingletonTotals(loan: Loan, month: nat)
    ensures PeriodTotals([loan], month) == Contribution(loan, month)
  {
    assert [loan][..0] == [];
    assert PeriodTotals([loan], month) == Add(NoPortion, Contribution(loan, month));
    AddNoPortion(Contribution(loan, month));
  }

  lemma AddNoPortion(c: Portion)
    ensures Add(NoPortion, c) == c
  {
  }

  /** At 0% every unit of the balance appears in the principal column exactly once. */
  lemma ZeroRatePrincipalConserved(loan: Loan)
    requires loan.interestRate == 0.0 && loan.monthlyPayment > 0.0 && loan.currentBalance > 0.0
    ensures SumPrincipal(GenerateStackedAreaData([loan])) == loan.currentBalance
  {
    var b, p := loan.currentBalance, loan.monthlyPayment;
    assert MonthsToPayoff(loan).Payoff? && b <= MonthsToPayoff(loan).months as real * p by {
      ZeroRatePayoff(loan);
    }
    var n := MonthsToPayoff(loan).months;
    assert Times(n, p) >= b by {
      TimesIsMul(n, p);
    }
    assert Replay(loan, b, n) == 0.0 by {
      ReplayIsIter(loan, b, n);
      ZeroRateIter(loan, n);
    }
    SingleLoanPrincipalSum(loan);
  }

  /** At 0% each month takes the full payment off, down to zero. */
  lemma {:induction false} ZeroRateIter(loan: Loan, k: nat)
    requires loan.interestRate == 0.0 && loan.monthlyPayment > 0.0 && loan.currentBalance >= 0.0
    ensures Iter(loan, loan.currentBalance, k) == Max(0.0, loan.currentBalance - Times(k, loan.monthlyPayment))
  {
    if k > 0 {
      ZeroRateIter(loan, k - 1);
    }
  }

  /** With interest, a schedule that settles before the cap leaves at most the
      tolerance unaccounted for in the principal column. */
  lemma AmortizingPrincipalNearlyConserved(loan: Loan)
    requires Amortizing(loan) && MonthsToPayoff(loan).months < MaxMonths
    ensures loan.currentBalance - Tolerance <= SumPrincipal(GenerateStackedAreaData([loan])) <= loan.currentBalance
  {
    var n := MonthsToPayoff(loan).months;
    SingleLoanPrincipalSum(loan);
    ReplayIsIter(loan, loan.currentBalance, n);
  }

  // ---- the single forward pass ----

  /** One loan's portion for `month` given its replayed balance `balance`. */
  function PortionAt(loan: Loan, months: PayoffResult, month: nat, balance: real): Portion {
    if loan.currentBalance <= 0.0 then NoPortion
    else
      match months
      case NeverPayoff => NoPortion
      case Payoff(n) =>
        if month >= n || balance <= 0.0 then NoPortion
        else
          var interest := balance * MonthlyRate(loan);
          Portion(Min(loan.monthlyPayment - interest, balance), interest)
  }

  lemma PortionAtReplay(loan: Loan, month: nat)
    ensures PortionAt(loan, MonthsToPayoff(loan), month, Replay(loan, loan.currentBalance, month))
            == Contribution(loan, month)
  {
    PortionAtReplayWith(loan, MonthsToPayoff(loan), month);
  }

  lemma PortionAtReplayWith(loan: Loan, months: PayoffResult, month: nat)
    ensures PortionAt(loan, months, month, Replay(loan, loan.currentBalance, month))
            == ContributionWith(loan, months, month)
  {
  }

  /** Adding loan `i` to the first `i` loans, as one round of the `forEach`. */
  lemma PeriodTotalsStep(loans: seq<Loan>, i: nat, month: nat)
    requires i < |loans|
    ensures PeriodTotals(loans[..i + 1], month) == Add(PeriodTotals(loans[..i], month), Contribution(loans[i], month))
  {
    assert loans[..i + 1][..i] == loans[..i];
  }

  /** One month of the forward pass: every loan's portion from its carried
      balance, summed, and every balance carried one month on. */
  method MonthForward(loans: seq<Loan>, months: seq<PayoffResult>, balances: seq<real>, month: nat)
    returns (acc: Portion, next: seq<real>)
    requires |months| == |loans| && |balances| == |loans|
    requires forall i :: 0 <= i < |loans| ==> months[i] == MonthsToPayoff(loans[i])
    requires forall i :: 0 <= i < |loans| ==> balances[i] == Replay(loans[i], loans[i].currentBalance, month)
    ensures acc == PeriodTotals(loans, month)
    ensures |next| == |loans|
    ensures forall i :: 0 <= i < |loans| ==> next[i] == Replay(loans[i], loans[i].currentBalance, month + 1)
  {
    acc := NoPortion;
    next := [];
    var i := 0;
    while i < |loans|
      invariant i <= |loans|
      invariant acc == PeriodTotals(loans[..i], month)
      invariant |next| == i
      invariant forall j :: 0 <= j < i ==> next[j] == Replay(loans[j], loans[j].currentBalance, month + 1)
    {
      var portion, b := LoanForward(loans[i], months[i], balances[i], month);
      PeriodTotalsStep(loans, i, month);
      acc := Add(acc, portion);
      ghost var carried := next;
      next := next + [b];
      forall j | 0 <= j < i + 1
        ensures next[j] == Replay(loans[j], loans[j].currentBalance, month + 1)
      {
        if j < i {
          assert next[j] == carried[j];
        }
      }
      i := i + 1;
    }
    assert loans[..i] == loans;
  }

  /** One loan's share of a forward month: its portion from the carried
      balance, and the balance carried one month on. */
  method LoanForward(loan: Loan, months: PayoffResult, balance: real, month: nat)
    returns (portion: Portion, next: real)
    requires months == MonthsToPayoff(loan)
    requires balance == Replay(loan, loan.currentBalance, month)
    ensures portion == Contribution(loan, month)
    ensures next == Replay(loan, loan.currentBalance, month + 1)
  {
    PortionAtReplay(loan, month);
    portion := PortionAt(loan, months, month, balance);
    next := if balance > 0.0 then Step(loan, balance) else balance;
  }

  /** A prefix of `s` extended by the element that follows it. */
  lemma PrefixGrows<T>(s: seq<T>, n: nat, x: T)
    requires n < |s| && s[n] == x
    ensures s[..n + 1] == s[..n] + [x]
  {
    assert s[..n + 1][n] == x;
  }

  /** The forward pass's series grown by one month: the entry for `month`
      appended to the entries before it, and every balance carried on. */
  method SeriesForward(loans: seq<Loan>, months: seq<PayoffResult>, balances: seq<real>, month: nat,
                       data: seq<StackedEntry>)
    returns (grown: seq<StackedEntry>, next: seq<real>)
    requires |months| == |loans| && |balances| == |loans|
    requires forall i :: 0 <= i < |loans| ==> months[i] == MonthsToPayoff(loans[i])
    requires forall i :: 0 <= i < |loans| ==> balances[i] == Replay(loans[i], loans[i].currentBalance, month)
    requires month < |GenerateStackedAreaData(loans)| && data == GenerateStackedAreaData(loans)[..month]
    ensures grown == GenerateStackedAreaData(loans)[..month + 1]
    ensures |next| == |loans|
    ensures forall i :: 0 <= i < |loans| ==> next[i] == Replay(loans[i], loans[i].currentBalance, month + 1)
  {
    ghost var series := GenerateStackedAreaData(loans);
    var acc;
    acc, next := MonthForward(loans, months, balances, month);
    assert series[month] == Entry(acc);
    PrefixGrows(series, month, Entry(acc));
    grown := data + [Entry(acc)];
  }

  /** The state the forward pass starts from: each loan's months to payoff,
      and its balance as replayed for month 0. */
  method StartForward(loans: seq<Loan>) returns (months: seq<PayoffResult>, balances: seq<real>)
    ensures |months| == |loans| && |balances| == |loans|
    ensures forall i :: 0 <= i < |loans| ==> months[i] == MonthsToPayoff(loans[i])
    ensures forall i :: 0 <= i < |loans| ==> balances[i] == Replay(loans[i], loans[i].currentBalance, 0)
  {
    months := seq(|loans|, i requires 0 <= i < |loans| => MonthsToPayoff(loans[i]));
    balances := seq(|loans|, i requires 0 <= i < |loans| => loans[i].currentBalance);
  }

  /** The stacked series computed in one forward pass, carrying each loan's
      balance from month to month instead of replaying it from month 0; it
      yields exactly the replayed series. */
  method StackedSeriesForward(loans: seq<Loan>) returns (data: seq<StackedEntry>)
    ensures data == GenerateStackedAreaData(loans)
  {
    var horizon := MaxFiniteMonths(loans);
    ghost var series := GenerateStackedAreaData(loans);
    var months, balances := StartForward(loans);
    data := [];
    var month := 0;
    while month <= horizon
      invariant month <= horizon + 1 == |series|
      invariant |balances| == |loans|
      invariant forall i :: 0 <= i < |loans| ==> balances[i] == Replay(loans[i], loans[i].currentBalance, month)
      invariant data == series[..month]
    {
      data, balances := SeriesForward(loans, months, balances, month, data);
      month := month + 1;
    }
    assert series[..month] == series;
  }
}
