/** The "pay this month" action of the main page: one month of the engine's
    balance step applied to one loan, sent as a partial update. */
module Pay {
  import opened Maybe
  import opened RealMath
  import opened Loans
  import opened Calculations
  import opened Storage
  import opened SupabaseStorage

  /** The update to send for a payment on loan `id`: `None` (nothing happens)
      when no loan has the id or its balance is not positive; otherwise the
      new balance and nothing else. */
  function HandlePay(loans: seq<Loan>, id: string): (patch: Option<LoanPatch>)
    ensures patch.None? <==>
              FindIndex(loans, id).None? || loans[FindIndex(loans, id).value].currentBalance <= 0.0
    ensures patch.Some? ==> patch.value.(currentBalance := None) == EmptyPatch
    ensures patch.Some? ==> var loan := loans[FindIndex(loans, id).value];
              patch.value.currentBalance == Some(Replay(loan, loan.currentBalance, 1))
              && patch.value.currentBalance.value >= 0.0
  {
    match FindIndex(loans, id)
    case None => None
    case Some(i) =>
      var loan := loans[i];
      if loan.currentBalance > 0.0 then
        var monthlyRate := loan.interestRate / 100.0 / 12.0;
        var monthlyInterest := loan.currentBalance * monthlyRate;
        var principalPayment := loan.monthlyPayment - monthlyInterest;
        var newBalance := Max(0.0, loan.currentBalance - principalPayment);
        assert newBalance == Step(loan, loan.currentBalance);
        Some(EmptyPatch.(currentBalance := Some(newBalance)))
      else None
  }

  /** Applying the payment is the engine's one-month step on that loan. */
  lemma PayIsAfterPayment(loans: seq<Loan>, id: string)
    requires HandlePay(loans, id).Some?
    ensures var loan := loans[FindIndex(loans, id).value];
            Merge(loan, HandlePay(loans, id).value) == AfterPayment(loan)
  {
  }

  /** Paying shortens the payoff schedule by exactly one month, when the rate
      is not negative and the schedule is below the cap. */
  lemma PayShortensSchedule(loans: seq<Loan>, id: string, n: nat)
    requires FindIndex(loans, id).Some?
    requires var loan := loans[FindIndex(loans, id).value];
             loan.interestRate >= 0.0 && MonthsToPayoff(loan) == Payoff(n) && 0 < n < MaxMonths
    ensures HandlePay(loans, id).Some?
    ensures var loan := loans[FindIndex(loans, id).value];
            MonthsToPayoff(Merge(loan, HandlePay(loans, id).value)) == Payoff(n - 1)
  {
    var loan := loans[FindIndex(loans, id).value];
    assert loan.currentBalance > 0.0;
    PayIsAfterPayment(loans, id);
    StepAdvancesPayoff(loan, n);
  }

  /** The remote update carries the current balance column only. */
  lemma PayPayloadIsBalanceOnly(loans: seq<Loan>, id: string)
    requires HandlePay(loans, id).Some?
    ensures BuildUpdateData(HandlePay(loans, id).value)
            == EmptyDebtPatch.(current_balance := HandlePay(loans, id).value.currentBalance)
  {
  }
}
