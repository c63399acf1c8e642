/** Building and validating the loan record when the loan form is submitted. */
module LoanForm {
  import opened Maybe
  import opened Strings
  import opened Loans

  /** The form's result: rejected (an alert, nothing submitted) or the loan handed on. */
  datatype Submission = Rejected | Submitted(loan: Loan)

  /** Submit the form. `existing` is the loan being edited, if any; numeric
      fields are the results of `parseFloat` (`None` when unparsable); a fresh
      id is used only when there is no existing id to keep. */
  function HandleSubmit(existing: Option<Loan>, freshId: string, loanType: LoanType, title: string,
                        principal: Option<real>, currentBalance: Option<real>,
                        interestRate: Option<real>, monthlyPayment: Option<real>): (r: Submission)
    ensures r.Rejected? <==> OrZero(interestRate) <= 0.0
    ensures interestRate.None? ==> r.Rejected?
    ensures r.Submitted? ==> r.loan.interestRate > 0.0 && r.loan.interestRate == interestRate.value
    ensures r.Submitted? ==> r.loan.title == Trim(title) && r.loan.loanType == loanType
    ensures r.Submitted? && loanType == B ==> r.loan.principal == 0.0
    ensures r.Submitted? && loanType == A ==> r.loan.principal == OrZero(principal)
    ensures r.Submitted? ==> r.loan.currentBalance == OrZero(currentBalance)
                             && r.loan.monthlyPayment == OrZero(monthlyPayment)
    ensures r.Submitted? && existing.Some? && existing.value.id != "" ==> r.loan.id == existing.value.id
    ensures r.Submitted? && (existing.None? || existing.value.id == "") ==> r.loan.id == freshId
  {
    var id := if existing.Some? && existing.value.id != "" then existing.value.id else freshId;
    var loan := Loan(
      id,
      Trim(title),
      loanType,
      if loanType == A then OrZero(principal) else 0.0,
      OrZero(currentBalance),
      OrZero(interestRate),
      OrZero(monthlyPayment));
    if loan.interestRate <= 0.0 then Rejected else Submitted(loan)
  }

  /** Editing a valid loan and submitting the form unchanged gives the same
      loan back: the form shows every field of the loan and reads it back. */
  lemma EditRoundTrip(loan: Loan, freshId: string)
    requires loan.id != "" && loan.interestRate > 0.0 && IsTrimmed(loan.title)
    requires loan.loanType == B ==> loan.principal == 0.0
    ensures HandleSubmit(Some(loan), freshId, loan.loanType, loan.title, Some(loan.principal),
                         Some(loan.currentBalance), Some(loan.interestRate), Some(loan.monthlyPayment))
            == Submitted(loan)
  {
    assert LeadingSpace(loan.title) == 0 && Trim(loan.title) == loan.title by {
      TrimFixesTrimmed(loan.title);
    }
  }

  /** A submitted title is already trimmed, so submitting it again keeps it.
      (A submission goes through exactly when the parsed rate is positive.) */
  lemma SubmittedTitleIsStable(existing: Option<Loan>, freshId: string, loanType: LoanType, title: string,
                               principal: Option<real>, currentBalance: Option<real>,
                               interestRate: Option<real>, monthlyPayment: Option<real>)
    requires OrZero(interestRate) > 0.0
    ensures HandleSubmit(existing, freshId, loanType, title, principal, currentBalance, interestRate, monthlyPayment).Submitted?
    ensures var loan := HandleSubmit(existing, freshId, loanType, title, principal, currentBalance, interestRate, monthlyPayment).loan;
            Trim(loan.title) == loan.title && IsTrimmed(loan.title)
  {
    TrimIdempotent(title);
  }
}
