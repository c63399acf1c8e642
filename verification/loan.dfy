/** The loan record shared by every part of the application. */
module Loans {
  import opened Maybe

  /** "A": fixed instalment loan with a tracked principal;
      "B": credit card or instalment plan without one. */
  datatype LoanType = A | B

  datatype Loan = Loan(
    id: string,
    title: string,
    loanType: LoanType,
    principal: real,        // original amount, used for type A only
    currentBalance: real,   // outstanding balance
    interestRate: real,     // nominal annual rate in percent
    monthlyPayment: real)

  /** `Partial<Loan>`: every property may be absent (`None`). */
  datatype LoanPatch = LoanPatch(
    id: Option<string>,
    title: Option<string>,
    loanType: Option<LoanType>,
    principal: Option<real>,
    currentBalance: Option<real>,
    interestRate: Option<real>,
    monthlyPayment: Option<real>)

  const EmptyPatch := LoanPatch(None, None, None, None, None, None, None)

  /** `{ ...loan, ...patch }`: a property present in the patch wins. */
  function Merge(loan: Loan, patch: LoanPatch): (r: Loan)
    ensures patch == EmptyPatch ==> r == loan
    ensures patch.id.Some? ==> r.id == patch.id.value
    ensures patch.id.None? ==> r.id == loan.id
    ensures patch.title.Some? ==> r.title == patch.title.value
    ensures patch.title.None? ==> r.title == loan.title
    ensures patch.loanType.Some? ==> r.loanType == patch.loanType.value
    ensures patch.loanType.None? ==> r.loanType == loan.loanType
    ensures patch.principal.Some? ==> r.principal == patch.principal.value
    ensures patch.principal.None? ==> r.principal == loan.principal
    ensures patch.currentBalance.Some? ==> r.currentBalance == patch.currentBalance.value
    ensures patch.currentBalance.None? ==> r.currentBalance == loan.currentBalance
    ensures patch.interestRate.Some? ==> r.interestRate == patch.interestRate.value
    ensures patch.interestRate.None? ==> r.interestRate == loan.interestRate
    ensures patch.monthlyPayment.Some? ==> r.monthlyPayment == patch.monthlyPayment.value
    ensures patch.monthlyPayment.None? ==> r.monthlyPayment == loan.monthlyPayment
  {
    Loan(
      patch.id.GetOr(loan.id),
      patch.title.GetOr(loan.title),
      patch.loanType.GetOr(loan.loanType),
      patch.principal.GetOr(loan.principal),
      patch.currentBalance.GetOr(loan.currentBalance),
      patch.interestRate.GetOr(loan.interestRate),
      patch.monthlyPayment.GetOr(loan.monthlyPayment))
  }
}
