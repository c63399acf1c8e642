/** Ready-made loan templates, turning a template into a loan, and the list
    of titles offered for reuse in the form. */
module LoanTemplates {
  import opened Maybe
  import opened Lists
  import opened Loans

  /** A template: type-B templates (cards, instalment plans) carry no principal. */
  datatype LoanTemplate = LoanTemplate(
    id: string,
    title: string,
    loanType: LoanType,
    principal: Option<real>,
    interestRate: real,
    monthlyPayment: Option<real>)

  /** The commonly used loans offered in the form. */
  const Templates: seq<LoanTemplate> := [
    LoanTemplate("template-1", "日本学生支援機構 奨学金", A, Some(3000000.0), 0.5, Some(30000.0)),
    LoanTemplate("template-2", "楽天カード", B, None, 14.5, Some(50000.0)),
    LoanTemplate("template-3", "三井住友カード", B, None, 15.0, Some(30000.0)),
    LoanTemplate("template-4", "三菱UFJカード", B, None, 14.8, Some(40000.0)),
    LoanTemplate("template-5", "車ローン（トヨタ）", A, Some(2000000.0), 2.5, Some(50000.0)),
    LoanTemplate("template-6", "車ローン（日産）", A, Some(2500000.0), 2.8, Some(60000.0)),
    LoanTemplate("template-7", "リボ払い（楽天）", B, None, 14.5, Some(20000.0)),
    LoanTemplate("template-8", "分割払い（Amazon）", B, None, 0.0, Some(10000.0))
  ]

  /** A loan from a template with id `freshId`. The balance is the supplied
      one if it is truthy, else the template principal if truthy, else 0;
      principal and payment default to 0. */
  function CreateLoanFromTemplate(template: LoanTemplate, currentBalance: Option<real>, freshId: string): (loan: Loan)
    ensures loan.id == freshId
    ensures loan.loanType == template.loanType && loan.title == template.title
    ensures loan.interestRate == template.interestRate
    ensures template.principal.None? ==> loan.principal == 0.0
    ensures template.principal.Some? ==> loan.principal == template.principal.value
    ensures template.monthlyPayment.None? ==> loan.monthlyPayment == 0.0
    ensures template.monthlyPayment.Some? ==> loan.monthlyPayment == template.monthlyPayment.value
    ensures Truthy(currentBalance) ==> loan.currentBalance == currentBalance.value
    ensures !Truthy(currentBalance) ==> loan.currentBalance == loan.principal
  {
    Loan(
      freshId,
      template.title,
      template.loanType,
      OrZero(template.principal),
      OrZero(Or(currentBalance, template.principal)),
      template.interestRate,
      OrZero(template.monthlyPayment))
  }

  /** A supplied balance of 0 is falsy and falls back to the principal. */
  lemma ZeroBalanceFallsBack(template: LoanTemplate, freshId: string)
    ensures CreateLoanFromTemplate(template, Some(0.0), freshId)
            == CreateLoanFromTemplate(template, None, freshId)
  {
  }

  /** Every type-B template lacks a principal, so without a balance it yields
      a loan with principal 0 and balance 0. */
  lemma TypeBTemplatesStartEmpty(freshId: string)
    ensures forall t :: t in Templates && t.loanType == B ==>
              t.principal.None?
              && CreateLoanFromTemplate(t, None, freshId).principal == 0.0
              && CreateLoanFromTemplate(t, None, freshId).currentBalance == 0.0
  {
  }

  /** The template ids are distinct, so selecting by id is unambiguous. */
  lemma TemplateIdsDistinct()
    ensures |Templates| == 8
    ensures forall i, j :: 0 <= i < j < |Templates| ==> Templates[i].id != Templates[j].id
  {
  }

  /** The loans' titles in list order (`loans.map(l => l.title)`). */
  function Titles(loans: seq<Loan>): (r: seq<string>)
    ensures |r| == |loans| && forall i :: 0 <= i < |loans| ==> r[i] == loans[i].title
  {
    seq(|loans|, i requires 0 <= i < |loans| => loans[i].title)
  }

  /** The titles entered before, each once, in order of first use. */
  method GetPreviousLoanTitles(loans: seq<Loan>) returns (titles: seq<string>)
    ensures loans == [] ==> titles == []
    ensures titles == Distinct(Titles(loans))
    ensures NoDuplicates(titles)
    ensures forall i :: 0 <= i < |loans| ==> loans[i].title in titles
    ensures forall k :: 0 <= k < |titles| ==> titles[k] in Titles(loans)
    ensures forall i, j :: 0 <= i < j < |titles| ==>
              IndexOf(Titles(loans), titles[i]) < IndexOf(Titles(loans), titles[j])
  {
    if |loans| == 0 {
      return [];
    }
    var all := Titles(loans);
    titles := [];
    var seen: set<string> := {};
    var n := 0;
    while n < |all|
      invariant n <= |all|
      invariant titles == Distinct(all[..n])
      invariant forall t :: t in seen <==> t in titles
    {
      assert all[..n + 1][..n] == all[..n];
      var t := all[n];
      if t !in seen {
        titles := titles + [t];
        seen := seen + {t};
      }
      n := n + 1;
    }
    assert all[..n] == all;
    DistinctKeepsFirstOccurrenceOrder(all);
  }
}
