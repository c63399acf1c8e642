/** The browser-local loan list: its storage key, the migration of records
    saved by older versions, and the add/update/delete operations, each
    taking the stored list and returning the list to save. */
module Storage {
  import opened Maybe
  import opened Loans
  import opened Lists
  import opened UserStorage

  /** The key the list is saved under: per user when someone is logged in,
      the shared legacy key otherwise. */
  function GetStorageKey(currentUser: Option<User>): (key: string)
    ensures currentUser.Some? ==> key == "loans_" + currentUser.value.id
    ensures currentUser.None? ==> key == "loans"
  {
    match currentUser
    case Some(user) => GetUserDataKey(user.id, "loans")
    case None => "loans"
  }

  /** Two different users never share a list, and no user reads the legacy one. */
  lemma StorageKeysSeparate(u: User, v: User)
    ensures u.id != v.id ==> GetStorageKey(Some(u)) != GetStorageKey(Some(v))
    ensures GetStorageKey(Some(u)) != GetStorageKey(None)
  {
    if GetStorageKey(Some(u)) == GetStorageKey(Some(v)) {
      UserDataKeyInjective(u.id, v.id, "loans");
    }
    assert |GetStorageKey(Some(u))| > |GetStorageKey(None)|;
  }

  /** A loan as read back from storage: older versions saved no `type`, and
      no `principal`; `None` is a missing (or, for the type, empty) property. */
  datatype StoredLoan = StoredLoan(
    id: string,
    title: string,
    loanType: Option<LoanType>,
    principal: Option<real>,
    currentBalance: Option<real>,
    interestRate: real,
    monthlyPayment: real)

  /** Bring an old record up to date: a missing type becomes "A"; a type-A
      record without a principal gets its current balance (or 0). */
  function MigrateLoan(loan: StoredLoan): (r: StoredLoan)
    ensures r.loanType.Some?
    ensures loan.loanType.Some? ==> r.loanType == loan.loanType
    ensures loan.loanType.None? ==> r.loanType == Some(A)
    ensures r.loanType == Some(A) ==> r.principal.Some?
    ensures r.loanType == Some(A) && loan.principal.None? ==> r.principal == Some(OrZero(loan.currentBalance))
    ensures r.loanType == Some(B) || loan.principal.Some? ==> r.principal == loan.principal
    ensures r.(loanType := loan.loanType, principal := loan.principal) == loan
  {
    var typed := if loan.loanType.None? then loan.(loanType := Some(A)) else loan;
    if typed.loanType == Some(A) && typed.principal.None? then
      typed.(principal := Some(OrZero(typed.currentBalance)))
    else typed
  }

  /** Migrating an up-to-date record changes nothing. */
  lemma MigrateLoanIdempotent(loan: StoredLoan)
    ensures MigrateLoan(MigrateLoan(loan)) == MigrateLoan(loan)
  {
  }

  /** `getLoans` after parsing: every stored record migrated, in order. */
  function MigrateAll(stored: seq<StoredLoan>): (r: seq<StoredLoan>)
    ensures |r| == |stored|
    ensures forall i :: 0 <= i < |stored| ==> r[i] == MigrateLoan(stored[i])
  {
    seq(|stored|, i requires 0 <= i < |stored| => MigrateLoan(stored[i]))
  }

  /** `addLoan`: the new loan goes at the end. */
  function AddLoan(loans: seq<Loan>, loan: Loan): (r: seq<Loan>)
    ensures |r| == |loans| + 1
    ensures r[..|loans|] == loans && r[|loans|] == loan
  {
    loans + [loan]
  }

  function LoanIds(loans: seq<Loan>): (r: seq<string>)
    ensures |r| == |loans| && forall i :: 0 <= i < |loans| ==> r[i] == loans[i].id
  {
    seq(|loans|, i requires 0 <= i < |loans| => loans[i].id)
  }

  /** `loans.findIndex(l => l.id === id)`, as the index of the first match. */
  function FindIndex(loans: seq<Loan>, id: string): (r: Option<nat>)
    ensures r.Some? ==> r.value < |loans| && loans[r.value].id == id
    ensures r.Some? ==> forall j :: 0 <= j < r.value ==> loans[j].id != id
    ensures r.None? <==> forall j :: 0 <= j < |loans| ==> loans[j].id != id
  {
    Find(LoanIds(loans), id)
  }

  /** `updateLoan`: the patch is merged over the first loan with the id;
      `None` when there is none (nothing is saved then). */
  function UpdateLoan(loans: seq<Loan>, id: string, updates: LoanPatch): (r: Option<seq<Loan>>)
    ensures r.None? <==> forall j :: 0 <= j < |loans| ==> loans[j].id != id
    ensures r.Some? ==> |r.value| == |loans|
    ensures r.Some? ==> var i := FindIndex(loans, id).value; r.value[i] == Merge(loans[i], updates)
    ensures r.Some? ==> forall j :: 0 <= j < |loans| && FindIndex(loans, id) != Some(j) ==> r.value[j] == loans[j]
  {
    match FindIndex(loans, id)
    case None => None
    case Some(i) => Some(loans[i := Merge(loans[i], updates)])
  }

  /** An empty patch leaves the list as it was. */
  lemma UpdateWithEmptyPatch(loans: seq<Loan>, id: string)
    ensures UpdateLoan(loans, id, EmptyPatch).Some? ==> UpdateLoan(loans, id, EmptyPatch).value == loans
  {
  }

  /** `deleteLoan`: every loan with the id removed, the rest kept in order. */
  function DeleteLoan(loans: seq<Loan>, id: string): (r: seq<Loan>)
    ensures |r| <= |loans|
    ensures forall l :: l in r <==> l in loans && l.id != id
  {
    if |loans| == 0 then []
    else
      var rest := DeleteLoan(loans[..|loans| - 1], id);
      var last := loans[|loans| - 1];
      assert loans == loans[..|loans| - 1] + [last];
      if last.id == id then rest else rest + [last]
  }

  /** Deleting distributes over concatenation: relative order is kept. */
  lemma {:induction false} DeleteLoanAppend(a: seq<Loan>, b: seq<Loan>, id: string)
    ensures DeleteLoan(a + b, id) == DeleteLoan(a, id) + DeleteLoan(b, id)
    decreases |b|
  {
    if |b| == 0 {
      assert a + b == a;
    } else {
      assert (a + b)[..|a + b| - 1] == a + b[..|b| - 1];
      DeleteLoanAppend(a, b[..|b| - 1], id);
    }
  }

  /** Deleting twice is deleting once. */
  lemma {:induction false} DeleteLoanIdempotent(loans: seq<Loan>, id: string)
    ensures DeleteLoan(DeleteLoan(loans, id), id) == DeleteLoan(loans, id)
  {
    if |loans| > 0 {
      var init := loans[..|loans| - 1];
      var last := loans[|loans| - 1];
      DeleteLoanIdempotent(init, id);
      if last.id != id {
        DeleteLoanAppend(DeleteLoan(init, id), [last], id);
      }
    }
  }

  /** Deleting a loan just added undoes the addition, as far as that id goes. */
  lemma AddThenDelete(loans: seq<Loan>, loan: Loan)
    ensures DeleteLoan(AddLoan(loans, loan), loan.id) == DeleteLoan(loans, loan.id)
  {
    DeleteLoanAppend(loans, [loan], loan.id);
  }
}
