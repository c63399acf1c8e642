/** The mapping between the application's loans and rows of the remote
    `debts` table, and the column payload of a partial update. */
module SupabaseStorage {
  import opened Maybe
  import opened Loans

  /** A row of `debts`: the loan's fields under snake_case column names,
      plus the owner and the server-side timestamps. */
  datatype DebtRow = DebtRow(
    id: string,
    user_id: string,
    title: string,
    loanType: LoanType,
    principal: real,
    current_balance: real,
    interest_rate: real,
    monthly_payment: real,
    created_at: string,
    updated_at: string)

  /** A row as inserted: the timestamps are filled in by the database. */
  datatype NewDebtRow = NewDebtRow(
    id: string,
    user_id: string,
    title: string,
    loanType: LoanType,
    principal: real,
    current_balance: real,
    interest_rate: real,
    monthly_payment: real)

  /** The stored row once the database has added its timestamps. */
  function Stored(row: NewDebtRow, createdAt: string, updatedAt: string): DebtRow {
    DebtRow(row.id, row.user_id, row.title, row.loanType, row.principal,
            row.current_balance, row.interest_rate, row.monthly_payment, createdAt, updatedAt)
  }

  function LoanToDebtRow(loan: Loan, userId: string): (row: NewDebtRow)
    ensures row.user_id == userId
    ensures row.id == loan.id && row.title == loan.title && row.loanType == loan.loanType
    ensures row.principal == loan.principal && row.current_balance == loan.currentBalance
    ensures row.interest_rate == loan.interestRate && row.monthly_payment == loan.monthlyPayment
  {
    NewDebtRow(loan.id, userId, loan.title, loan.loanType, loan.principal,
               loan.currentBalance, loan.interestRate, loan.monthlyPayment)
  }

  function DebtRowToLoan(row: DebtRow): (loan: Loan)
    ensures loan.id == row.id && loan.title == row.title && loan.loanType == row.loanType
    ensures loan.principal == row.principal && loan.currentBalance == row.current_balance
    ensures loan.interestRate == row.interest_rate && loan.monthlyPayment == row.monthly_payment
  {
    Loan(row.id, row.title, row.loanType, row.principal,
         row.current_balance, row.interest_rate, row.monthly_payment)
  }

  /** A loan saved and read back is the same loan, whoever owns it and
      whatever timestamps the database adds. */
  lemma LoanRoundTrip(loan: Loan, userId: string, createdAt: string, updatedAt: string)
    ensures DebtRowToLoan(Stored(LoanToDebtRow(loan, userId), createdAt, updatedAt)) == loan
  {
  }

  /** A row read and saved again under its owner, with its timestamps, is the same row. */
  lemma RowRoundTrip(row: DebtRow)
    ensures Stored(LoanToDebtRow(DebtRowToLoan(row), row.user_id), row.created_at, row.updated_at) == row
  {
  }

  /** `Partial<DebtRow>`: the columns an update sets. */
  datatype DebtPatch = DebtPatch(
    id: Option<string>,
    user_id: Option<string>,
    title: Option<string>,
    loanType: Option<LoanType>,
    principal: Option<real>,
    current_balance: Option<real>,
    interest_rate: Option<real>,
    monthly_payment: Option<real>,
    created_at: Option<string>,
    updated_at: Option<string>)

  const EmptyDebtPatch := DebtPatch(None, None, None, None, None, None, None, None, None, None)

  /** The update payload: each loan field present in `updates` under its
      column name; the id, owner and timestamps are never sent. */
  function BuildUpdateData(updates: LoanPatch): (data: DebtPatch)
    ensures data.id.None? && data.user_id.None? && data.created_at.None? && data.updated_at.None?
    ensures data.title == updates.title && data.loanType == updates.loanType
    ensures data.principal == updates.principal && data.current_balance == updates.currentBalance
    ensures data.interest_rate == updates.interestRate && data.monthly_payment == updates.monthlyPayment
    ensures updates.(id := None) == EmptyPatch <==> data == EmptyDebtPatch
  {
    var data := EmptyDebtPatch;
    var data := if updates.title.Some? then data.(title := updates.title) else data;
    var data := if updates.loanType.Some? then data.(loanType := updates.loanType) else data;
    var data := if updates.principal.Some? then data.(principal := updates.principal) else data;
    var data := if updates.currentBalance.Some? then data.(current_balance := updates.currentBalance) else data;
    var data := if updates.interestRate.Some? then data.(interest_rate := updates.interestRate) else data;
    var data := if updates.monthlyPayment.Some? then data.(monthly_payment := updates.monthlyPayment) else data;
    data
  }

  /** What the database does with a payload: the columns present are overwritten. */
  function ApplyDebtPatch(row: DebtRow, patch: DebtPatch): DebtRow {
    DebtRow(
      patch.id.GetOr(row.id),
      patch.user_id.GetOr(row.user_id),
      patch.title.GetOr(row.title),
      patch.loanType.GetOr(row.loanType),
      patch.principal.GetOr(row.principal),
      patch.current_balance.GetOr(row.current_balance),
      patch.interest_rate.GetOr(row.interest_rate),
      patch.monthly_payment.GetOr(row.monthly_payment),
      patch.created_at.GetOr(row.created_at),
      patch.updated_at.GetOr(row.updated_at))
  }

  /** The remote update agrees with the local merge of the same patch, except
      that an `id` in the patch is not sent; the owner and timestamps stay. */
  lemma RemoteUpdateMatchesMerge(row: DebtRow, updates: LoanPatch)
    ensures DebtRowToLoan(ApplyDebtPatch(row, BuildUpdateData(updates)))
            == Merge(DebtRowToLoan(row), updates.(id := None))
    ensures ApplyDebtPatch(row, BuildUpdateData(updates)).user_id == row.user_id
    ensures ApplyDebtPatch(row, BuildUpdateData(updates)).created_at == row.created_at
  {
  }
}
