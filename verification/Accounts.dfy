/** Customer and platform accounts. Every change yields a new value. */
module Accounts {
  import opened Entries
  import opened Identifiers
  import opened Money
  import opened Results

  datatype Kind = UserKind | SystemKind

  datatype Purpose = Checking | Savings | Funding | Settlement {
    function Kind(): Kind {
      if this in {Checking, Savings} then UserKind else SystemKind
    }
  }

  /** Checking and savings accounts are customers'; funding and settlement accounts the platform's. */
  lemma PurposesByKind(p: Purpose)
    ensures p.Kind() == UserKind <==> p == Checking || p == Savings
    ensures p.Kind() == SystemKind <==> p == Funding || p == Settlement
  {
  }

  datatype Status = Active | Closed

  datatype Account =
    | User(id: Uuid, owner: Uuid, purpose: Purpose, currency: Currency, balance: Money, status: Status, version: int)
    | System(id: Uuid, owner: Uuid, purpose: Purpose, currency: Currency)
  {
    /** What the constructor guards accept. */
    predicate Valid() {
      match this
      case User(_, _, _, _, _, _, _) => purpose.Kind() == UserKind && balance.currency == currency && version >= 0
      case System(_, _, _, _) => purpose.Kind() == SystemKind
    }
  }

  type UserAccount = a: Account | a.User? witness User(0, 0, Checking, "USD", Money(0, "USD"), Active, 0)

  function MakeUser(
    id: Uuid, owner: Uuid, purpose: Purpose, currency: Currency, balance: Money, status: Status, version: int)
    : Result<UserAccount>
  {
    if purpose.Kind() != UserKind then Err(InvalidAccountPurpose)
    else if balance.currency != currency then Err(CurrencyMismatch)
    else if version < 0 then Err(InvalidVersion)
    else Ok(User(id, owner, purpose, currency, balance, status, version))
  }

  /** A customer account is built from exactly the columns that fit together. */
  lemma MadeIff(
    id: Uuid, owner: Uuid, purpose: Purpose, currency: Currency, balance: Money, status: Status, version: int)
    ensures MakeUser(id, owner, purpose, currency, balance, status, version)
         == if purpose != Checking && purpose != Savings then Err(InvalidAccountPurpose)
            else if balance.currency != currency then Err(CurrencyMismatch)
            else if version < 0 then Err(InvalidVersion)
            else Ok(User(id, owner, purpose, currency, balance, status, version))
  {
    PurposesByKind(purpose);
  }

  function MakeSystem(id: Uuid, owner: Uuid, purpose: Purpose, currency: Currency): Result<Account> {
    if purpose.Kind() != SystemKind then Err(InvalidAccountPurpose)
    else Ok(System(id, owner, purpose, currency))
  }

  /** And a platform account from a platform purpose. */
  lemma SystemMadeIff(id: Uuid, owner: Uuid, purpose: Purpose, currency: Currency)
    ensures MakeSystem(id, owner, purpose, currency)
         == if purpose != Funding && purpose != Settlement then Err(InvalidAccountPurpose)
            else Ok(System(id, owner, purpose, currency))
  {
    PurposesByKind(purpose);
  }

  /** An account is born ACTIVE, empty, at version 0. */
  function OpenUser(id: Uuid, owner: Uuid, purpose: Purpose, currency: Currency): Result<UserAccount> {
    MakeUser(id, owner, purpose, currency, Money(0, currency), Active, 0)
  }

  /** The preflight every balance-moving behaviour shares; its order decides which refusal is raised. */
  function ValidatedBalance(a: UserAccount, e: Entry, required: Direction): Result<Money> {
    if a.status != Active then Err(AccountNotOperable)
    else if e.accountId != a.id then Err(EntryAccountMismatch)
    else if e.direction != required then Err(EntryDirectionMismatch)
    else a.balance.Add(e.Signed())
  }

  function ApplyCredit(a: UserAccount, e: Entry): Result<UserAccount> {
    var resulting :- ValidatedBalance(a, e, Credit);
    Ok(a.(balance := resulting, version := a.version + 1))
  }

  /** The ordinary debit: refuses to drive the balance below zero. */
  function ApplyDebit(a: UserAccount, e: Entry): Result<UserAccount> {
    var resulting :- ValidatedBalance(a, e, Debit);
    if resulting.IsNegative() then Err(InsufficientFunds)
    else Ok(a.(balance := resulting, version := a.version + 1))
  }

  /** The reversal debit: the one path that may leave a debt. */
  function ApplyDebitForReversal(a: UserAccount, e: Entry): Result<UserAccount> {
    var resulting :- ValidatedBalance(a, e, Debit);
    Ok(a.(balance := resulting, version := a.version + 1))
  }

  function ApplyClose(a: UserAccount): Result<UserAccount> {
    if a.status != Active then Err(AccountNotClosable)
    else if !a.balance.IsZero() then Err(AccountNotEmpty)
    else Ok(a.(status := Closed, version := a.version + 1))
  }

  // ---- what each behaviour comes to

  /** Why an entry cannot move an account: closed, another account's, the wrong way round, another currency. */
  function EntryRefusal(a: UserAccount, e: Entry, wanted: Direction): Option<Error> {
    if a.status == Closed then Some(AccountNotOperable)
    else if e.accountId != a.id then Some(EntryAccountMismatch)
    else if e.direction != wanted then Some(EntryDirectionMismatch)
    else if e.amount.currency != a.balance.currency then Some(CurrencyMismatch)
    else None
  }

  /** A credit adds the entry's amount, whatever the balance; nothing else of the account changes but its version. */
  lemma CreditDecides(a: UserAccount, e: Entry)
    ensures
      match EntryRefusal(a, e, Credit)
      case Some(refusal) => ApplyCredit(a, e) == Err(refusal)
      case None =>
        var credited := User(a.id, a.owner, a.purpose, a.currency,
                             Money(a.balance.amount + e.amount.amount, a.balance.currency), Active, a.version + 1);
        ApplyCredit(a, e) == Ok(credited)
  {
  }

  /** A debit takes the amount away; only the ordinary one asks for funds. */
  lemma DebitsDecide(a: UserAccount, e: Entry)
    ensures
      match EntryRefusal(a, e, Debit)
      case Some(refusal) => ApplyDebit(a, e) == Err(refusal) && ApplyDebitForReversal(a, e) == Err(refusal)
      case None =>
        var debited := User(a.id, a.owner, a.purpose, a.currency,
                            Money(a.balance.amount - e.amount.amount, a.balance.currency), Active, a.version + 1);
        && ApplyDebitForReversal(a, e) == Ok(debited)
        && ApplyDebit(a, e) == if e.amount.amount > a.balance.amount then Err(InsufficientFunds) else Ok(debited)
  {
  }

  /** Closing needs an active, empty account and changes its status and version alone. */
  lemma CloseDecides(a: UserAccount)
    ensures ApplyClose(a)
         == if a.status == Closed then Err(AccountNotClosable)
            else if a.balance.amount != 0 then Err(AccountNotEmpty)
            else Ok(User(a.id, a.owner, a.purpose, a.currency, a.balance, Closed, a.version + 1))
  {
  }
}
