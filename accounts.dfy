/**
 * AccountService: the accounts table, balance updates by CREDIT or DEBIT,
 * status updates and deletion, and the events published on each change.
 * Balances are BigDecimal in the source; here they are integers in minor
 * units, which keeps addition, subtraction and comparison exact.
 */
module Accounts {
  import opened Wrappers
  import opened Events
  import JavaText

  // Topics AccountEventProducer publishes to.
  const AccountCreatedTopic: string := "account-created"
  const AccountUpdatedTopic: string := "account-updated"
  const BalanceUpdatedTopic: string := "balance-updated"

  const ActiveStatus: string := "ACTIVE"

  /** A row of the accounts table; `id` is the value of the identity column. */
  datatype Account = Account(
    id: int,
    accountNumber: string,
    customerId: int,
    accountType: string,
    balance: int,
    currency: string,
    status: string)

  datatype AccountInput = AccountInput(customerId: int, accountType: string, initialBalance: int, currency: string)

  datatype UpdateBalanceInput = UpdateBalanceInput(accountNumber: string, amount: int, operationType: string)

  /** The RuntimeExceptions the service throws, and the rejected insert of a number already in use. */
  datatype AccountError =
    | AccountNotFoundWithId(id: int)
    | AccountNotFoundWithNumber(accountNumber: string)
    | InsufficientBalance
    | InvalidOperationType(operationType: string)
    | DuplicateAccountNumber(accountNumber: string)

  /** The payloads the service publishes (timestamps left out). */
  datatype AccountEvent =
    | AccountCreated(accountId: int, accountNumber: string, customerId: int, accountType: string,
                     balance: int, currency: string, status: string)
    | BalanceUpdated(accountId: int, accountNumber: string, previousBalance: int, newBalance: int,
                     amount: int, operationType: string)
    | AccountUpdated(accountId: int, accountNumber: string, status: string)

  /** The repository's state: the rows keyed by id, and the next value of the identity column. */
  datatype Table = Table(rows: map<int, Account>, nextId: int)

  /** What one service call does: what it returns or throws, the table afterwards, the events it publishes. */
  datatype Outcome<+T> = Outcome(result: Result<T, AccountError>, table: Table, events: seq<Entry<AccountEvent>>)

  predicate NumbersUnique(rows: map<int, Account>) {
    forall i, j :: i in rows && j in rows && i != j ==> rows[i].accountNumber != rows[j].accountNumber
  }

  /** Every row is stored under its own id, every id came from the identity column, numbers are unique. */
  ghost predicate TableValid(t: Table) {
    && t.nextId >= 1
    && (forall id :: id in t.rows ==> t.rows[id].id == id && 1 <= id < t.nextId)
    && NumbersUnique(t.rows)
  }

  predicate HasNumber(rows: map<int, Account>, accountNumber: string) {
    exists id :: id in rows && rows[id].accountNumber == accountNumber
  }

  /** AccountRepository.findByAccountNumber: the id of the one row with that number, if there is one. */
  function FindByAccountNumber(rows: map<int, Account>, accountNumber: string): (r: Option<int>)
    requires NumbersUnique(rows)
    ensures r.Some? ==> r.value in rows && rows[r.value].accountNumber == accountNumber
    ensures forall id :: id in rows && rows[id].accountNumber == accountNumber ==> r == Some(id)
  {
    if HasNumber(rows, accountNumber) then
      var id :| id in rows && rows[id].accountNumber == accountNumber;
      Some(id)
    else
      None
  }

  /** `"CREDIT".equalsIgnoreCase(operationType)` */
  predicate IsCredit(operationType: string) {
    JavaText.EqualsIgnoreCase("CREDIT", operationType)
  }

  /** `"DEBIT".equalsIgnoreCase(operationType)` */
  predicate IsDebit(operationType: string) {
    JavaText.EqualsIgnoreCase("DEBIT", operationType)
  }

  /**
   * The balance after applying `operationType` with `amount` to `current`.
   * The amount's sign is not checked, so only a debit is guaranteed to leave
   * a balance that is not negative.
   */
  function NewBalance(current: int, operationType: string, amount: int): (r: Result<int, AccountError>)
    ensures IsCredit(operationType) ==> r == Ok(current + amount)
    ensures IsDebit(operationType) ==> (r.Ok? <==> amount <= current)
    ensures IsDebit(operationType) && r.Ok? ==> r.value == current - amount && r.value >= 0
    ensures IsDebit(operationType) && r.Err? ==> r.error == InsufficientBalance
    ensures !IsCredit(operationType) && !IsDebit(operationType) ==> r == Err(InvalidOperationType(operationType))
  {
    if IsCredit(operationType) then Ok(current + amount)
    else if IsDebit(operationType) then
      if current < amount then Err(InsufficientBalance) else Ok(current - amount)
    else Err(InvalidOperationType(operationType))
  }

  /** generateAccountNumber, for the UUID the call draws. */
  function GenerateAccountNumber(uuid: string): (n: string)
    requires JavaText.IsUuidText(uuid)
    ensures |n| == 15 && n[..3] == "ACC"
    ensures forall i :: 3 <= i < 15 ==> JavaText.IsUpperHexDigit(n[i])
  {
    JavaText.GeneratedId("ACC", uuid)
  }

  function CreatedPayload(a: Account): AccountEvent {
    AccountCreated(a.id, a.accountNumber, a.customerId, a.accountType, a.balance, a.currency, a.status)
  }

  /**
   * createAccount: one new ACTIVE row holding the initial balance, under the
   * next id and a fresh ACC number, and one account-created event. A number
   * already in the table is rejected by the insert and nothing changes.
   */
  function CreateAccountOutcome(t: Table, input: AccountInput, uuid: string): (o: Outcome<Account>)
    requires JavaText.IsUuidText(uuid)
    ensures o.result.Err? <==> HasNumber(t.rows, GenerateAccountNumber(uuid))
    ensures o.result.Err? ==>
      && o.result.error == DuplicateAccountNumber(GenerateAccountNumber(uuid))
      && o.table == t && o.events == []
    ensures o.result.Ok? ==>
      var a := o.result.value;
      && a.id == t.nextId
      && a.accountNumber == GenerateAccountNumber(uuid)
      && a.customerId == input.customerId
      && a.accountType == input.accountType
      && a.balance == input.initialBalance
      && a.currency == input.currency
      && a.status == ActiveStatus
      && o.table == Table(t.rows[a.id := a], t.nextId + 1)
      && o.events == [Entry(AccountCreatedTopic, CreatedPayload(a))]
    ensures TableValid(t) && o.result.Ok? ==> o.result.value.id !in t.rows
    ensures TableValid(t) ==> TableValid(o.table)
  {
    var accountNumber := GenerateAccountNumber(uuid);
    if HasNumber(t.rows, accountNumber) then
      Outcome(Err(DuplicateAccountNumber(accountNumber)), t, [])
    else
      var a := Account(t.nextId, accountNumber, input.customerId, input.accountType,
                       input.initialBalance, input.currency, ActiveStatus);
      Outcome(Ok(a), Table(t.rows[a.id := a], t.nextId + 1), [Entry(AccountCreatedTopic, CreatedPayload(a))])
  }

  /**
   * updateBalance: an unknown number is not found; otherwise the new balance
   * decides. On success only that row's balance changes and one
   * balance-updated event records the old and new balance and the input; on
   * any error neither the table nor the events change.
   */
  function UpdateBalanceOutcome(t: Table, input: UpdateBalanceInput): (o: Outcome<Account>)
    requires TableValid(t)
    ensures !HasNumber(t.rows, input.accountNumber) ==>
      o == Outcome(Err(AccountNotFoundWithNumber(input.accountNumber)), t, [])
    ensures forall id :: id in t.rows && t.rows[id].accountNumber == input.accountNumber ==>
      var before := t.rows[id];
      match NewBalance(before.balance, input.operationType, input.amount)
      case Err(e) => o == Outcome(Err(e), t, [])
      case Ok(b) =>
        var after := before.(balance := b);
        o == Outcome(Ok(after), Table(t.rows[id := after], t.nextId),
                     [Entry(BalanceUpdatedTopic,
                            BalanceUpdated(id, before.accountNumber, before.balance, b, input.amount, input.operationType))])
    ensures TableValid(o.table)
  {
    match FindByAccountNumber(t.rows, input.accountNumber)
    case None => Outcome(Err(AccountNotFoundWithNumber(input.accountNumber)), t, [])
    case Some(id) =>
      var before := t.rows[id];
      match NewBalance(before.balance, input.operationType, input.amount)
      case Err(e) => Outcome(Err(e), t, [])
      case Ok(b) =>
        var after := before.(balance := b);
        Outcome(Ok(after), Table(t.rows[id := after], t.nextId),
                [Entry(BalanceUpdatedTopic,
                       BalanceUpdated(id, before.accountNumber, before.balance, b, input.amount, input.operationType))])
  }

  /**
   * updateAccountStatus: the row with that number gets exactly `status`, with
   * no check of the value, and one account-updated event; an unknown number
   * is not found and nothing changes.
   */
  function UpdateAccountStatusOutcome(t: Table, accountNumber: string, status: string): (o: Outcome<Account>)
    requires TableValid(t)
    ensures !HasNumber(t.rows, accountNumber) ==>
      o == Outcome(Err(AccountNotFoundWithNumber(accountNumber)), t, [])
    ensures forall id :: id in t.rows && t.rows[id].accountNumber == accountNumber ==>
      var after := t.rows[id].(status := status);
      o == Outcome(Ok(after), Table(t.rows[id := after], t.nextId),
                   [Entry(AccountUpdatedTopic, AccountUpdated(id, accountNumber, status))])
    ensures TableValid(o.table)
  {
    match FindByAccountNumber(t.rows, accountNumber)
    case None => Outcome(Err(AccountNotFoundWithNumber(accountNumber)), t, [])
    case Some(id) =>
      var after := t.rows[id].(status := status);
      Outcome(Ok(after), Table(t.rows[id := after], t.nextId),
              [Entry(AccountUpdatedTopic, AccountUpdated(id, after.accountNumber, status))])
  }

  /** deleteAccount: removes exactly the row with that id and returns true, publishing nothing. */
  function DeleteAccountOutcome(t: Table, id: int): (o: Outcome<bool>)
    ensures o.events == [] && o.table.nextId == t.nextId
    ensures o.result.Ok? <==> id in t.rows
    ensures o.result.Ok? ==> o.result.value && o.table.rows == t.rows - {id}
    ensures o.result.Err? ==> o.result.error == AccountNotFoundWithId(id) && o.table == t
    ensures TableValid(t) ==> TableValid(o.table)
  {
    if id in t.rows then Outcome(Ok(true), Table(t.rows - {id}, t.nextId), [])
    else Outcome(Err(AccountNotFoundWithId(id)), t, [])
  }

  /** The service, holding the repository's table and the log of published events. */
  class AccountService {
    var rows: map<int, Account>
    var nextId: int
    var log: seq<Entry<AccountEvent>>

    ghost predicate Valid()
      reads this
    {
      TableValid(Table(rows, nextId))
    }

    constructor ()
      ensures Valid() && rows == map[] && nextId == 1 && log == []
    {
      rows, nextId, log := map[], 1, [];
    }

    function GetAccountById(id: int): (r: Result<Account, AccountError>)
      reads this
      ensures r.Ok? <==> id in rows
      ensures r.Ok? ==> r.value == rows[id]
      ensures r.Err? ==> r.error == AccountNotFoundWithId(id)
    {
      if id in rows then Ok(rows[id]) else Err(AccountNotFoundWithId(id))
    }

    function GetAccountByNumber(accountNumber: string): (r: Result<Account, AccountError>)
      reads this
      requires Valid()
      ensures r.Ok? <==> HasNumber(rows, accountNumber)
      ensures r.Ok? ==> r.value.id in rows && rows[r.value.id] == r.value && r.value.accountNumber == accountNumber
      ensures r.Err? ==> r.error == AccountNotFoundWithNumber(accountNumber)
    {
      match FindByAccountNumber(rows, accountNumber)
      case Some(id) => Ok(rows[id])
      case None => Err(AccountNotFoundWithNumber(accountNumber))
    }

    /** getAccountsByCustomerId: every row of that customer, and nothing else. */
    function GetAccountsByCustomerId(customerId: int): (r: set<Account>)
      reads this
      requires Valid()
      ensures forall id :: id in rows ==> (rows[id] in r <==> rows[id].customerId == customerId)
      ensures forall a :: a in r ==> a.id in rows && rows[a.id] == a
    {
      set id | id in rows && rows[id].customerId == customerId :: rows[id]
    }

    method CreateAccount(input: AccountInput, uuid: string) returns (r: Result<Account, AccountError>)
      requires Valid() && JavaText.IsUuidText(uuid)
      modifies this
      ensures Valid()
      ensures var o := CreateAccountOutcome(old(Table(rows, nextId)), input, uuid);
        r == o.result && Table(rows, nextId) == o.table && log == old(log) + o.events
    {
      var accountNumber := GenerateAccountNumber(uuid);
      if HasNumber(rows, accountNumber) {
        return Err(DuplicateAccountNumber(accountNumber));
      }
      var account := Account(nextId, accountNumber, input.customerId, input.accountType,
                             input.initialBalance, input.currency, ActiveStatus);
      rows := rows[account.id := account];
      nextId := nextId + 1;
      log := log + [Entry(AccountCreatedTopic, CreatedPayload(account))];
      r := Ok(account);
    }

    method UpdateBalance(input: UpdateBalanceInput) returns (r: Result<Account, AccountError>)
      requires Valid()
      modifies this
      ensures Valid()
      ensures var o := UpdateBalanceOutcome(old(Table(rows, nextId)), input);
        r == o.result && Table(rows, nextId) == o.table && log == old(log) + o.events
      ensures r.Err? ==> rows == old(rows) && log == old(log)
    {
      var found := GetAccountByNumber(input.accountNumber);
      if found.Err? {
        return Err(found.error);
      }
      var account := found.value;
      var currentBalance := account.balance;
      var newBalance := NewBalance(currentBalance, input.operationType, input.amount);
      if newBalance.Err? {
        return Err(newBalance.error);
      }
      account := account.(balance := newBalance.value);
      rows := rows[account.id := account];
      log := log + [Entry(BalanceUpdatedTopic,
                          BalanceUpdated(account.id, account.accountNumber, currentBalance, newBalance.value,
                                         input.amount, input.operationType))];
      r := Ok(account);
    }

    method UpdateAccountStatus(accountNumber: string, status: string) returns (r: Result<Account, AccountError>)
      requires Valid()
      modifies this
      ensures Valid()
      ensures var o := UpdateAccountStatusOutcome(old(Table(rows, nextId)), accountNumber, status);
        r == o.result && Table(rows, nextId) == o.table && log == old(log) + o.events
    {
      var found := GetAccountByNumber(accountNumber);
      if found.Err? {
        return Err(found.error);
      }
      var account := found.value.(status := status);
      rows := rows[account.id := account];
      log := log + [Entry(AccountUpdatedTopic, AccountUpdated(account.id, account.accountNumber, account.status))];
      r := Ok(account);
    }

    method DeleteAccount(id: int) returns (r: Result<bool, AccountError>)
      requires Valid()
      modifies this
      ensures Valid()
      ensures var o := DeleteAccountOutcome(old(Table(rows, nextId)), id);
        r == o.result && Table(rows, nextId) == o.table && log == old(log) + o.events
    {
      var found := GetAccountById(id);
      if found.Err? {
        return Err(found.error);
      }
      rows := rows - {found.value.id};
      r := Ok(true);
    }
  }

  // ---------------------------------------------------------------------------
  // Table-wide properties, over any sequence of service calls.

  datatype Request =
    | CreateAccountRequest(input: AccountInput, uuid: string)
    | UpdateBalanceRequest(balanceInput: UpdateBalanceInput)
    | UpdateAccountStatusRequest(accountNumber: string, status: string)
    | DeleteAccountRequest(id: int)

  /** The UUID a create call draws is always the text of a UUID. */
  predicate WellFormed(req: Request) {
    req.CreateAccountRequest? ==> JavaText.IsUuidText(req.uuid)
  }

  predicate AllWellFormed(reqs: seq<Request>) {
    forall i :: 0 <= i < |reqs| ==> WellFormed(reqs[i])
  }

  /** The fields of an account that it keeps from creation on. */
  predicate SameIdentity(a: Account, b: Account) {
    && a.id == b.id
    && a.accountNumber == b.accountNumber
    && a.customerId == b.customerId
    && a.accountType == b.accountType
    && a.currency == b.currency
  }

  /**
   * One call's effect on the table. It keeps the table valid, never lowers
   * the identity counter, never changes the identity of a row that survives,
   * and never brings back a deleted id.
   */
  function Step(t: Table, req: Request): (t': Table)
    requires TableValid(t) && WellFormed(req)
    ensures TableValid(t')
    ensures t.nextId <= t'.nextId
    ensures forall id :: id in t.rows && id in t'.rows ==> SameIdentity(t.rows[id], t'.rows[id])
    ensures forall id :: id < t.nextId && id !in t.rows ==> id !in t'.rows
  {
    match req
    case CreateAccountRequest(input, uuid) => CreateAccountOutcome(t, input, uuid).table
    case UpdateBalanceRequest(balanceInput) => UpdateBalanceOutcome(t, balanceInput).table
    case UpdateAccountStatusRequest(accountNumber, status) => UpdateAccountStatusOutcome(t, accountNumber, status).table
    case DeleteAccountRequest(id) => DeleteAccountOutcome(t, id).table
  }

  /** The table after a sequence of calls; it stays valid whatever the calls. */
  function Run(t: Table, reqs: seq<Request>): (t': Table)
    requires TableValid(t) && AllWellFormed(reqs)
    ensures TableValid(t')
    ensures t.nextId <= t'.nextId
    decreases |reqs|
  {
    if reqs == [] then t else Run(Step(t, reqs[0]), reqs[1..])
  }

  /** A deleted id is never reused: the identity column only moves forward. */
  lemma {:induction false} RunNeverRevives(t: Table, reqs: seq<Request>, id: int)
    requires TableValid(t) && AllWellFormed(reqs)
    requires id < t.nextId && id !in t.rows
    ensures id !in Run(t, reqs).rows
    decreases |reqs|
  {
    if reqs != [] {
      RunNeverRevives(Step(t, reqs[0]), reqs[1..], id);
    }
  }

  /** An account that is still there after any calls has the number, owner, type and currency it was created with. */
  lemma {:induction false} RunKeepsIdentity(t: Table, reqs: seq<Request>, id: int)
    requires TableValid(t) && AllWellFormed(reqs)
    requires id in t.rows
    ensures id in Run(t, reqs).rows ==> SameIdentity(t.rows[id], Run(t, reqs).rows[id])
    decreases |reqs|
  {
    if reqs != [] {
      var t1 := Step(t, reqs[0]);
      if id in t1.rows {
        RunKeepsIdentity(t1, reqs[1..], id);
      } else {
        RunNeverRevives(t1, reqs[1..], id);
      }
    }
  }

  predicate BalancesNonNegative(t: Table) {
    forall id :: id in t.rows ==> t.rows[id].balance >= 0
  }

  /** A call that cannot add a negative amount: a non-negative opening balance, a non-negative credit. */
  predicate NoNegativeInflow(req: Request) {
    match req
    case CreateAccountRequest(input, _) => input.initialBalance >= 0
    case UpdateBalanceRequest(balanceInput) => IsCredit(balanceInput.operationType) ==> balanceInput.amount >= 0
    case _ => true
  }

  lemma StepKeepsBalancesNonNegative(t: Table, req: Request)
    requires TableValid(t) && WellFormed(req) && NoNegativeInflow(req)
    requires BalancesNonNegative(t)
    ensures BalancesNonNegative(Step(t, req))
  {
  }

  /**
   * No overdraft, table-wide, as far as the code ensures it: as long as no
   * account is opened with a negative balance and no negative amount is
   * credited, every balance stays at or above zero, whatever is debited.
   */
  lemma {:induction false} RunKeepsBalancesNonNegative(t: Table, reqs: seq<Request>)
    requires TableValid(t) && AllWellFormed(reqs)
    requires forall i :: 0 <= i < |reqs| ==> NoNegativeInflow(reqs[i])
    requires BalancesNonNegative(t)
    ensures BalancesNonNegative(Run(t, reqs))
    decreases |reqs|
  {
    if reqs != [] {
      StepKeepsBalancesNonNegative(t, reqs[0]);
      RunKeepsBalancesNonNegative(Step(t, reqs[0]), reqs[1..]);
    }
  }

  /** The opening balance's sign is not checked: an account can be opened below zero. */
  lemma NegativeOpeningBalanceIsAccepted(uuid: string)
    requires JavaText.IsUuidText(uuid)
    ensures var o := CreateAccountOutcome(Table(map[], 1), AccountInput(7, "SAVINGS", -10, "USD"), uuid);
      o.result.Ok? && o.result.value.balance == -10 && o.table.rows[1].balance == -10
  {
  }

  /** Neither operation checks the amount's sign: a negative CREDIT overdraws, a negative DEBIT adds money. */
  lemma NegativeAmountsAreAccepted()
    ensures var a := Account(1, "ACC0123456789AB", 7, "SAVINGS", 0, "USD", ActiveStatus);
      var t := Table(map[1 := a], 2);
      && UpdateBalanceOutcome(t, UpdateBalanceInput("ACC0123456789AB", -5, "CREDIT")).table.rows[1].balance == -5
      && UpdateBalanceOutcome(t, UpdateBalanceInput("ACC0123456789AB", -5, "debit")).table.rows[1].balance == 5
  {
  }
}
