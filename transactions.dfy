/**
 * TransactionService: the transactions table, creation in PENDING under a
 * generated TXN id, the status update and the choice of the event it
 * publishes, and the queries by transaction id and by account number.
 */
module Transactions {
  import opened Wrappers
  import opened Events
  import JavaText

  // Topics TransactionEventProducer publishes to.
  const TransactionCreatedTopic: string := "transaction-created"
  const TransactionCompletedTopic: string := "transaction-completed"
  const TransactionFailedTopic: string := "transaction-failed"

  const PendingStatus: string := "PENDING"

  /** A row of the transactions table (the Transaction entity, timestamps left out). */
  datatype Transaction = Transaction(
    id: int,
    transactionId: string,
    fromAccountNumber: string,
    toAccountNumber: string,
    amount: int,
    currency: string,
    transactionType: string,
    status: string,
    description: Option<string>)

  datatype TransactionInput = TransactionInput(
    fromAccountNumber: string,
    toAccountNumber: string,
    amount: int,
    currency: string,
    transactionType: string,
    description: Option<string>)

  /** The RuntimeExceptions the service throws, and the insert the unique transactionId column rejects. */
  datatype TransactionError =
    | TransactionNotFoundWithId(id: int)
    | TransactionNotFoundWithTransactionId(transactionId: string)
    | DuplicateTransactionId(transactionId: string)

  datatype TransactionEvent =
    | TransactionCreated(transactionId: string, fromAccountNumber: string, toAccountNumber: string, amount: int,
                         currency: string, transactionType: string, status: string, description: Option<string>)
    | TransactionStatusChanged(transactionId: string, fromAccountNumber: string, toAccountNumber: string,
                               amount: int, status: string)

  datatype Table = Table(rows: map<int, Transaction>, nextId: int)

  datatype Outcome<+T> = Outcome(result: Result<T, TransactionError>, table: Table, events: seq<Entry<TransactionEvent>>)

  predicate TransactionIdsUnique(rows: map<int, Transaction>) {
    forall i, j :: i in rows && j in rows && i != j ==> rows[i].transactionId != rows[j].transactionId
  }

  /** Every row is stored under its own id, every id came from the identity column, transactionIds are unique. */
  ghost predicate TableValid(t: Table) {
    && t.nextId >= 1
    && (forall id :: id in t.rows ==> t.rows[id].id == id && 1 <= id < t.nextId)
    && TransactionIdsUnique(t.rows)
  }

  predicate HasTransactionId(rows: map<int, Transaction>, transactionId: string) {
    exists id :: id in rows && rows[id].transactionId == transactionId
  }

  /** TransactionRepository.findByTransactionId: the id of the one row with that transactionId, if any. */
  function FindByTransactionId(rows: map<int, Transaction>, transactionId: string): (r: Option<int>)
    requires TransactionIdsUnique(rows)
    ensures r.Some? ==> r.value in rows && rows[r.value].transactionId == transactionId
    ensures forall id :: id in rows && rows[id].transactionId == transactionId ==> r == Some(id)
  {
    if HasTransactionId(rows, transactionId) then
      var id :| id in rows && rows[id].transactionId == transactionId;
      Some(id)
    else
      None
  }

  /** generateTransactionId, for the UUID the call draws. */
  function GenerateTransactionId(uuid: string): (transactionId: string)
    requires JavaText.IsUuidText(uuid)
    ensures |transactionId| == 15 && transactionId[..3] == "TXN"
    ensures forall i :: 3 <= i < 15 ==> JavaText.IsUpperHexDigit(transactionId[i])
  {
    JavaText.GeneratedId("TXN", uuid)
  }

  /**
   * The topic updateTransactionStatus publishes to: completed or failed when
   * the new status reads COMPLETED or FAILED in any letter case, none otherwise.
   */
  function StatusEventTopic(status: string): (topic: Option<string>)
    ensures JavaText.EqualsIgnoreCase("COMPLETED", status) ==> topic == Some(TransactionCompletedTopic)
    ensures JavaText.EqualsIgnoreCase("FAILED", status) ==> topic == Some(TransactionFailedTopic)
    ensures topic.None? <==>
      !JavaText.EqualsIgnoreCase("COMPLETED", status) && !JavaText.EqualsIgnoreCase("FAILED", status)
  {
    if JavaText.EqualsIgnoreCase("COMPLETED", status) then Some(TransactionCompletedTopic)
    else if JavaText.EqualsIgnoreCase("FAILED", status) then Some(TransactionFailedTopic)
    else None
  }

  function CreatedPayload(x: Transaction): TransactionEvent {
    TransactionCreated(x.transactionId, x.fromAccountNumber, x.toAccountNumber, x.amount,
                       x.currency, x.transactionType, x.status, x.description)
  }

  function StatusPayload(x: Transaction): TransactionEvent {
    TransactionStatusChanged(x.transactionId, x.fromAccountNumber, x.toAccountNumber, x.amount, x.status)
  }

  /** The events a status update publishes: at most one, on the topic the status selects. */
  function StatusEvents(x: Transaction): (events: seq<Entry<TransactionEvent>>)
    ensures |events| <= 1
    ensures |events| == 1 <==> StatusEventTopic(x.status).Some?
    ensures |events| == 1 ==> events[0] == Entry(StatusEventTopic(x.status).value, StatusPayload(x))
  {
    match StatusEventTopic(x.status)
    case Some(topic) => [Entry(topic, StatusPayload(x))]
    case None => []
  }

  /**
   * createTransaction: one new PENDING row carrying the input's fields under
   * the next id and a fresh TXN id, and one transaction-created event with the
   * stored fields. A transactionId already in the table makes the insert fail
   * and nothing changes. Neither the amount nor the pair of accounts is checked.
   */
  function CreateTransactionOutcome(t: Table, input: TransactionInput, uuid: string): (o: Outcome<Transaction>)
    requires JavaText.IsUuidText(uuid)
    ensures o.result.Err? <==> HasTransactionId(t.rows, GenerateTransactionId(uuid))
    ensures o.result.Err? ==>
      && o.result.error == DuplicateTransactionId(GenerateTransactionId(uuid))
      && o.table == t && o.events == []
    ensures o.result.Ok? ==>
      var x := o.result.value;
      && x.id == t.nextId
      && x.transactionId == GenerateTransactionId(uuid)
      && x.fromAccountNumber == input.fromAccountNumber
      && x.toAccountNumber == input.toAccountNumber
      && x.amount == input.amount
      && x.currency == input.currency
      && x.transactionType == input.transactionType
      && x.description == input.description
      && x.status == PendingStatus
      && o.table == Table(t.rows[x.id := x], t.nextId + 1)
      && o.events == [Entry(TransactionCreatedTopic, CreatedPayload(x))]
    ensures TableValid(t) && o.result.Ok? ==> o.result.value.id !in t.rows
    ensures TableValid(t) ==> TableValid(o.table)
  {
    var transactionId := GenerateTransactionId(uuid);
    if HasTransactionId(t.rows, transactionId) then
      Outcome(Err(DuplicateTransactionId(transactionId)), t, [])
    else
      var x := Transaction(t.nextId, transactionId, input.fromAccountNumber, input.toAccountNumber, input.amount,
                           input.currency, input.transactionType, PendingStatus, input.description);
      Outcome(Ok(x), Table(t.rows[x.id := x], t.nextId + 1), [Entry(TransactionCreatedTopic, CreatedPayload(x))])
  }

  /**
   * updateTransactionStatus: the row with that transactionId gets exactly
   * `status`, in the case given and with no check of the transition; every
   * other field and row stays. The status alone selects the event. An unknown
   * transactionId is not found and nothing changes.
   */
  function UpdateTransactionStatusOutcome(t: Table, transactionId: string, status: string): (o: Outcome<Transaction>)
    requires TableValid(t)
    ensures !HasTransactionId(t.rows, transactionId) ==>
      o == Outcome(Err(TransactionNotFoundWithTransactionId(transactionId)), t, [])
    ensures forall id :: id in t.rows && t.rows[id].transactionId == transactionId ==>
      var after := t.rows[id].(status := status);
      o == Outcome(Ok(after), Table(t.rows[id := after], t.nextId), StatusEvents(after))
    ensures TableValid(o.table)
  {
    match FindByTransactionId(t.rows, transactionId)
    case None => Outcome(Err(TransactionNotFoundWithTransactionId(transactionId)), t, [])
    case Some(id) =>
      var after := t.rows[id].(status := status);
      Outcome(Ok(after), Table(t.rows[id := after], t.nextId), StatusEvents(after))
  }

  class TransactionService {
    var rows: map<int, Transaction>
    var nextId: int
    var log: seq<Entry<TransactionEvent>>

    ghost predicate Valid()
      reads this
    {
      TableValid(Table(rows, nextId))
    }

    constructor ()
      ensures Valid() && rows == map[] && nextId == 1 && log == []
    {
      rows, nextId, log := map[], 1, [];
    }

    function GetTransactionById(id: int): (r: Result<Transaction, TransactionError>)
      reads this
      ensures r.Ok? <==> id in rows
      ensures r.Ok? ==> r.value == rows[id]
      ensures r.Err? ==> r.error == TransactionNotFoundWithId(id)
    {
      if id in rows then Ok(rows[id]) else Err(TransactionNotFoundWithId(id))
    }

    function GetTransactionByTransactionId(transactionId: string): (r: Result<Transaction, TransactionError>)
      reads this
      requires Valid()
      ensures r.Ok? <==> HasTransactionId(rows, transactionId)
      ensures r.Ok? ==> r.value.id in rows && rows[r.value.id] == r.value && r.value.transactionId == transactionId
      ensures r.Err? ==> r.error == TransactionNotFoundWithTransactionId(transactionId)
    {
      match FindByTransactionId(rows, transactionId)
      case Some(id) => Ok(rows[id])
      case None => Err(TransactionNotFoundWithTransactionId(transactionId))
    }

    /** getTransactionsByFromAccount: every row sent from that account, and nothing else. */
    function GetTransactionsByFromAccount(fromAccountNumber: string): (r: set<Transaction>)
      reads this
      requires Valid()
      ensures forall id :: id in rows ==> (rows[id] in r <==> rows[id].fromAccountNumber == fromAccountNumber)
      ensures forall x :: x in r ==> x.id in rows && rows[x.id] == x
    {
      set id | id in rows && rows[id].fromAccountNumber == fromAccountNumber :: rows[id]
    }

    /** getTransactionsByToAccount: every row sent to that account, and nothing else. */
    function GetTransactionsByToAccount(toAccountNumber: string): (r: set<Transaction>)
      reads this
      requires Valid()
      ensures forall id :: id in rows ==> (rows[id] in r <==> rows[id].toAccountNumber == toAccountNumber)
      ensures forall x :: x in r ==> x.id in rows && rows[x.id] == x
    {
      set id | id in rows && rows[id].toAccountNumber == toAccountNumber :: rows[id]
    }

    method CreateTransaction(input: TransactionInput, uuid: string) returns (r: Result<Transaction, TransactionError>)
      requires Valid() && JavaText.IsUuidText(uuid)
      modifies this
      ensures Valid()
      ensures var o := CreateTransactionOutcome(old(Table(rows, nextId)), input, uuid);
        r == o.result && Table(rows, nextId) == o.table && log == old(log) + o.events
    {
      var transactionId := GenerateTransactionId(uuid);
      if HasTransactionId(rows, transactionId) {
        return Err(DuplicateTransactionId(transactionId));
      }
      var transaction := Transaction(nextId, transactionId, input.fromAccountNumber, input.toAccountNumber,
                                     input.amount, input.currency, input.transactionType, PendingStatus,
                                     input.description);
      rows := rows[transaction.id := transaction];
      nextId := nextId + 1;
      log := log + [Entry(TransactionCreatedTopic, CreatedPayload(transaction))];
      r := Ok(transaction);
    }

    method UpdateTransactionStatus(transactionId: string, status: string) returns (r: Result<Transaction, TransactionError>)
      requires Valid()
      modifies this
      ensures Valid()
      ensures var o := UpdateTransactionStatusOutcome(old(Table(rows, nextId)), transactionId, status);
        r == o.result && Table(rows, nextId) == o.table && log == old(log) + o.events
      ensures r.Err? ==> rows == old(rows) && log == old(log)
    {
      var found := GetTransactionByTransactionId(transactionId);
      if found.Err? {
        return Err(found.error);
      }
      var transaction := found.value.(status := status);
      rows := rows[transaction.id := transaction];
      var payload := StatusPayload(transaction);
      if JavaText.EqualsIgnoreCase("COMPLETED", status) {
        log := log + [Entry(TransactionCompletedTopic, payload)];
      } else if JavaText.EqualsIgnoreCase("FAILED", status) {
        log := log + [Entry(TransactionFailedTopic, payload)];
      }
      r := Ok(transaction);
    }
  }

  // ---------------------------------------------------------------------------
  // Table-wide properties, over any sequence of service calls.

  datatype Request =
    | CreateTransactionRequest(input: TransactionInput, uuid: string)
    | UpdateTransactionStatusRequest(transactionId: string, status: string)

  predicate WellFormed(req: Request) {
    req.CreateTransactionRequest? ==> JavaText.IsUuidText(req.uuid)
  }

  predicate AllWellFormed(reqs: seq<Request>) {
    forall i :: 0 <= i < |reqs| ==> WellFormed(reqs[i])
  }

  /** Everything about a transaction except its status. */
  predicate SameTerms(a: Transaction, b: Transaction) {
    && a.id == b.id
    && a.transactionId == b.transactionId
    && a.fromAccountNumber == b.fromAccountNumber
    && a.toAccountNumber == b.toAccountNumber
    && a.amount == b.amount
    && a.currency == b.currency
    && a.transactionType == b.transactionType
    && a.description == b.description
  }

  /**
   * One call's effect on the table: it stays valid, no row is removed, the
   * identity counter never goes back, and no existing row changes anything
   * but its status.
   */
  function Step(t: Table, req: Request): (t': Table)
    requires TableValid(t) && WellFormed(req)
    ensures TableValid(t')
    ensures t.rows.Keys <= t'.rows.Keys && t.nextId <= t'.nextId
    ensures forall id :: id in t.rows ==> SameTerms(t.rows[id], t'.rows[id])
  {
    match req
    case CreateTransactionRequest(input, uuid) => CreateTransactionOutcome(t, input, uuid).table
    case UpdateTransactionStatusRequest(transactionId, status) =>
      UpdateTransactionStatusOutcome(t, transactionId, status).table
  }

  /** The table after a sequence of calls; it stays valid whatever the calls. */
  function Run(t: Table, reqs: seq<Request>): (t': Table)
    requires TableValid(t) && AllWellFormed(reqs)
    ensures TableValid(t')
    decreases |reqs|
  {
    if reqs == [] then t else Run(Step(t, reqs[0]), reqs[1..])
  }

  /**
   * Once recorded, a transaction keeps its id, parties, amount, currency, type
   * and description through any sequence of calls: only its status moves.
   */
  lemma {:induction false} RunKeepsTerms(t: Table, reqs: seq<Request>, id: int)
    requires TableValid(t) && AllWellFormed(reqs)
    requires id in t.rows
    ensures id in Run(t, reqs).rows && SameTerms(t.rows[id], Run(t, reqs).rows[id])
    decreases |reqs|
  {
    if reqs != [] {
      RunKeepsTerms(Step(t, reqs[0]), reqs[1..], id);
    }
  }

  /** A status update publishes an event exactly when the status reads COMPLETED or FAILED. */
  lemma StatusUpdatePublishes(t: Table, transactionId: string, status: string)
    requires TableValid(t) && HasTransactionId(t.rows, transactionId)
    ensures var o := UpdateTransactionStatusOutcome(t, transactionId, status);
      && o.result.Ok? && o.result.value.status == status
      && (|o.events| == 1 <==>
            JavaText.EqualsIgnoreCase("COMPLETED", status) || JavaText.EqualsIgnoreCase("FAILED", status))
      && (o.events == [] <==>
            !JavaText.EqualsIgnoreCase("COMPLETED", status) && !JavaText.EqualsIgnoreCase("FAILED", status))
  {
  }
}
