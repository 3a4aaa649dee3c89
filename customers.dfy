/**
 * CustomerService: the customers table, creation and partial update under a
 * unique-email rule, status update and deletion, and the events published
 * on each change.
 */
module Customers {
  import opened Wrappers
  import opened Events

  // Topics CustomerEventProducer publishes to.
  const CustomerCreatedTopic: string := "customer-created"
  const CustomerUpdatedTopic: string := "customer-updated"
  const CustomerDeletedTopic: string := "customer-deleted"

  const ActiveStatus: string := "ACTIVE"

  /** A LocalDate, kept as its three fields. */
  datatype Date = Date(year: int, month: int, day: int)

  /** A row of the customers table (timestamps left out). */
  datatype Customer = Customer(
    id: int,
    firstName: string,
    lastName: string,
    email: string,
    phoneNumber: string,
    dateOfBirth: Date,
    address: string,
    city: string,
    country: string,
    postalCode: string,
    status: string)

  datatype CustomerInput = CustomerInput(
    firstName: string,
    lastName: string,
    email: string,
    phoneNumber: string,
    dateOfBirth: Date,
    address: string,
    city: string,
    country: string,
    postalCode: string)

  /** UpdateCustomerInput: `None` is a null field, meaning "leave unchanged". */
  datatype UpdateCustomerInput = UpdateCustomerInput(
    id: int,
    phoneNumber: Option<string>,
    email: Option<string>,
    address: Option<string>,
    city: Option<string>,
    postalCode: Option<string>)

  datatype CustomerError =
    | CustomerNotFoundWithId(id: int)
    | CustomerNotFoundWithEmail(email: string)
    | EmailAlreadyExists(email: string)
    | EmailInUse(email: string)

  /** The payloads the service publishes (timestamps left out). */
  datatype CustomerEvent =
    | CustomerCreated(customerId: int, firstName: string, lastName: string, email: string, phoneNumber: string,
                      dateOfBirth: Date, address: string, city: string, country: string, postalCode: string,
                      status: string)
    | CustomerUpdated(customerId: int, email: string, phoneNumber: string, address: string, city: string,
                      postalCode: string)
    | CustomerStatusUpdated(customerId: int, status: string)
    | CustomerDeleted(customerId: int, email: string)

  datatype Table = Table(rows: map<int, Customer>, nextId: int)

  datatype Outcome<+T> = Outcome(result: Result<T, CustomerError>, table: Table, events: seq<Entry<CustomerEvent>>)

  predicate EmailsUnique(rows: map<int, Customer>) {
    forall i, j :: i in rows && j in rows && i != j ==> rows[i].email != rows[j].email
  }

  /** Every row is stored under its own id, every id came from the identity column, emails are unique. */
  ghost predicate TableValid(t: Table) {
    && t.nextId >= 1
    && (forall id :: id in t.rows ==> t.rows[id].id == id && 1 <= id < t.nextId)
    && EmailsUnique(t.rows)
  }

  predicate HasEmail(rows: map<int, Customer>, email: string) {
    exists id :: id in rows && rows[id].email == email
  }

  /** CustomerRepository.findByEmail: the id of the one row with that email, if any. */
  function FindByEmail(rows: map<int, Customer>, email: string): (r: Option<int>)
    requires EmailsUnique(rows)
    ensures r.Some? ==> r.value in rows && rows[r.value].email == email
    ensures forall id :: id in rows && rows[id].email == email ==> r == Some(id)
  {
    if HasEmail(rows, email) then
      var id :| id in rows && rows[id].email == email;
      Some(id)
    else
      None
  }

  function CreatedPayload(c: Customer): CustomerEvent {
    CustomerCreated(c.id, c.firstName, c.lastName, c.email, c.phoneNumber, c.dateOfBirth,
                    c.address, c.city, c.country, c.postalCode, c.status)
  }

  function UpdatedPayload(c: Customer): CustomerEvent {
    CustomerUpdated(c.id, c.email, c.phoneNumber, c.address, c.city, c.postalCode)
  }

  /**
   * updateCustomer's setters on one record: each non-null field of the input
   * replaces the stored one; name, date of birth, country and status are never
   * touched. (The email check that precedes the setters is in UpdateCustomerOutcome.)
   */
  function MergeUpdate(c: Customer, input: UpdateCustomerInput): (r: Customer)
    ensures r.id == c.id && r.firstName == c.firstName && r.lastName == c.lastName
    ensures r.dateOfBirth == c.dateOfBirth && r.country == c.country && r.status == c.status
    ensures r.email == (if input.email.Some? then input.email.value else c.email)
    ensures r.phoneNumber == (if input.phoneNumber.Some? then input.phoneNumber.value else c.phoneNumber)
    ensures r.address == (if input.address.Some? then input.address.value else c.address)
    ensures r.city == (if input.city.Some? then input.city.value else c.city)
    ensures r.postalCode == (if input.postalCode.Some? then input.postalCode.value else c.postalCode)
  {
    c.(email := input.email.GetOr(c.email),
       phoneNumber := input.phoneNumber.GetOr(c.phoneNumber),
       address := input.address.GetOr(c.address),
       city := input.city.GetOr(c.city),
       postalCode := input.postalCode.GetOr(c.postalCode))
  }

  /** The update asks for an email that some other customer has. */
  predicate EmailClash(rows: map<int, Customer>, input: UpdateCustomerInput) {
    && input.email.Some?
    && exists j :: j in rows && j != input.id && rows[j].email == input.email.value
  }

  /**
   * createCustomer: if any customer already has the email nothing changes;
   * otherwise one new ACTIVE row carrying the input under the next id, and one
   * customer-created event.
   */
  function CreateCustomerOutcome(t: Table, input: CustomerInput): (o: Outcome<Customer>)
    requires TableValid(t)
    ensures o.result.Err? <==> exists j :: j in t.rows && t.rows[j].email == input.email
    ensures o.result.Err? ==>
      o.result.error == EmailAlreadyExists(input.email) && o.table == t && o.events == []
    ensures o.result.Ok? ==>
      var c := o.result.value;
      && c == Customer(t.nextId, input.firstName, input.lastName, input.email, input.phoneNumber,
                       input.dateOfBirth, input.address, input.city, input.country, input.postalCode,
                       ActiveStatus)
      && c.id !in t.rows
      && o.table == Table(t.rows[c.id := c], t.nextId + 1)
      && o.events == [Entry(CustomerCreatedTopic, CreatedPayload(c))]
    ensures TableValid(o.table)
  {
    if FindByEmail(t.rows, input.email).Some? then
      Outcome(Err(EmailAlreadyExists(input.email)), t, [])
    else
      var c := Customer(t.nextId, input.firstName, input.lastName, input.email, input.phoneNumber,
                        input.dateOfBirth, input.address, input.city, input.country, input.postalCode,
                        ActiveStatus);
      Outcome(Ok(c), Table(t.rows[c.id := c], t.nextId + 1), [Entry(CustomerCreatedTopic, CreatedPayload(c))])
  }

  /**
   * updateCustomer: an unknown id is not found; asking for an email another
   * customer has fails before any field is set, leaving the table and events
   * as they were; otherwise the merged record replaces the stored one and one
   * customer-updated event is published. Emails stay unique.
   */
  function UpdateCustomerOutcome(t: Table, input: UpdateCustomerInput): (o: Outcome<Customer>)
    requires TableValid(t)
    ensures input.id !in t.rows ==> o == Outcome(Err(CustomerNotFoundWithId(input.id)), t, [])
    ensures o.result.Err? ==> o.table == t && o.events == []
    ensures o.result == Err(EmailInUse(input.email.GetOr(""))) <==> input.id in t.rows && EmailClash(t.rows, input)
    ensures o.result.Ok? <==> input.id in t.rows && !EmailClash(t.rows, input)
    ensures o.result.Ok? ==>
      var c := MergeUpdate(t.rows[input.id], input);
      && o.result.value == c
      && o.table == Table(t.rows[input.id := c], t.nextId)
      && o.events == [Entry(CustomerUpdatedTopic, UpdatedPayload(c))]
    ensures TableValid(o.table)
  {
    if input.id !in t.rows then
      Outcome(Err(CustomerNotFoundWithId(input.id)), t, [])
    else
      var current := t.rows[input.id];
      if input.email.Some? && input.email.value != current.email && FindByEmail(t.rows, input.email.value).Some? then
        Outcome(Err(EmailInUse(input.email.value)), t, [])
      else
        var c := MergeUpdate(current, input);
        Outcome(Ok(c), Table(t.rows[input.id := c], t.nextId), [Entry(CustomerUpdatedTopic, UpdatedPayload(c))])
  }

  /** updateCustomerStatus: only that row's status changes, to exactly `status`; an unknown id is not found. */
  function UpdateCustomerStatusOutcome(t: Table, id: int, status: string): (o: Outcome<Customer>)
    ensures id !in t.rows ==> o == Outcome(Err(CustomerNotFoundWithId(id)), t, [])
    ensures id in t.rows ==>
      var c := t.rows[id].(status := status);
      o == Outcome(Ok(c), Table(t.rows[id := c], t.nextId), [Entry(CustomerUpdatedTopic, CustomerStatusUpdated(id, status))])
    ensures TableValid(t) ==> TableValid(o.table)
  {
    if id !in t.rows then
      Outcome(Err(CustomerNotFoundWithId(id)), t, [])
    else
      var c := t.rows[id].(status := status);
      Outcome(Ok(c), Table(t.rows[id := c], t.nextId), [Entry(CustomerUpdatedTopic, CustomerStatusUpdated(id, status))])
  }

  /** deleteCustomer: one customer-deleted event with the id and email, then exactly that row is removed; true. */
  function DeleteCustomerOutcome(t: Table, id: int): (o: Outcome<bool>)
    ensures o.result.Ok? <==> id in t.rows
    ensures o.result.Err? ==> o == Outcome(Err(CustomerNotFoundWithId(id)), t, [])
    ensures o.result.Ok? ==>
      && o.result.value
      && o.table == Table(t.rows - {id}, t.nextId)
      && o.events == [Entry(CustomerDeletedTopic, CustomerDeleted(id, t.rows[id].email))]
    ensures TableValid(t) ==> TableValid(o.table)
  {
    if id !in t.rows then
      Outcome(Err(CustomerNotFoundWithId(id)), t, [])
    else
      Outcome(Ok(true), Table(t.rows - {id}, t.nextId), [Entry(CustomerDeletedTopic, CustomerDeleted(id, t.rows[id].email))])
  }

  class CustomerService {
    var rows: map<int, Customer>
    var nextId: int
    var log: seq<Entry<CustomerEvent>>

    ghost predicate Valid()
      reads this
    {
      TableValid(Table(rows, nextId))
    }

    constructor ()
      ensures Valid() && rows == map[] && nextId == 1 && log == []
    {
      rows, nextId, log := map[], 1, [];
    }

    function GetCustomerById(id: int): (r: Result<Customer, CustomerError>)
      reads this
      ensures r.Ok? <==> id in rows
      ensures r.Ok? ==> r.value == rows[id]
      ensures r.Err? ==> r.error == CustomerNotFoundWithId(id)
    {
      if id in rows then Ok(rows[id]) else Err(CustomerNotFoundWithId(id))
    }

    function GetCustomerByEmail(email: string): (r: Result<Customer, CustomerError>)
      reads this
      requires Valid()
      ensures r.Ok? <==> HasEmail(rows, email)
      ensures r.Ok? ==> r.value.id in rows && rows[r.value.id] == r.value && r.value.email == email
      ensures r.Err? ==> r.error == CustomerNotFoundWithEmail(email)
    {
      match FindByEmail(rows, email)
      case Some(id) => Ok(rows[id])
      case None => Err(CustomerNotFoundWithEmail(email))
    }

    /** getCustomersByCity: every customer in that city, and nothing else. */
    function GetCustomersByCity(city: string): (r: set<Customer>)
      reads this
      requires Valid()
      ensures forall id :: id in rows ==> (rows[id] in r <==> rows[id].city == city)
      ensures forall c :: c in r ==> c.id in rows && rows[c.id] == c
    {
      set id | id in rows && rows[id].city == city :: rows[id]
    }

    method CreateCustomer(input: CustomerInput) returns (r: Result<Customer, CustomerError>)
      requires Valid()
      modifies this
      ensures Valid()
      ensures var o := CreateCustomerOutcome(old(Table(rows, nextId)), input);
        r == o.result && Table(rows, nextId) == o.table && log == old(log) + o.events
    {
      if FindByEmail(rows, input.email).Some? {
        return Err(EmailAlreadyExists(input.email));
      }
      var customer := Customer(nextId, input.firstName, input.lastName, input.email, input.phoneNumber,
                               input.dateOfBirth, input.address, input.city, input.country, input.postalCode,
                               ActiveStatus);
      rows := rows[customer.id := customer];
      nextId := nextId + 1;
      log := log + [Entry(CustomerCreatedTopic, CreatedPayload(customer))];
      r := Ok(customer);
    }

    method UpdateCustomer(input: UpdateCustomerInput) returns (r: Result<Customer, CustomerError>)
      requires Valid()
      modifies this
      ensures Valid()
      ensures var o := UpdateCustomerOutcome(old(Table(rows, nextId)), input);
        r == o.result && Table(rows, nextId) == o.table && log == old(log) + o.events
      ensures r.Err? ==> rows == old(rows) && log == old(log)
    {
      var found := GetCustomerById(input.id);
      if found.Err? {
        return Err(found.error);
      }
      var customer := found.value;
      ghost var merged := MergeUpdate(customer, input);
      if input.email.Some? && input.email.value != customer.email {
        if FindByEmail(rows, input.email.value).Some? {
          assert EmailClash(rows, input);
          return Err(EmailInUse(input.email.value));
        }
        customer := customer.(email := input.email.value);
      }
      assert !EmailClash(rows, input);
      if input.phoneNumber.Some? {
        customer := customer.(phoneNumber := input.phoneNumber.value);
      }
      if input.address.Some? {
        customer := customer.(address := input.address.value);
      }
      if input.city.Some? {
        customer := customer.(city := input.city.value);
      }
      if input.postalCode.Some? {
        customer := customer.(postalCode := input.postalCode.value);
      }
      assert customer == merged;
      rows := rows[customer.id := customer];
      log := log + [Entry(CustomerUpdatedTopic, UpdatedPayload(customer))];
      r := Ok(customer);
    }

    method UpdateCustomerStatus(id: int, status: string) returns (r: Result<Customer, CustomerError>)
      requires Valid()
      modifies this
      ensures Valid()
      ensures var o := UpdateCustomerStatusOutcome(old(Table(rows, nextId)), id, status);
        r == o.result && Table(rows, nextId) == o.table && log == old(log) + o.events
    {
      var found := GetCustomerById(id);
      if found.Err? {
        return Err(found.error);
      }
      var customer := found.value.(status := status);
      rows := rows[customer.id := customer];
      log := log + [Entry(CustomerUpdatedTopic, CustomerStatusUpdated(customer.id, customer.status))];
      r := Ok(customer);
    }

    method DeleteCustomer(id: int) returns (r: Result<bool, CustomerError>)
      requires Valid()
      modifies this
      ensures Valid()
      ensures var o := DeleteCustomerOutcome(old(Table(rows, nextId)), id);
        r == o.result && Table(rows, nextId) == o.table && log == old(log) + o.events
    {
      var found := GetCustomerById(id);
      if found.Err? {
        return Err(found.error);
      }
      var customer := found.value;
      log := log + [Entry(CustomerDeletedTopic, CustomerDeleted(customer.id, customer.email))];
      rows := rows - {customer.id};
      r := Ok(true);
    }
  }

  /**
   * Applying the same update twice gives the same record and table as applying
   * it once: the second time the email already equals the stored one, so the
   * check is skipped. The second call publishes the same event again.
   */
  lemma UpdateCustomerIdempotent(t: Table, input: UpdateCustomerInput)
    requires TableValid(t)
    requires UpdateCustomerOutcome(t, input).result.Ok?
    ensures var once := UpdateCustomerOutcome(t, input);
      var twice := UpdateCustomerOutcome(once.table, input);
      twice.result == once.result && twice.table == once.table && twice.events == once.events
  {
  }

  // ---------------------------------------------------------------------------
  // Table-wide properties, over any sequence of service calls.

  datatype Request =
    | CreateCustomerRequest(input: CustomerInput)
    | UpdateCustomerRequest(update: UpdateCustomerInput)
    | UpdateCustomerStatusRequest(id: int, status: string)
    | DeleteCustomerRequest(id: int)

  /** The fields of a customer that no call changes once the row exists. */
  predicate SamePerson(a: Customer, b: Customer) {
    && a.id == b.id
    && a.firstName == b.firstName
    && a.lastName == b.lastName
    && a.dateOfBirth == b.dateOfBirth
    && a.country == b.country
  }

  /**
   * One call's effect on the table: it stays valid (so emails stay unique),
   * the identity counter never goes back, a surviving row keeps its name,
   * date of birth and country, and a deleted id never comes back.
   */
  function Step(t: Table, req: Request): (t': Table)
    requires TableValid(t)
    ensures TableValid(t')
    ensures t.nextId <= t'.nextId
    ensures forall id :: id in t.rows && id in t'.rows ==> SamePerson(t.rows[id], t'.rows[id])
    ensures forall id :: id < t.nextId && id !in t.rows ==> id !in t'.rows
  {
    match req
    case CreateCustomerRequest(input) => CreateCustomerOutcome(t, input).table
    case UpdateCustomerRequest(update) => UpdateCustomerOutcome(t, update).table
    case UpdateCustomerStatusRequest(id, status) => UpdateCustomerStatusOutcome(t, id, status).table
    case DeleteCustomerRequest(id) => DeleteCustomerOutcome(t, id).table
  }

  /** The table after a sequence of calls: emails are unique after any sequence. */
  function Run(t: Table, reqs: seq<Request>): (t': Table)
    requires TableValid(t)
    ensures TableValid(t')
    ensures t.nextId <= t'.nextId
    decreases |reqs|
  {
    if reqs == [] then t else Run(Step(t, reqs[0]), reqs[1..])
  }

  lemma {:induction false} RunNeverRevives(t: Table, reqs: seq<Request>, id: int)
    requires TableValid(t)
    requires id < t.nextId && id !in t.rows
    ensures id !in Run(t, reqs).rows
    decreases |reqs|
  {
    if reqs != [] {
      RunNeverRevives(Step(t, reqs[0]), reqs[1..], id);
    }
  }

  /** A customer still present after any calls has the name, date of birth and country it was created with. */
  lemma {:induction false} RunKeepsPerson(t: Table, reqs: seq<Request>, id: int)
    requires TableValid(t)
    requires id in t.rows
    ensures id in Run(t, reqs).rows ==> SamePerson(t.rows[id], Run(t, reqs).rows[id])
    decreases |reqs|
  {
    if reqs != [] {
      var t1 := Step(t, reqs[0]);
      if id in t1.rows {
        RunKeepsPerson(t1, reqs[1..], id);
      } else {
        RunNeverRevives(t1, reqs[1..], id);
      }
    }
  }
}
