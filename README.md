# Banking services: accounts, transactions and customers

A Dafny model of the three Spring services at the core of the banking system:
the account ledger (AccountService), the transaction records
(TransactionService) and the customer table (CustomerService). Each service
guards and changes one table kept by a JPA repository and publishes Kafka
events about what it did.

How the model is built:

- Each table is a `map<int, Row>` keyed by the identity column, with the next identity value. It lives in a class (`AccountService`, `TransactionService`, `CustomerService`) together with the log of published events. The log is append-only and holds `Entry(topic, payload)`, with one typed payload per kind of event.
- Each mutating service call is an imperative method. It looks the row up, branches, sets fields on the record, writes the table and appends to the log, in the order the Java code does.
- Each method is proved against a pure function of the old table, `...Outcome(t, ...)`. This function gives what the call returns or throws, the table afterwards and the events published. Its `ensures` state what the service guarantees: which row changes and how, that nothing else changes, when an error is raised, and that an error leaves the table and the log as they were.
- A `Request` datatype with `Step` and `Run` replays any sequence of calls on a table. Induction over such sequences proves the table-wide invariants:
  - account numbers, transaction ids and customer emails stay unique;
  - fields that are set only at creation never change;
  - a deleted id is never reused;
  - balances stay non-negative, but only where the code actually ensures it (see below).
- Exceptions become `Err` values of a `Result`. Java nulls in the partial-update input become `Option`.
- The random UUID drawn for a new account number or transaction id is a parameter. The model checks the id format: the prefix, then 12 upper-case hex digits.
- `equalsIgnoreCase` is written out character by character (module `JavaText`). Besides ASCII letters it covers the four non-ASCII characters that Java folds onto an ASCII letter. For example, `"CREDıT"` (with a dotless i) is a credit.

Amounts are BigDecimal in the source. Here they are integers in minor units, so addition, subtraction and comparison stay exact.

The code has none of the following safeguards, and the model does not add them:

- The code does not check that amounts are positive.
- It does not check that the two accounts of a transaction differ.
- It does not validate status values or status transitions.
- It has no version field and no idempotent create.
- It has no saga, compensation or outbox.

As a result, a CREDIT with a negative amount, or a negative opening balance, can leave an account below zero. `Accounts.NegativeAmountsAreAccepted` and `Accounts.NegativeOpeningBalanceIsAccepted` exhibit this. Non-negativity is proved only for runs that add no negative amount (`Accounts.RunKeepsBalancesNonNegative`). A successful DEBIT never leaves a negative balance, whatever the sign of the amount (`Accounts.NewBalance`).

## Model

| member | source | states |
|---|---|---|
| JavaText.MatchesUpperLetter | account-service/src/main/java/com/banking/account/service/AccountService.java:83 | against an upper-case ASCII letter, a character matches ignoring case iff it is the letter, its lower case, or one of the non-ASCII characters Java folds onto I, S or K |
| JavaText.GeneratedId | account-service/src/main/java/com/banking/account/service/AccountService.java:138-140 | the generated id is the prefix followed by the UUID's first 12 hex digits (dashes removed) in upper case, so it is 12 characters longer than the prefix and those characters are upper-case hex digits |
| Accounts.GenerateAccountNumber | account-service/src/main/java/com/banking/account/service/AccountService.java:138-140 | an account number is "ACC" followed by 12 upper-case hex digits, 15 characters in all |
| Accounts.FindByAccountNumber | account-service/src/main/java/com/banking/account/service/AccountService.java:62-65 | the lookup returns the id of the row with that number, which is the only such row; None when no row has it |
| Accounts.NewBalance | account-service/src/main/java/com/banking/account/service/AccountService.java:80-92 | CREDIT (any case) gives old + amount; DEBIT (any case) succeeds iff amount <= balance, then gives old - amount, which is never negative, and otherwise fails with InsufficientBalance; any other operation type fails with InvalidOperationType |
| Accounts.CreateAccountOutcome | account-service/src/main/java/com/banking/account/service/AccountService.java:27-55 | a new row under the next id with status ACTIVE, balance equal to the initial balance, the input's owner, type and currency and a fresh ACC number, plus one account-created event with those fields; a number already in use is rejected with nothing changed; the table stays valid |
| Accounts.UpdateBalanceOutcome | account-service/src/main/java/com/banking/account/service/AccountService.java:75-109 | unknown number: not found, no change; otherwise only that row's balance changes, to the new balance; one balance-updated event carries the id, the number, the previous and new balance, the amount and the operation type; an insufficient balance or invalid type leaves the table and the events unchanged |
| Accounts.UpdateAccountStatusOutcome | account-service/src/main/java/com/banking/account/service/AccountService.java:111-128 | the row with that number gets exactly the given status, unvalidated, nothing else changes, one account-updated event; an unknown number is not found and nothing changes |
| Accounts.DeleteAccountOutcome | account-service/src/main/java/com/banking/account/service/AccountService.java:130-136 | an existing id is removed and nothing else, the result is true and no event is published; an unknown id is not found |
| Accounts.AccountService.GetAccountById | account-service/src/main/java/com/banking/account/service/AccountService.java:57-60 | returns the row stored under the id, or not found iff there is none |
| Accounts.AccountService.GetAccountByNumber | account-service/src/main/java/com/banking/account/service/AccountService.java:62-65 | returns the stored row with that number iff one exists, else not found with the number |
| Accounts.AccountService.GetAccountsByCustomerId | account-service/src/main/java/com/banking/account/service/AccountService.java:67-69 | exactly the stored rows whose customer id is the argument |
| Accounts.AccountService.CreateAccount | account-service/src/main/java/com/banking/account/service/AccountService.java:27-55 | the table, the counter, the result and the appended events are those of CreateAccountOutcome on the old table; the table stays valid |
| Accounts.AccountService.UpdateBalance | account-service/src/main/java/com/banking/account/service/AccountService.java:75-109 | the table, the result and the appended events are those of UpdateBalanceOutcome on the old table; an error changes no row and no event |
| Accounts.AccountService.UpdateAccountStatus | account-service/src/main/java/com/banking/account/service/AccountService.java:111-128 | the table, the result and the appended events are those of UpdateAccountStatusOutcome on the old table |
| Accounts.AccountService.DeleteAccount | account-service/src/main/java/com/banking/account/service/AccountService.java:130-136 | the table, the result and the (empty) appended events are those of DeleteAccountOutcome on the old table |
| Accounts.Step | account-service/src/main/java/com/banking/account/service/AccountService.java:27-136 | every call keeps account numbers unique and rows under their own ids, never lowers the identity counter, never changes the number, owner, type or currency of a surviving account, and never brings back a deleted id |
| Accounts.Run | account-service/src/main/java/com/banking/account/service/AccountService.java:27-136 | after any sequence of calls the table is still valid, so account numbers are still unique |
| Accounts.RunNeverRevives | account-service/src/main/java/com/banking/account/service/AccountService.java:130-136 | an id that was deleted is absent after any later sequence of calls |
| Accounts.RunKeepsIdentity | account-service/src/main/java/com/banking/account/service/AccountService.java:75-128 | an account present after any sequence of calls has the number, owner, type and currency it had before |
| Accounts.StepKeepsBalancesNonNegative | account-service/src/main/java/com/banking/account/service/AccountService.java:83-92 | a call that opens no account with a negative balance and credits no negative amount keeps every balance non-negative |
| Accounts.RunKeepsBalancesNonNegative | account-service/src/main/java/com/banking/account/service/AccountService.java:83-92 | over any sequence of such calls every balance stays non-negative, whatever is debited |
| Accounts.NegativeAmountsAreAccepted | account-service/src/main/java/com/banking/account/service/AccountService.java:83-89 | a CREDIT of -5 on a zero balance gives -5, and a lower-case "debit" of -5 gives +5: neither operation checks the amount's sign |
| Accounts.NegativeOpeningBalanceIsAccepted | account-service/src/main/java/com/banking/account/service/AccountService.java:31-38 | creating an account with initial balance -10 succeeds and stores balance -10: the opening balance's sign is not checked |
| Transactions.FindByTransactionId | transaction-service/src/main/java/com/banking/transaction/service/TransactionService.java:63-66 | the lookup returns the id of the only row with that transactionId, or None when no row has it |
| Transactions.GenerateTransactionId | transaction-service/src/main/java/com/banking/transaction/service/TransactionService.java:106-108 | a transactionId is "TXN" followed by 12 upper-case hex digits, 15 characters in all |
| Transactions.StatusEventTopic | transaction-service/src/main/java/com/banking/transaction/service/TransactionService.java:97-101 | a status equal to COMPLETED ignoring case selects transaction-completed, FAILED ignoring case selects transaction-failed, and any other status selects no topic |
| Transactions.StatusEvents | transaction-service/src/main/java/com/banking/transaction/service/TransactionService.java:88-101 | a status update publishes at most one event, exactly when a topic is selected, on that topic, with the stored transactionId, accounts, amount and new status |
| Transactions.CreateTransactionOutcome | transaction-service/src/main/java/com/banking/transaction/service/TransactionService.java:25-56 | a new row under the next id, status PENDING, with from/to/amount/currency/type/description equal to the input and a fresh TXN id, plus one transaction-created event carrying them; a transactionId already stored is rejected with nothing changed; no check on amount or accounts |
| Transactions.UpdateTransactionStatusOutcome | transaction-service/src/main/java/com/banking/transaction/service/TransactionService.java:80-104 | unknown transactionId: not found, nothing changes; otherwise the row's status becomes exactly the given string, keeping its case, with no transition check; every other field and row stays; the events are those StatusEvents selects |
| Transactions.TransactionService.GetTransactionById | transaction-service/src/main/java/com/banking/transaction/service/TransactionService.java:58-61 | returns the row stored under the id, or not found iff there is none |
| Transactions.TransactionService.GetTransactionByTransactionId | transaction-service/src/main/java/com/banking/transaction/service/TransactionService.java:63-66 | returns the stored row with that transactionId iff one exists, else not found |
| Transactions.TransactionService.GetTransactionsByFromAccount | transaction-service/src/main/java/com/banking/transaction/service/TransactionService.java:68-70 | exactly the stored rows whose from account number is the argument |
| Transactions.TransactionService.GetTransactionsByToAccount | transaction-service/src/main/java/com/banking/transaction/service/TransactionService.java:72-74 | exactly the stored rows whose to account number is the argument |
| Transactions.TransactionService.CreateTransaction | transaction-service/src/main/java/com/banking/transaction/service/TransactionService.java:25-56 | the table, the counter, the result and the appended events are those of CreateTransactionOutcome on the old table |
| Transactions.TransactionService.UpdateTransactionStatus | transaction-service/src/main/java/com/banking/transaction/service/TransactionService.java:80-104 | the table, the result and the appended events are those of UpdateTransactionStatusOutcome on the old table; not found changes nothing |
| Transactions.Step | transaction-service/src/main/java/com/banking/transaction/service/TransactionService.java:25-104 | every call keeps transactionIds unique, removes no row, and changes nothing of an existing row but its status |
| Transactions.Run | transaction-service/src/main/java/com/banking/transaction/service/TransactionService.java:25-104 | after any sequence of calls the table is still valid, so transactionIds are still unique |
| Transactions.RunKeepsTerms | transaction-service/src/main/java/com/banking/transaction/service/TransactionService.java:80-104 | a recorded transaction keeps its transactionId, accounts, amount, currency, type and description through any sequence of calls |
| Transactions.StatusUpdatePublishes | transaction-service/src/main/java/com/banking/transaction/service/TransactionService.java:97-101 | updating a stored transaction sets exactly the given status and publishes one event iff the status is COMPLETED or FAILED ignoring case, and none otherwise |
| Customers.FindByEmail | customer-service/src/main/java/com/banking/customer/service/CustomerService.java:73-76 | the lookup returns the id of the only row with that email, or None when no row has it |
| Customers.MergeUpdate | customer-service/src/main/java/com/banking/customer/service/CustomerService.java:99-113 | each non-null input field (email, phone, address, city, postal code) replaces the stored one and a null keeps it; id, names, date of birth, country and status never change |
| Customers.CreateCustomerOutcome | customer-service/src/main/java/com/banking/customer/service/CustomerService.java:25-66 | fails with nothing changed iff some customer already has the email; otherwise one new ACTIVE row carrying the input under the next id and one customer-created event; emails stay unique |
| Customers.UpdateCustomerOutcome | customer-service/src/main/java/com/banking/customer/service/CustomerService.java:86-129 | unknown id: not found; fails with EmailInUse iff another customer has the requested email, before any field is set, leaving table and events unchanged; otherwise the merged record replaces the row and one customer-updated event is published; emails stay unique |
| Customers.UpdateCustomerStatusOutcome | customer-service/src/main/java/com/banking/customer/service/CustomerService.java:131-147 | only that row's status changes, to exactly the given string, with one customer-updated event; an unknown id is not found and the table is unchanged |
| Customers.DeleteCustomerOutcome | customer-service/src/main/java/com/banking/customer/service/CustomerService.java:149-163 | publishes one customer-deleted event with the id and email, removes exactly that row and returns true; an unknown id is not found |
| Customers.CustomerService.GetCustomerById | customer-service/src/main/java/com/banking/customer/service/CustomerService.java:68-71 | returns the row stored under the id, or not found iff there is none |
| Customers.CustomerService.GetCustomerByEmail | customer-service/src/main/java/com/banking/customer/service/CustomerService.java:73-76 | returns the stored row with that email iff one exists, else not found |
| Customers.CustomerService.GetCustomersByCity | customer-service/src/main/java/com/banking/customer/service/CustomerService.java:78-80 | exactly the stored rows whose city is the argument |
| Customers.CustomerService.CreateCustomer | customer-service/src/main/java/com/banking/customer/service/CustomerService.java:25-66 | the table, the counter, the result and the appended events are those of CreateCustomerOutcome on the old table |
| Customers.CustomerService.UpdateCustomer | customer-service/src/main/java/com/banking/customer/service/CustomerService.java:86-129 | conditional setters on the record after the email check; the table, the result and the appended events are those of UpdateCustomerOutcome; an error changes no row and no event |
| Customers.CustomerService.UpdateCustomerStatus | customer-service/src/main/java/com/banking/customer/service/CustomerService.java:131-147 | the table, the result and the appended events are those of UpdateCustomerStatusOutcome on the old table |
| Customers.CustomerService.DeleteCustomer | customer-service/src/main/java/com/banking/customer/service/CustomerService.java:149-163 | appends the customer-deleted event, then removes the row; the result is that of DeleteCustomerOutcome |
| Customers.UpdateCustomerIdempotent | customer-service/src/main/java/com/banking/customer/service/CustomerService.java:86-129 | applying the same update twice gives the same result and table as applying it once (the second time the email equals the stored one, so the check is skipped); the second call publishes the same event again |
| Customers.Step | customer-service/src/main/java/com/banking/customer/service/CustomerService.java:25-163 | every call keeps emails unique, never lowers the identity counter, keeps the names, date of birth and country of a surviving customer, and never brings back a deleted id |
| Customers.Run | customer-service/src/main/java/com/banking/customer/service/CustomerService.java:25-163 | after any sequence of calls emails are still unique across customers |
| Customers.RunNeverRevives | customer-service/src/main/java/com/banking/customer/service/CustomerService.java:149-163 | an id that was deleted is absent after any later sequence of calls |
| Customers.RunKeepsPerson | customer-service/src/main/java/com/banking/customer/service/CustomerService.java:86-147 | a customer present after any sequence of calls has the names, date of birth and country it had before |

## Left out

- The entity classes Account.java and Customer.java, AccountRepository.java, and the input classes CustomerInput.java and TransactionInput.java are not part of this model. Their fields are taken from how the services use them, and nullable text is taken as present, except in UpdateCustomerInput and the transaction description.
- Account numbers are assumed unique in the table. A generated number equal to a stored one is modelled as a rejected insert (`DuplicateAccountNumber`), as the unique column on Transaction.transactionId does for transactions (transaction-service/src/main/java/com/banking/transaction/model/Transaction.java:23-24). The chance of such a collision comes from the UUID and is not modelled.
- Timestamps (`createdAt`, `updatedAt`, `transactionDate`, the `LocalDateTime.now()` values in payloads) are left out of rows and payloads: they are clock readings.
- UUID randomness is a parameter of the create calls. Only the shape of its text is assumed.
- Identity values are unbounded integers. The 64-bit Long range of the ids is not modelled.
- BigDecimal scale is not modelled: amounts are integers in one fixed minor unit.
- Bean validation (`@NotNull`, `@NotBlank`, `@Positive`, `@Email`) is enforced by the framework before the service runs and is not modelled. The services accept any input here.
- Kafka publishing is modelled as an append to the log, which always succeeds. Serialisation, the broker, and the swallow-and-log handling of send failures are left out, as are the consumers, which only log.
- The GraphQL controllers only log and delegate, and are left out.
- `getAllAccounts`, `getAllTransactions` and `getAllCustomers` return the whole table, which is the `rows` field itself. They have no member of their own.
- Transactional rollback is not modelled separately: every error path here throws before anything is written. Concurrency and locking are left out: the code has none.
- Account and customer ids are assumed to come from an identity column that never hands out a value twice, as the Transaction id does (transaction-service/src/main/java/com/banking/transaction/model/Transaction.java:20). Accounts.RunNeverRevives and Customers.RunNeverRevives rest on this.
- A rejected duplicate insert leaves the identity counter unchanged. Many databases use up the identity value on a failed insert; that gap in the ids is not modelled.
- `getCreatedAt()` and `getUpdatedAt()` are taken as non-null where the payloads read them (AccountService.java lines 51 and 124, CustomerService.java lines 62, 125 and 143). Timestamps are not modelled at all.
- The repository finders compare strings exactly, like `String.equals`. A database collation that matches emails or numbers case-insensitively is not modelled. This matters for `findByEmail` (CustomerService.java lines 30 and 93) against the exact `equals` at line 92.
- After creation the customer-created event reads `dateOfBirth.toString()`. An absent date of birth would throw there. The model always has a date.
- JavaText.ToUpperChar and JavaText.ToLowerChar cover only the characters whose case forms include an ASCII letter. So EqualsIgnoreCase is exact for comparisons against the ASCII literals the services use, not for two arbitrary non-ASCII strings. `String.toUpperCase` on the id is applied per character with no locale, which is exact for hex digits.
- Accounts.AccountService.GetAccountsByCustomerId: returns a set of rows, not the repository's list, so list order is not modelled. Each row carries its id, so no result is lost.
- Transactions.TransactionService.GetTransactionsByFromAccount: returns a set; list order is not modelled.
- Transactions.TransactionService.GetTransactionsByToAccount: returns a set; list order is not modelled.
- Customers.CustomerService.GetCustomersByCity: returns a set; list order is not modelled.
