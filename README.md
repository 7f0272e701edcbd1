# Wallet services, modelled in Dafny

This project models the service layer of a small wallet application. It has three tables:

- users: an id and a unique phone number;
- wallets: an id, the owning user and a balance;
- wallet transactions: an id, the owning wallet, an amount, a type and a timestamp.

It also models the six services that read and write those tables: `create_user`,
`create_wallet`, `credit_money`, `debit_money`, `get_balance` and `transaction_history`.
Each writing service checks its guard first. If the guard fails, it raises an error with a
fixed message and leaves every table as it was. Otherwise it makes one change and commits it.

Files:

- `models.dfy` (module `Models`): the records and the `Db` value holding the three tables.
  It also holds the column constraints as predicates: unique phone numbers, wallet owners that
  exist, transactions that point at existing wallets, and the declared `String(20)` widths.
  That a transaction's type is "credit" or "debit" is only a comment on the column (no check
  is declared); the invariant assumes this convention, and it is all the type conclusion of
  `HistoryEntriesBelongToWallet` rests on.
- `errors.dfy` (module `Errors`): one constructor per `ValueError` the services raise.
  `Message` gives the exact text of each one, and `IntToString` is Python's `str` of an
  integer. The lemmas show that a message's number can be read back from it.
- `services.dfy` (module `Services`): the class `WalletService`, a database session whose
  `db` field holds the tables. `CreateUser`, `CreateWallet`, `Credit` and `Debit` update it in
  place. Each one's contract states the complete new state, the error for each failing guard,
  and that the store invariant `Valid()` is kept. `Valid()` covers the schema constraints, at
  most one wallet per user and the auto-increment key counters. `GetBalance` and
  `TransactionHistory` are functions of the tables. The `Matching` lemmas characterise the
  history filter: it is a homomorphism over the table order, it has exact membership, and an
  empty range selects nothing.
- `scenarios.dfy` (module `Scenarios`): the test scenarios, stated as verified methods over
  the model. A sequential reading of the repeated-debit test is there too, done as a loop
  with invariants, with lemmas about the balance it reaches.

Modelling choices:

- Money is the source's own unit restricted to whole numbers (200 stays 200); timestamps are
  an ordered clock value.
- Ids are `int`, so a lookup of any id is allowed (a missing one gives the error path). The
  store hands out keys 1, 2, 3, … in insertion order, as SQLite does when there are no deletes.
- A failing commit is the explicit parameter `commitFails`. The library raises, the session
  rolls back, and the service returns its "Database error…" or "Failed to create user"
  message with the tables unchanged. The fault is placed at the commit, after the business
  checks.
- `debit_money` takes `minimum_balance` explicitly. Its only guard is
  `balance - amount < minimum_balance`. Neither credit nor debit checks the sign of `amount`.
  `credit_money` has no floor check. Neither one appends a transaction row. There is no
  version counter on wallets and no retry of a failed commit.
- `transaction_history` is modelled as it is evidently meant to work: it filters the
  wallet's transactions to `start <= timestamp <= end` and returns them in table order as
  `(amount, type, date)` rows. As written, the function names `WalletTransaction` without
  importing it. It also calls `.filter` on a `lazy=True` relationship, which is a plain
  list.

## Model

| member | source | states |
|---|---|---|
| `Services.WalletService.constructor` | app/models.py:4-22 | an empty database satisfies the store invariant and the declared widths; the first keys handed out are 1 |
| `Services.WalletService.CreateUser` | app/services.py:85-104 | a registered phone number gives "User already exists"; a failed commit gives "Failed to create user"; both leave the tables unchanged; otherwise exactly one user with that phone is added under a fresh id, so phone numbers stay unique; the declared width still holds iff the phone has at most 20 characters |
| `Services.WalletService.CreateWallet` | app/services.py:6-23 | an unknown user gives "User does not exist"; a user who already owns a wallet gets an error naming that wallet; a failed commit gives a database error; any error leaves the tables unchanged; otherwise exactly one wallet, owned by the user with balance 0, is added under a fresh id, and each user keeps at most one wallet |
| `Services.WalletService.Credit` | app/services.py:26-37 | a missing wallet gives "Wallet not found" and a failed commit a database error, both with the tables unchanged; otherwise only that wallet's balance changes, to old + amount, which is returned and is what `GetBalance` then reads |
| `Services.WalletService.Debit` | app/services.py:40-65 | a missing wallet gives "Wallet not found"; balance − amount < minimum gives the below-minimum error carrying that minimum; a failed commit gives a database error; each leaves the tables unchanged; otherwise only that wallet's balance changes, to old − amount, which is returned and is at least the minimum |
| `Services.GetBalance` | app/services.py:68-72 | fails with "Wallet not found" exactly when the wallet is missing, and otherwise returns its stored balance |
| `Services.TransactionHistory` | app/services.py:75-83 | fails with "Wallet not found" exactly when the wallet is missing, and otherwise returns the in-range entries of that wallet's transactions |
| `Services.Matching` | app/services.py:80-83 | the history is no longer than the table and every entry's date lies in [start, end] |
| `Services.MatchingAppend` | app/services.py:80-83 | the history of a concatenated table is the concatenation of the histories, so each row contributes independently and table order is kept |
| `Services.MatchingMembership` | app/services.py:80-83 | an entry occurs in the history iff some transaction of that wallet stamped within [start, end] produced it |
| `Services.MatchingEmptyRange` | app/services.py:81 | a range whose start is after its end selects nothing |
| `Services.HistoryEntriesBelongToWallet` | app/models.py:15-22 | on a schema-valid database every history entry comes from a transaction of the asked-for wallet and has type "credit" or "debit" |
| `Services.SchemaAllowsSeveralWalletsPerUser` | app/models.py:8-12 | some database meets every column constraint yet gives one user two wallets, so one wallet per user is kept only by the services |
| `Errors.Message` | app/services.py:10-104 | the exact text of each raised error; the three store faults of create_wallet, credit_money and debit_money, and no other error, start with "Database error: " |
| `Models.SchemaValid` | app/models.py:4-22 | the column constraints (unique phone, existing wallet owner, existing transaction wallet, type by convention "credit"/"debit"); following both foreign keys, every transaction leads to an existing user |
| `Services.WalletService.Valid` | app/models.py:4-22 | the store invariant: schema validity, at most one wallet per user, and key counters above every used key, so the next user and wallet keys are unused |
| `Errors.NatToString` | app/services.py:15 | the decimal text of a natural number is non-empty, all digits, and has no leading zero |
| `Errors.NatToStringRoundTrip` | app/services.py:15 | reading the digits back gives the number |
| `Errors.IntToString` | app/services.py:57 | the text is non-empty and starts with '-' exactly for negative numbers |
| `Errors.IntToStringInjective` | app/services.py:57 | distinct integers print differently |
| `Errors.MessageDeterminesNumber` | app/services.py:15-57 | two "already has a wallet" messages, or two below-minimum messages, are equal only when they carry the same wallet id or the same minimum |
| `Scenarios.DebitAfterCredit` | tests/test_services.py:21-26 | create user, create wallet, credit 200, debit 50 against minimum 100: the debit returns 150 and the balance is 150 |
| `Scenarios.BelowMinimumMessageText` | tests/test_services.py:36 | the below-minimum error for minimum 100 reads "Balance cannot drop below minimum required balance of 100" |
| `Scenarios.DebitBelowMinimum` | tests/test_services.py:28-36 | after crediting 150, debiting 100 against minimum 100 is refused with "Balance cannot drop below minimum required balance of 100" and the balance stays 150 |
| `Scenarios.SecondWalletRefused` | app/services.py:12-15 | a user's first wallet gets id 1; a second `create_wallet` is refused with "User already has a wallet with id:1" |
| `Scenarios.DebitRepeatedly` | tests/test_services.py:48-55 | `rounds` successive debits of one wallet leave every other row unchanged and set its balance to `BalanceAfterDebits` of the old balance |
| `Scenarios.DebitsTakeAtMost` | tests/test_services.py:73-78 | with a non-negative amount, the final balance is at least initial − rounds × amount |
| `Scenarios.BalanceAfterDebits` | app/services.py:56-62 | the balance after successive debits: either no debit was applied or it ends at or above the minimum, and a non-negative amount never raises it |
| `Scenarios.DebitsAllApplied` | app/services.py:56-62 | when initial − rounds × amount is still at least the minimum, every debit is applied and the balance ends exactly rounds × amount lower |

## Left out

- HTTP handlers in app/routes.py: request parsing and validation, status codes and JSON
  output, including their default minimum of 0.
- The application factory, configuration and connectivity probe (app/__init__.py,
  app/config.py, tests/__init__.py). They are set-up code only.
- The migration that sets a `version` column. `app/models.py` declares no such column, so
  there is no version to model.
- Concurrency: the threads and barrier of `test_race_condition_debit_money`. The services
  take no locks, so only one thread's loop, run alone, is modelled (`DebitRepeatedly`).
- Floating-point balances and amounts (`db.Float`): integers are used, so rounding is not
  modelled.
- Store faults during the lookups themselves (before the commit), and a fault in
  `create_user`'s lookup, which sits outside its `try`: only a failing commit is modelled.
- Foreign-key and width enforcement by the engine: SQLite, as configured, enforces neither.
  The services keep wallet owners valid themselves. A phone number longer than 20
  characters is stored; `CreateUser` reports whether the declared widths still hold.
- `transaction_history` with a missing `start_date` or `end_date`: the dates are integers
  here, and SQL NULL bounds are not modelled. The comparison of stored timestamps with date
  strings is not modelled either.
- TransactionHistory: returns rows in table (primary-key) order. The query has no ORDER BY,
  so the store promises no order, and the model is more specific than the code.
- The `total_credit` / `total_debit` summary the history test expects: the code returns a
  plain list, and the model follows the code.
- Calls of `debit_money` with two arguments or with a session first, as in the tests. Both
  debit scenarios pass the minimum 100 explicitly, the minimum the second test's expected
  message shows; the first scenario ends at 150 under either 0 or 100.
- Python's printing of a float minimum: `f'{100.0}'` gives "100.0", whereas the model's
  minimum is an integer and `IntToString` prints "100". The expected test message matches an
  integer minimum.
