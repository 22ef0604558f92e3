# Bank ledger: a verified model

This project models the in-memory core of a small bank service. The service keeps
users, accounts and transfer records. It opens accounts whose starting balance must
clear a configured minimum. It moves money between two accounts only when the source
keeps at least that minimum afterwards, and it logs each completed transfer. It also
answers read-only queries: all users, all accounts, one account, and one account's
transaction history.

- `models.dfy` (module `Models`): the three row shapes, `User`, `Account` and
  `Transaction`, and the key sequences of each table. Money is kept as integer minor
  units.
- `store.dfy` (module `Store`): pure functions over the tables.
  - `FirstIndexOf` is the lookup by key, meaning the first row that matches.
  - `Involving` is the history filter.
  - `Transferred` is the reference meaning of a transfer. Each row moves by its net
    change, so a self-transfer changes nothing.
  - `TotalBalance` sums all balances, and `AboveFloor` is the minimum-balance floor.
  - The lemmas relate all of these.
- `crud.dfy` (module `Crud`): the error kinds, a `Result` type and the class `Ledger`.
  - The class has three tables as sequences and one autoincrement counter per table.
    The minimum balance is a constructor parameter.
  - `CreateUser`, `CreateAccount` and `TransferMoney` are methods that change the
    ledger. `TransferMoney` does its debit, credit and record append through
    `CommitTransfer`.
  - `ReadUsers`, `ReadAccounts`, `ReadAccount` and `GetTransactionHistory` are
    functions that read it.
  - `Valid()` holds the key invariants: keys are ascending and below their counter,
    and every foreign key resolves. `Floor()` holds the balance floor.
- `scenarios.dfy` (module `Scenarios`): client runs modelled on the route tests. Each
  outcome is derived only from the contracts above.

The code checks the balance before it looks up the user, and it checks the source
account before the destination. The contracts keep both orders. A transfer is
approved exactly when `source balance >= amount + minimum`.

The code does not check the sign of the amount. A zero amount goes through and is
logged. A negative amount also passes the test, and it lowers the destination's
balance. The floor is therefore proved only for amounts `>= 0`, and
`NegativeAmountBreaksFloor` shows a concrete negative transfer that breaks it.

A stricter design would reject a non-positive amount with its own `InvalidAmount`
error. The code has no such error, and the model follows the code. In the same way,
`create_user` does not reject an empty name: the 422 in the route tests comes from the
web framework's request validation.

## Model

| member | source | states |
|---|---|---|
| `Store.FirstIndexOf` | bank_api/app/crud.py:109 | The result is the first position holding the key. None is returned exactly when no row has that key. |
| `Store.AscendingFirstIndex` | bank_api/app/models.py:17 | With ascending primary keys, a lookup by a row's key finds that row, so keys identify accounts. |
| `Store.Involving` | bank_api/app/crud.py:133-134 | A transaction is in an account's history exactly when it is in the log and has the account as source or destination. |
| `Store.InvolvingAppend` | bank_api/app/crud.py:133-134 | Appending a record extends the history of exactly the accounts that record involves, by that record at the end. |
| `Store.InvolvingAscending` | bank_api/app/crud.py:133-134 | The history keeps log order: if keys ascend in the log, they ascend in the history. |
| `Store.Transferred` | bank_api/app/crud.py:176-177 | Keys, owners, length and every row other than the two are unchanged. For distinct rows the source loses `amount` and the destination gains it. A self-transfer changes nothing. |
| `Store.TotalBalanceUpdate` | bank_api/app/crud.py:176-177 | Replacing one row changes the ledger total by the difference between the new and old balance of that row. |
| `Store.DebitThenCredit` | bank_api/app/crud.py:176-177 | The in-place debit, then the credit of the current destination row, equals the net-change definition. This holds also when source and destination are one account. |
| `Store.DebitThenCreditConservesTotal` | bank_api/app/crud.py:176-177 | The debit-then-credit pair leaves the sum of all balances unchanged. |
| `Store.TransferredConservesTotal` | bank_api/app/crud.py:176-177 | Conservation: a transfer leaves the sum of all balances unchanged. |
| `Store.TransferredBalances` | bank_api/app/crud.py:157-177 | By key: the source ends at its balance minus `amount` and the destination at its balance plus `amount`. The pair's sum is kept (net zero when both keys are the same), and every other account is unchanged. |
| `Store.TransferredKeepsFloor` | bank_api/app/crud.py:175-177 | An approved transfer of a non-negative amount keeps every account at or above the minimum. |
| `Store.NegativeAmountBreaksFloor` | bank_api/app/crud.py:175-177 | The floor test approves a transfer of -5 between two accounts of 10 with minimum 10, and afterwards the destination is below the minimum. |
| `Crud.Ledger.constructor` | bank_api/app/models.py:6-36 | The tables are empty, every counter is 1, and both invariants hold. |
| `Crud.Ledger.CreateUser` | bank_api/app/crud.py:12-27 | One user is appended with the given name and a fresh key, and nothing else changes. |
| `Crud.Ledger.CreateAccount` | bank_api/app/crud.py:47-63 | MinBalanceError exactly when `initial <= 0` or `initial < minimum`, even for an unknown user. UserNotFound exactly when the balance is valid and the user is absent. No change on error. On success, one account is appended with the given owner and balance and a fresh key. Users and transactions are unchanged, and the floor is kept. |
| `Crud.Ledger.ReadUsers` | bank_api/app/crud.py:77-78 | Returns every user in insertion order, with keys ascending. |
| `Crud.Ledger.ReadAccounts` | bank_api/app/crud.py:91-92 | Returns every account in insertion order, with keys ascending. |
| `Crud.Ledger.ReadAccount` | bank_api/app/crud.py:109-112 | AccountNotFound exactly when no account has the key. Otherwise it returns an account of the ledger with that key, and in a valid ledger the only one. It reads and never changes state. |
| `Crud.Ledger.GetTransactionHistory` | bank_api/app/crud.py:129-135 | AccountNotFound exactly when the account is absent. Otherwise it returns exactly the log's transactions with the account as source or destination, in log order. |
| `Crud.Ledger.CommitTransfer` | bank_api/app/crud.py:176-183 | The accounts become the net-change transfer of the old ones. One record with the next key, the amount and both account keys is appended, and the invariants are kept. |
| `Crud.Ledger.TransferMoney` | bank_api/app/crud.py:157-189 | A missing source gives InvalidAccountFrom even when the destination is missing too; otherwise a missing destination gives InvalidAccountTo. The transfer succeeds exactly when both exist and the source balance is at least `amount + minimum`; otherwise TransferNotPossible. On error nothing changes. On success the looked-up balances move by the amount (no change for a self-transfer), the pair's sum and the ledger total are kept, and a distinct source ends at or above the minimum. The floor over all accounts is kept when the amount is non-negative. Exactly one record is appended, and each history gains it exactly when it involves that account. |
| `Scenarios.AccountCreationScenario` | bank_api/tests/test_routes.py:50-64 | With minimum 10: 100 is accepted, 5 gives MinBalanceError, user 999 gives UserNotFound, and 0 for user 999 gives MinBalanceError. |
| `Scenarios.TwoAccounts` | bank_api/tests/test_routes.py:67-72 | Two users and accounts of 100 and 50 under minimum 10 give exactly those two account rows and an empty log. |
| `Scenarios.TransferScenario` | bank_api/tests/test_routes.py:74-77 | A transfer of 50 succeeds with record (1, 50, 1, 2). It leaves balances 50 and 100, and the source's history is that one record. |
| `Scenarios.RejectedTransferScenario` | bank_api/tests/test_routes.py:79-92 | 200 from the account of 100 gives TransferNotPossible(10). Source 999 gives InvalidAccountFrom, and destination 999 gives InvalidAccountTo. The log stays empty. |

## Left out

- HTTP routing and the catch-and-rethrow wrappers of `bank_api/app/main.py`. The core reports structured error kinds, and mapping them to status codes is the boundary's job. The `if not transaction` branch there is dead.
- Database session mechanics (`add`, `commit`, `refresh`, relationship back-population). They become direct updates of the ledger's sequences, and the autoincrement primary key becomes a counter starting at 1.
- Object identity. SQLAlchemy gives both lookups of a self-transfer the same row object. The model keeps accounts as values updated by position: the debit and then the credit of the current row hit the same position, which gives the same net-zero result.
- Message texts and their localisation, and the currency label. Errors are kinds, with the minimum as the parameter where the message uses it.
- Configuration loading: the minimum balance is a constructor parameter.
- Floating-point balances: every amount is an integer in minor units.
- Concurrency, locking and atomicity under parallel requests. Each operation is one sequential step of the ledger.
- `created_at` timestamps: the transaction table of the code has none, and history order is log order.
- An empty-name rejection for users and an `InvalidAmount` rejection for transfers. The code has neither.
- Crud.Ledger.TransferMoney: the floor is stated for a non-negative amount only, and for the source on a distinct-account success. The code does not check the amount's sign, so a negative amount can take the destination below the minimum.
- The mock-based route tests in `tests/test_routes.py`, and the duplicate `app/models.py`.
