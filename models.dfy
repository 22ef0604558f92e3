/** Row shapes of the bank's three tables: users, accounts and transactions.
    Money is held in integer minor units (cents), never in floating point. */
module Models {

  /** A row of the `users` table. */
  datatype User = User(id: int, name: string)

  /** A row of the `accounts` table; `userId` is the owning user's key. */
  datatype Account = Account(id: int, balance: int, userId: int)

  /** A row of the `transactions` table: one completed transfer. */
  datatype Transaction = Transaction(id: int, amount: int, fromAccountId: int, toAccountId: int)

  /** The primary keys of a table, in row order. */
  function UserIds(users: seq<User>): seq<int> {
    seq(|users|, k requires 0 <= k < |users| => users[k].id)
  }

  function AccountIds(accounts: seq<Account>): seq<int> {
    seq(|accounts|, k requires 0 <= k < |accounts| => accounts[k].id)
  }

  function TransactionIds(transactions: seq<Transaction>): seq<int> {
    seq(|transactions|, k requires 0 <= k < |transactions| => transactions[k].id)
  }

  /** Keys handed out by an autoincrement counter: distinct and in insertion order. */
  predicate Ascending(ids: seq<int>) {
    forall i, j :: 0 <= i < j < |ids| ==> ids[i] < ids[j]
  }

  /** Every key is below the counter's next value, so that value is fresh. */
  predicate AllBelow(ids: seq<int>, bound: int) {
    forall k :: 0 <= k < |ids| ==> ids[k] < bound
  }
}
