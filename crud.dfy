/** The bank's ledger operations: creating users and accounts, moving money between
    accounts under a minimum-balance floor, and the read-only queries. */
module Crud {
  import opened Models
  import opened Store

  /** The failures the operations report, one per message key of the original. */
  datatype Error =
    | MinBalanceError(minBalance: int)
    | UserNotFound
    | AccountNotFound
    | InvalidAccountFrom
    | InvalidAccountTo
    | TransferNotPossible(minBalance: int)

  datatype Result<T> = Ok(value: T) | Err(error: Error)

  /** The store: three tables in insertion order and the autoincrement counter of each. */
  class Ledger {
    /** The configured minimum account balance, in minor units. */
    const minBalance: int
    var users: seq<User>
    var accounts: seq<Account>
    var transactions: seq<Transaction>
    var nextUserId: int
    var nextAccountId: int
    var nextTransactionId: int

    /** Keys are unique, ascending and below their counter; every foreign key resolves. */
    ghost predicate Valid()
      reads this
    {
      && Ascending(UserIds(users)) && AllBelow(UserIds(users), nextUserId)
      && Ascending(AccountIds(accounts)) && AllBelow(AccountIds(accounts), nextAccountId)
      && Ascending(TransactionIds(transactions)) && AllBelow(TransactionIds(transactions), nextTransactionId)
      && (forall k :: 0 <= k < |accounts| ==> accounts[k].userId in UserIds(users))
      && (forall k :: 0 <= k < |transactions| ==>
            HasAccount(accounts, transactions[k].fromAccountId)
            && HasAccount(accounts, transactions[k].toAccountId))
    }

    /** Every account is at or above the configured minimum. */
    ghost predicate Floor()
      reads this
    {
      AboveFloor(accounts, minBalance)
    }

    /** An empty store; every counter starts at 1. */
    constructor (minBalance: int)
      ensures Valid() && Floor()
      ensures this.minBalance == minBalance
      ensures users == [] && accounts == [] && transactions == []
      ensures nextUserId == 1 && nextAccountId == 1 && nextTransactionId == 1
    {
      this.minBalance := minBalance;
      users, accounts, transactions := [], [], [];
      nextUserId, nextAccountId, nextTransactionId := 1, 1, 1;
    }

    /** Adds a user with a fresh key; there is no check on `name`. */
    method CreateUser(name: string) returns (user: User)
      requires Valid()
      modifies this
      ensures Valid()
      ensures user == User(old(nextUserId), name) && user.id !in old(UserIds(users))
      ensures users == old(users) + [user] && nextUserId == old(nextUserId) + 1
      ensures accounts == old(accounts) && transactions == old(transactions)
      ensures nextAccountId == old(nextAccountId) && nextTransactionId == old(nextTransactionId)
    {
      user := User(nextUserId, name);
      assert UserIds(users + [user]) == UserIds(users) + [user.id];
      users := users + [user];
      nextUserId := nextUserId + 1;
    }

    /** Opens an account for `userId`. The balance test runs first, so a bad balance is
        reported even for an unknown user; only then is the user looked up. */
    method CreateAccount(userId: int, initialBalance: int) returns (r: Result<Account>)
      requires Valid()
      modifies this
      ensures Valid()
      ensures users == old(users) && transactions == old(transactions)
      ensures nextUserId == old(nextUserId) && nextTransactionId == old(nextTransactionId)
      ensures r == Err(MinBalanceError(minBalance)) <==> initialBalance <= 0 || initialBalance < minBalance
      ensures r == Err(UserNotFound)
          <==> !(initialBalance <= 0 || initialBalance < minBalance) && userId !in UserIds(users)
      ensures r.Ok? <==> !(initialBalance <= 0 || initialBalance < minBalance) && userId in UserIds(users)
      ensures r.Err? ==> accounts == old(accounts) && nextAccountId == old(nextAccountId)
      ensures r.Ok? ==> (r.value == Account(old(nextAccountId), initialBalance, userId)
                         && !HasAccount(old(accounts), r.value.id)
                         && accounts == old(accounts) + [r.value]
                         && nextAccountId == old(nextAccountId) + 1)
      ensures old(Floor()) ==> Floor()
    {
      if initialBalance <= 0 || initialBalance < minBalance {
        return Err(MinBalanceError(minBalance));
      }
      var userExists := FirstIndexOf(UserIds(users), userId);
      if userExists.None? {
        return Err(UserNotFound);
      }
      var account := Account(nextAccountId, initialBalance, userId);
      assert AccountIds(accounts + [account]) == AccountIds(accounts) + [account.id];
      accounts := accounts + [account];
      nextAccountId := nextAccountId + 1;
      r := Ok(account);
    }

    /** All users, in insertion order. */
    function ReadUsers(): (r: seq<User>)
      reads this
      ensures r == users
      ensures Valid() ==> Ascending(UserIds(r))
    {
      users
    }

    /** All accounts, in insertion order. */
    function ReadAccounts(): (r: seq<Account>)
      reads this
      ensures r == accounts
      ensures Valid() ==> Ascending(AccountIds(r))
    {
      accounts
    }

    /** The account with key `id`, or AccountNotFound. */
    function ReadAccount(id: int): (r: Result<Account>)
      reads this
      ensures r.Err? <==> !HasAccount(accounts, id)
      ensures r.Err? ==> r.error == AccountNotFound
      ensures r.Ok? ==> r.value in accounts && r.value.id == id
      ensures Valid() && r.Ok? ==>
                forall k :: 0 <= k < |accounts| && accounts[k].id == id ==> accounts[k] == r.value
    {
      match IndexOfAccount(accounts, id)
      case None => Err(AccountNotFound)
      case Some(k) =>
        assert AccountIds(accounts)[k] == accounts[k].id;
        assert Valid() ==> forall m :: 0 <= m < |accounts| && accounts[m].id == id ==> m == k by {
          if Valid() {
            forall m | 0 <= m < |accounts| && accounts[m].id == id ensures m == k {
              assert AccountIds(accounts)[m] == id;
              AscendingFirstIndex(AccountIds(accounts), m);
            }
          }
        }
        Ok(accounts[k])
    }

    /** The transactions that have `id` as source or destination, in log order;
        AccountNotFound when there is no such account. */
    function GetTransactionHistory(id: int): (r: Result<seq<Transaction>>)
      reads this
      ensures r.Err? <==> !HasAccount(accounts, id)
      ensures r.Err? ==> r.error == AccountNotFound
      ensures r.Ok? ==> r.value == Involving(transactions, id)
      ensures r.Ok? ==> forall t :: t in r.value <==> t in transactions && Involves(t, id)
      ensures Valid() && r.Ok? ==> Ascending(TransactionIds(r.value))
    {
      if IndexOfAccount(accounts, id).None? then Err(AccountNotFound)
      else
        var history := Involving(transactions, id);
        assert Valid() ==> Ascending(TransactionIds(history)) by {
          if Valid() {
            InvolvingAscending(transactions, id);
          }
        }
        Ok(history)
    }

    /** The commit step of a transfer: debit row `i`, then credit row `j` (the same row
        when source and destination coincide), and append the transaction record. */
    method CommitTransfer(i: nat, j: nat, amount: int) returns (t: Transaction)
      requires Valid() && i < |accounts| && j < |accounts|
      modifies this
      ensures Valid()
      ensures users == old(users) && nextUserId == old(nextUserId) && nextAccountId == old(nextAccountId)
      ensures accounts == Transferred(old(accounts), i, j, amount)
      ensures t == Transaction(old(nextTransactionId), amount, old(accounts)[i].id, old(accounts)[j].id)
      ensures transactions == old(transactions) + [t] && nextTransactionId == old(nextTransactionId) + 1
    {
      DebitThenCredit(accounts, i, j, amount);
      t := Transaction(nextTransactionId, amount, accounts[i].id, accounts[j].id);
      accounts := accounts[i := accounts[i].(balance := accounts[i].balance - amount)];
      accounts := accounts[j := accounts[j].(balance := accounts[j].balance + amount)];
      assert AccountIds(accounts) == AccountIds(old(accounts));
      assert AccountIds(accounts)[i] == t.fromAccountId && AccountIds(accounts)[j] == t.toAccountId;
      assert TransactionIds(transactions + [t]) == TransactionIds(transactions) + [t.id];
      transactions := transactions + [t];
      nextTransactionId := nextTransactionId + 1;
    }

    /** Moves `amount` from `fromId` to `toId`. A missing source is reported before a
        missing destination; the transfer goes through exactly when the source holds at
        least `amount + minBalance`. The amount's sign is not checked. */
    method TransferMoney(fromId: int, toId: int, amount: int) returns (r: Result<Transaction>)
      requires Valid()
      modifies this
      ensures Valid()
      ensures users == old(users) && nextUserId == old(nextUserId) && nextAccountId == old(nextAccountId)
      ensures !HasAccount(old(accounts), fromId) ==> r == Err(InvalidAccountFrom)
      ensures (HasAccount(old(accounts), fromId) && !HasAccount(old(accounts), toId))
                ==> r == Err(InvalidAccountTo)
      ensures r.Ok? <==> HasAccount(old(accounts), fromId) && HasAccount(old(accounts), toId)
                         && BalanceOf(old(accounts), fromId) >= amount + minBalance
      ensures (HasAccount(old(accounts), fromId) && HasAccount(old(accounts), toId) && r.Err?)
                ==> r.error == TransferNotPossible(minBalance)
      ensures r.Err? ==> (accounts == old(accounts) && transactions == old(transactions)
                          && nextTransactionId == old(nextTransactionId))
      ensures r.Ok? ==> (r.value == Transaction(old(nextTransactionId), amount, fromId, toId)
                         && transactions == old(transactions) + [r.value]
                         && nextTransactionId == old(nextTransactionId) + 1)
      ensures r.Ok? ==> accounts == Transferred(old(accounts),
                                                IndexOfAccount(old(accounts), fromId).value,
                                                IndexOfAccount(old(accounts), toId).value, amount)
      ensures r.Ok? && fromId != toId ==>
                (BalanceOf(accounts, fromId) == BalanceOf(old(accounts), fromId) - amount
                 && BalanceOf(accounts, toId) == BalanceOf(old(accounts), toId) + amount
                 && BalanceOf(accounts, fromId) >= minBalance)
      ensures r.Ok? && fromId == toId ==> accounts == old(accounts)
      ensures r.Ok? ==> BalanceOf(accounts, fromId) + BalanceOf(accounts, toId)
                        == BalanceOf(old(accounts), fromId) + BalanceOf(old(accounts), toId)
      ensures r.Ok? ==> TotalBalance(accounts) == TotalBalance(old(accounts))
      ensures old(Floor()) && amount >= 0 ==> Floor()
      ensures forall id :: Involving(transactions, id)
                           == Involving(old(transactions), id)
                              + (if r.Ok? && Involves(r.value, id) then [r.value] else [])
    {
      var fromIndex := IndexOfAccount(accounts, fromId);
      var toIndex := IndexOfAccount(accounts, toId);
      if fromIndex.None? {
        return Err(InvalidAccountFrom);
      }
      if toIndex.None? {
        return Err(InvalidAccountTo);
      }
      var i, j := fromIndex.value, toIndex.value;
      if accounts[i].balance >= amount + minBalance {
        ghost var before, log := accounts, transactions;
        var t := CommitTransfer(i, j, amount);
        TransferredBalances(before, fromId, toId, amount);
        TransferredConservesTotal(before, i, j, amount);
        if old(Floor()) && amount >= 0 {
          TransferredKeepsFloor(before, i, j, amount, minBalance);
        }
        forall id ensures Involving(log + [t], id) == Involving(log, id) + (if Involves(t, id) then [t] else []) {
          InvolvingAppend(log, t, id);
        }
        r := Ok(t);
      } else {
        r := Err(TransferNotPossible(minBalance));
      }
    }
  }
}
