/** Pure reading of the three tables and the reference meaning of a transfer:
    the lookups behind `query(...).filter(...).first()`, the history filter,
    the net effect of a debit/credit pair and the balance floor. */
module Store {
  import opened Models

  datatype Option<T> = None | Some(value: T)

  /** Position of the first row whose key is `id`, the meaning of `.first()`
      on a query filtered by key; None when no row has that key. */
  function FirstIndexOf(ids: seq<int>, id: int): (r: Option<nat>)
    ensures r.Some? ==> r.value < |ids| && ids[r.value] == id
    ensures r.Some? ==> forall k :: 0 <= k < r.value ==> ids[k] != id
    ensures r.None? <==> id !in ids
    decreases |ids|
  {
    if |ids| == 0 then None
    else if ids[0] == id then Some(0)
    else match FirstIndexOf(ids[1..], id)
      case None => None
      case Some(k) => Some(k + 1)
  }

  /** With primary keys ascending, the first row with a key is the only one. */
  lemma AscendingFirstIndex(ids: seq<int>, k: nat)
    requires Ascending(ids) && k < |ids|
    ensures FirstIndexOf(ids, ids[k]) == Some(k)
  {
  }

  function IndexOfAccount(accounts: seq<Account>, id: int): Option<nat> {
    FirstIndexOf(AccountIds(accounts), id)
  }

  predicate HasAccount(accounts: seq<Account>, id: int) {
    id in AccountIds(accounts)
  }

  /** Balance of the account that a lookup by `id` finds. */
  function BalanceOf(accounts: seq<Account>, id: int): int
    requires HasAccount(accounts, id)
  {
    accounts[IndexOfAccount(accounts, id).value].balance
  }

  // ---------------------------------------------------------------------------
  // Transaction history

  predicate Involves(t: Transaction, id: int) {
    t.fromAccountId == id || t.toAccountId == id
  }

  /** The log filtered to the transactions that have `id` as source or destination. */
  function Involving(transactions: seq<Transaction>, id: int): (r: seq<Transaction>)
    ensures |r| <= |transactions|
    ensures forall t :: t in r <==> t in transactions && Involves(t, id)
  {
    if |transactions| == 0 then []
    else
      (if Involves(transactions[0], id) then [transactions[0]] else [])
      + Involving(transactions[1..], id)
  }

  /** Appending one record to the log extends the history of exactly the accounts it involves. */
  lemma {:induction false} InvolvingAppend(transactions: seq<Transaction>, t: Transaction, id: int)
    ensures Involving(transactions + [t], id)
         == Involving(transactions, id) + (if Involves(t, id) then [t] else [])
  {
    if |transactions| == 0 {
      assert transactions + [t] == [t];
      assert [t][1..] == [];
    } else {
      assert (transactions + [t])[1..] == transactions[1..] + [t];
      InvolvingAppend(transactions[1..], t, id);
    }
  }

  lemma TransactionIdsTail(transactions: seq<Transaction>)
    requires |transactions| > 0
    ensures TransactionIds(transactions[1..]) == TransactionIds(transactions)[1..]
  {
  }

  /** A history keeps log order: ascending keys in the log stay ascending in the history. */
  lemma {:induction false} InvolvingAscending(transactions: seq<Transaction>, id: int)
    requires Ascending(TransactionIds(transactions))
    ensures Ascending(TransactionIds(Involving(transactions, id)))
  {
    if |transactions| > 0 {
      var tail := transactions[1..];
      TransactionIdsTail(transactions);
      InvolvingAscending(tail, id);
      var rest := Involving(tail, id);
      if Involves(transactions[0], id) {
        var r := [transactions[0]] + rest;
        forall m | 0 <= m < |rest|
          ensures transactions[0].id < rest[m].id
        {
          assert rest[m] in tail;
          var p :| 0 <= p < |tail| && tail[p] == rest[m];
          var ids := TransactionIds(transactions);
          assert ids[0] == transactions[0].id;
          assert ids[p + 1] == rest[m].id;
          assert ids[0] < ids[p + 1];
        }
        forall i, j | 0 <= i < j < |r|
          ensures TransactionIds(r)[i] < TransactionIds(r)[j]
        {
          assert TransactionIds(r)[j] == rest[j - 1].id == TransactionIds(rest)[j - 1];
          if i > 0 {
            assert TransactionIds(r)[i] == TransactionIds(rest)[i - 1];
          }
        }
        assert Involving(transactions, id) == r;
      } else {
        assert Involving(transactions, id) == rest;
      }
    }
  }

  // ---------------------------------------------------------------------------
  // Transfers and balances

  /** Net change a transfer of `amount` from row `i` to row `j` makes to row `k`. */
  function Delta(k: nat, i: nat, j: nat, amount: int): int {
    (if k == i then -amount else 0) + (if k == j then amount else 0)
  }

  /** Reference meaning of a transfer: every row keeps its key and owner and moves by
      its net change; a self-transfer (`i == j`) nets to zero. */
  function Transferred(accounts: seq<Account>, i: nat, j: nat, amount: int): (r: seq<Account>)
    requires i < |accounts| && j < |accounts|
    ensures |r| == |accounts| && AccountIds(r) == AccountIds(accounts)
    ensures forall k :: 0 <= k < |r| ==> r[k].id == accounts[k].id && r[k].userId == accounts[k].userId
    ensures forall k :: 0 <= k < |r| && k != i && k != j ==> r[k] == accounts[k]
    ensures i != j ==> (r[i].balance == accounts[i].balance - amount
                        && r[j].balance == accounts[j].balance + amount)
    ensures i == j ==> r == accounts
  {
    seq(|accounts|, k requires 0 <= k < |accounts| =>
      accounts[k].(balance := accounts[k].balance + Delta(k, i, j, amount)))
  }

  /** Sum of all balances in the ledger. */
  function TotalBalance(accounts: seq<Account>): int {
    if |accounts| == 0 then 0 else accounts[0].balance + TotalBalance(accounts[1..])
  }

  lemma {:induction false} TotalBalanceUpdate(accounts: seq<Account>, k: nat, x: Account)
    requires k < |accounts|
    ensures TotalBalance(accounts[k := x]) == TotalBalance(accounts) - accounts[k].balance + x.balance
  {
    if k == 0 {
      assert accounts[k := x][1..] == accounts[1..];
    } else {
      assert accounts[k := x][1..] == accounts[1..][k - 1 := x];
      TotalBalanceUpdate(accounts[1..], k - 1, x);
    }
  }

  /** The debit of row `i` followed by the credit of row `j`, each applied to the
      current row, has the reference meaning of a transfer, also when `i == j`. */
  lemma DebitThenCredit(accounts: seq<Account>, i: nat, j: nat, amount: int)
    requires i < |accounts| && j < |accounts|
    ensures var debited := accounts[i := accounts[i].(balance := accounts[i].balance - amount)];
            debited[j := debited[j].(balance := debited[j].balance + amount)]
            == Transferred(accounts, i, j, amount)
  {
  }

  /** The debit and the credit, each a single-row update, leave the total unchanged. */
  lemma DebitThenCreditConservesTotal(accounts: seq<Account>, i: nat, j: nat, amount: int)
    requires i < |accounts| && j < |accounts|
    ensures var debited := accounts[i := accounts[i].(balance := accounts[i].balance - amount)];
            TotalBalance(debited[j := debited[j].(balance := debited[j].balance + amount)])
            == TotalBalance(accounts)
  {
    var debit := accounts[i].(balance := accounts[i].balance - amount);
    var debited := accounts[i := debit];
    var credit := debited[j].(balance := debited[j].balance + amount);
    TotalBalanceUpdate(accounts, i, debit);
    TotalBalanceUpdate(debited, j, credit);
  }

  /** Conservation: a transfer changes no ledger-wide total. */
  lemma TransferredConservesTotal(accounts: seq<Account>, i: nat, j: nat, amount: int)
    requires i < |accounts| && j < |accounts|
    ensures TotalBalance(Transferred(accounts, i, j, amount)) == TotalBalance(accounts)
  {
    DebitThenCreditConservesTotal(accounts, i, j, amount);
    DebitThenCredit(accounts, i, j, amount);
  }

  /** The same transfer stated on keys: what the two looked-up accounts hold afterwards. */
  lemma TransferredBalances(accounts: seq<Account>, fromId: int, toId: int, amount: int)
    requires HasAccount(accounts, fromId) && HasAccount(accounts, toId)
    ensures var r := Transferred(accounts, IndexOfAccount(accounts, fromId).value,
                                 IndexOfAccount(accounts, toId).value, amount);
            HasAccount(r, fromId) && HasAccount(r, toId)
            && (fromId != toId ==> (BalanceOf(r, fromId) == BalanceOf(accounts, fromId) - amount
                                    && BalanceOf(r, toId) == BalanceOf(accounts, toId) + amount))
            && (fromId == toId ==> r == accounts)
            && BalanceOf(r, fromId) + BalanceOf(r, toId)
               == BalanceOf(accounts, fromId) + BalanceOf(accounts, toId)
            && (forall id :: HasAccount(accounts, id) && id != fromId && id != toId
                  ==> HasAccount(r, id) && BalanceOf(r, id) == BalanceOf(accounts, id))
  {
  }

  /** The minimum-balance floor: every account holds at least `minBalance`. */
  predicate AboveFloor(accounts: seq<Account>, minBalance: int) {
    forall k :: 0 <= k < |accounts| ==> accounts[k].balance >= minBalance
  }

  /** An approved transfer of a non-negative amount keeps every account on the floor. */
  lemma TransferredKeepsFloor(accounts: seq<Account>, i: nat, j: nat, amount: int, minBalance: int)
    requires i < |accounts| && j < |accounts|
    requires AboveFloor(accounts, minBalance)
    requires accounts[i].balance >= amount + minBalance
    requires amount >= 0
    ensures AboveFloor(Transferred(accounts, i, j, amount), minBalance)
  {
  }

  /** Without a check on the sign of the amount, an approved transfer of a negative
      amount takes the destination below the floor: 10 and 10 with floor 10, amount -5. */
  lemma NegativeAmountBreaksFloor()
    ensures var accounts := [Account(1, 10, 1), Account(2, 10, 1)];
            AboveFloor(accounts, 10)
            && accounts[0].balance >= -5 + 10
            && !AboveFloor(Transferred(accounts, 0, 1, -5), 10)
  {
  }
}
