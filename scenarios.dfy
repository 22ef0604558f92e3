/** Client runs of the ledger, following the repository's route tests; each outcome is
    derived from the operations' contracts alone. */
module Scenarios {
  import opened Models
  import opened Store
  import opened Crud

  /** Account creation: 100 is accepted, 5 is under the floor of 10, user 999 is unknown,
      and a bad balance for an unknown user reports the balance. */
  method AccountCreationScenario()
    returns (accepted: Result<Account>, belowMin: Result<Account>,
             unknownUser: Result<Account>, both: Result<Account>)
    ensures accepted == Ok(Account(1, 100, 1))
    ensures belowMin == Err(MinBalanceError(10))
    ensures unknownUser == Err(UserNotFound)
    ensures both == Err(MinBalanceError(10))
  {
    var ledger := new Ledger(10);
    var user := ledger.CreateUser("Test User");
    assert UserIds(ledger.users) == [1];
    accepted := ledger.CreateAccount(user.id, 100);
    belowMin := ledger.CreateAccount(user.id, 5);
    unknownUser := ledger.CreateAccount(999, 100);
    both := ledger.CreateAccount(999, 0);
  }

  /** Two users, each with one account, of 100 and 50, under a floor of 10. */
  method TwoAccounts() returns (ledger: Ledger)
    ensures fresh(ledger) && ledger.Valid() && ledger.minBalance == 10
    ensures ledger.accounts == [Account(1, 100, 1), Account(2, 50, 2)]
    ensures ledger.transactions == [] && ledger.nextTransactionId == 1
  {
    ledger := new Ledger(10);
    var alice := ledger.CreateUser("Alice");
    var bob := ledger.CreateUser("Bob");
    assert UserIds(ledger.users) == [1, 2];
    var first := ledger.CreateAccount(alice.id, 100);
    var second := ledger.CreateAccount(bob.id, 50);
  }

  /** A transfer of 50 from the account of 100 to the one of 50 goes through and leaves
      50 and 100, with the one record in the source's history. */
  method TransferScenario()
    returns (valid: Result<Transaction>, source: Result<Account>,
             destination: Result<Account>, history: Result<seq<Transaction>>)
    ensures valid == Ok(Transaction(1, 50, 1, 2))
    ensures source == Ok(Account(1, 50, 1)) && destination == Ok(Account(2, 100, 2))
    ensures history == Ok([Transaction(1, 50, 1, 2)])
  {
    var ledger := TwoAccounts();
    assert AccountIds(ledger.accounts) == [1, 2];
    valid := ledger.TransferMoney(1, 2, 50);
    assert AccountIds(ledger.accounts) == [1, 2];
    assert ledger.accounts == [Account(1, 50, 1), Account(2, 100, 2)];
    source := ledger.ReadAccount(1);
    destination := ledger.ReadAccount(2);
    history := ledger.GetTransactionHistory(1);
    assert ledger.transactions == [Transaction(1, 50, 1, 2)];
  }

  /** From the same two accounts: 200 is more than the source can give above the floor,
      and 999 is neither a source nor a destination; nothing changes. */
  method RejectedTransferScenario()
    returns (insufficient: Result<Transaction>, badFrom: Result<Transaction>,
             badTo: Result<Transaction>, history: Result<seq<Transaction>>)
    ensures insufficient == Err(TransferNotPossible(10))
    ensures badFrom == Err(InvalidAccountFrom)
    ensures badTo == Err(InvalidAccountTo)
    ensures history == Ok([])
  {
    var ledger := TwoAccounts();
    assert AccountIds(ledger.accounts) == [1, 2];
    insufficient := ledger.TransferMoney(1, 2, 200);
    badFrom := ledger.TransferMoney(999, 2, 50);
    badTo := ledger.TransferMoney(1, 999, 50);
    history := ledger.GetTransactionHistory(2);
  }
}
