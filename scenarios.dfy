/** Walk-throughs of the services on a fresh store, checked statically from
    the services' contracts alone. */
module Scenarios {
  import opened Entities
  import opened Persistence
  import opened AccountNumberGenerator
  import opened Ledger
  import opened Accounts
  import opened Customers

  const DRAWS: seq<int> := [1, 2, 3, 4, 5, 6, 7, 8]

  function Adult(): Customer
  {
    Customer(0, "CC", "1020304050", Some("Ana"), Some("Rojas"), 30, Some("ana@banco.co"), None)
  }

  function Draft(accountType: string, balance: int): Account
  {
    Account(0, accountType, "", "", balance, false, None)
  }

  /** The first attempt is fresh when no number starting with its prefix is
      in use. */
  lemma FirstAttemptFresh(prefix: string, existing: set<string>, draws: seq<int>)
    requires |prefix| == 2 && AreDraws(draws) && |draws| >= SUFFIX_LENGTH
    requires forall n :: n in existing ==> |n| < 2 || n[..2] != prefix
    ensures EventuallyFresh(prefix, existing, draws)
  {
    CandidateHasPrefix(prefix, draws, 0);
    assert Candidate(prefix, draws, 0) !in existing;
  }

  /** A new customer with one account of the given type and balance. */
  method Opening(store: Store, accountType: string, balance: int)
      returns (customer: Customer, account: Account)
    requires store.Valid() && store.accounts == map[]
    requires accountType == CHECKING || accountType == SAVINGS
    requires accountType == SAVINGS ==> balance >= 0
    modifies store`accounts, store`customers, store`nextAccountId, store`nextCustomerId, store`writes
    ensures store.Valid()
    ensures customer.id in store.customers
    ensures store.accounts == map[account.id := account]
    ensures account.balance == balance && account.accountType == accountType && account.owner == Some(customer.id)
    ensures account.status == ACTIVE
    ensures |account.number| == 10 && account.number[..2] == Prefix(accountType)
  {
    var customers := new CustomerService(store);
    var c := customers.Create(Adult(), (x: Customer) => x.age >= 18);
    customer := c.value;
    var accounts := new AccountService(store);
    FirstAttemptFresh(Prefix(accountType), Numbers(store.accounts), DRAWS);
    var a := accounts.Create(customer.id, Draft(accountType, balance), DRAWS);
    account := a.value;
  }

  /** A second account, of the other type, for the same customer. */
  method SecondAccount(store: Store, customerId: int, first: Account, accountType: string, balance: int)
      returns (account: Account)
    requires store.Valid() && store.accounts == map[first.id := first] && customerId in store.customers
    requires |first.number| == 10 && first.number[..2] == Prefix(first.accountType)
    requires accountType == CHECKING && first.accountType == SAVINGS
    modifies store`accounts, store`nextAccountId, store`writes
    ensures store.Valid()
    ensures account.id != first.id
    ensures store.accounts == map[first.id := first, account.id := account]
    ensures account.balance == balance && account.owner == Some(customerId)
  {
    var accounts := new AccountService(store);
    assert forall n :: n in Numbers(store.accounts) ==> n == first.number;
    FirstAttemptFresh(Prefix(accountType), Numbers(store.accounts), DRAWS);
    var a := accounts.Create(customerId, Draft(accountType, balance), DRAWS);
    account := a.value;
  }

  /** Savings at 1000, checking at 300, transfer 100: 900 and 400, one
      transfer movement of 100. */
  method TransferBetweenOwnAccounts()
  {
    var store := new Store();
    var customer, savings := Opening(store, SAVINGS, 1000);
    var checking := SecondAccount(store, customer.id, savings, CHECKING, 300);
    var ledger := new TransactionService(store);
    var t := ledger.Transfer(savings.id, checking.id, 100);
    assert t.Ok?;
    assert store.accounts[savings.id].balance == 900;
    assert store.accounts[checking.id].balance == 400;
    assert store.movements == [Movement(MovementKind.Transfer, 100, Some(savings.id), Some(checking.id))];
  }

  /** Withdrawing 100 from 50 fails and changes nothing. */
  method WithdrawTooMuch()
  {
    var store := new Store();
    var _, account := Opening(store, SAVINGS, 50);
    var ledger := new TransactionService(store);
    var w := ledger.Withdraw(account.id, 100);
    assert w == Err(IllegalArgument(InsufficientFundsToWithdraw));
    assert store.accounts[account.id].balance == 50 && store.movements == [];
  }

  /** A deposit of -50 is refused before the account is even looked up. */
  method DepositNegative()
  {
    var store := new Store();
    var ledger := new TransactionService(store);
    var d := ledger.Deposit(7, -50);
    assert d == Err(IllegalArgument(NonPositiveDeposit));
    assert store.accounts == map[] && store.movements == [];
  }

  /** An account holding 10 cannot be cancelled, nor can its owner be removed. */
  method DeleteWithBalanceOrAccounts()
  {
    var store := new Store();
    var customer, account := Opening(store, CHECKING, 10);
    var accounts := new AccountService(store);
    var d := accounts.Delete(account.id);
    assert d == Fail(IllegalArgument(NonZeroBalance));
    assert account.id in store.accounts;
    var customers := new CustomerService(store);
    assert account.id in LinkedAccounts(store.accounts, customer.id);
    var e := customers.Delete(customer.id);
    assert e == Fail(IllegalArgument(HasLinkedAccounts));
  }

  /** The account service opens an account with a zero balance (only the
      stand-alone minimum-balance rule refuses that). */
  method OpenWithZeroBalance()
  {
    var store := new Store();
    var _, account := Opening(store, SAVINGS, 0);
    assert account.balance == 0 && account.status == ACTIVE;
  }

  /** A transfer of a negative amount passes the funds check and takes
      money out of the destination, which may then go negative. */
  method NegativeTransfer()
  {
    var store := new Store();
    var customer, savings := Opening(store, SAVINGS, 0);
    var checking := SecondAccount(store, customer.id, savings, CHECKING, 0);
    var ledger := new TransactionService(store);
    var t := ledger.Transfer(savings.id, checking.id, -50);
    assert t.Ok?;
    assert store.accounts[savings.id].balance == 50;
    assert store.accounts[checking.id].balance == -50;
  }
}
