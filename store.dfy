/** The relational store behind the JPA repositories: accounts and customers
    by id, the append-only movement table, the identity counters, and a
    ghost journal of every repository write in the order it was issued. */
module Persistence {
  import opened Entities

  /** One repository write. */
  datatype Write =
    | SavedAccount(id: int)
    | DeletedAccount(id: int)
    | SavedCustomer(id: int)
    | DeletedCustomer(id: int)
    | SavedMovement(index: nat)

  /** The account numbers in use; existsByNumeroCuenta(n) is n in Numbers(accounts). */
  function Numbers(accounts: map<int, Account>): set<string>
  {
    set id | id in accounts :: accounts[id].number
  }

  /** No two stored accounts share a number. */
  predicate UniqueNumbers(accounts: map<int, Account>)
  {
    forall i, j :: i in accounts && j in accounts && i != j ==> accounts[i].number != accounts[j].number
  }

  /** The accounts linked to a customer (the customer's `productos` list,
      which JPA derives from the accounts' owner column). */
  function LinkedAccounts(accounts: map<int, Account>, customerId: int): set<int>
  {
    set id | id in accounts && accounts[id].owner == Some(customerId)
  }

  /** No stored account has a negative balance. */
  predicate NonNegative(accounts: map<int, Account>)
  {
    forall id :: id in accounts ==> accounts[id].balance >= 0
  }

  /** Every record sits under its own id, below the next identity value;
      every account belongs to a stored customer; numbers are unique. */
  predicate Consistent(accounts: map<int, Account>, customers: map<int, Customer>,
                       nextAccountId: int, nextCustomerId: int)
  {
    && (forall id :: id in accounts ==> accounts[id].id == id && id < nextAccountId)
    && (forall id :: id in customers ==> customers[id].id == id && id < nextCustomerId)
    && (forall id :: id in accounts ==>
          accounts[id].owner.Some? && accounts[id].owner.value in customers)
    && UniqueNumbers(accounts)
  }

  /** after differs from before in balances only. */
  predicate OnlyBalancesDiffer(before: map<int, Account>, after: map<int, Account>)
  {
    && after.Keys == before.Keys
    && forall id :: id in before ==> after[id] == before[id].(balance := after[id].balance)
  }

  /** after keeps every account's id, number and owner: only the other
      fields may differ. */
  predicate SameIdentities(before: map<int, Account>, after: map<int, Account>)
  {
    && after.Keys == before.Keys
    && forall id :: id in before ==>
         && after[id].id == before[id].id
         && after[id].number == before[id].number
         && after[id].owner == before[id].owner
  }

  /** Changing accounts without touching their ids, numbers or owners keeps
      the store consistent. */
  lemma SameIdentitiesKeepConsistency(before: map<int, Account>, after: map<int, Account>,
                                      customers: map<int, Customer>, nextAccountId: int, nextCustomerId: int)
    requires Consistent(before, customers, nextAccountId, nextCustomerId)
    requires SameIdentities(before, after)
    ensures Consistent(after, customers, nextAccountId, nextCustomerId)
  {
    forall i, j | i in after && j in after && i != j ensures after[i].number != after[j].number {
      assert after[i].number == before[i].number && after[j].number == before[j].number;
    }
  }

  /** Storing a new account under the next id, owned by a stored customer and
      with a number not yet in use, keeps the store consistent. */
  lemma InsertionKeepsConsistency(accounts: map<int, Account>, customers: map<int, Customer>,
                                  nextAccountId: int, nextCustomerId: int, account: Account)
    requires Consistent(accounts, customers, nextAccountId, nextCustomerId)
    requires account.id == nextAccountId
    requires account.owner.Some? && account.owner.value in customers
    requires account.number !in Numbers(accounts)
    ensures Consistent(accounts[account.id := account], customers, nextAccountId + 1, nextCustomerId)
  {
    var after := accounts[account.id := account];
    forall i, j | i in after && j in after && i != j ensures after[i].number != after[j].number {
      if i == account.id {
        assert after[j].number in Numbers(accounts);
      } else if j == account.id {
        assert after[i].number in Numbers(accounts);
      }
    }
  }

  class Store {
    var accounts: map<int, Account>
    var customers: map<int, Customer>
    var movements: seq<Movement>
    var nextAccountId: int
    var nextCustomerId: int
    ghost var writes: seq<Write>

    /** The store invariant, see Consistent. */
    ghost predicate Valid()
      reads this
    {
      Consistent(accounts, customers, nextAccountId, nextCustomerId)
    }

    constructor ()
      ensures Valid()
      ensures accounts == map[] && customers == map[] && movements == [] && writes == []
    {
      accounts, customers, movements := map[], map[], [];
      nextAccountId, nextCustomerId := 1, 1;
      writes := [];
    }

    /** save() of an account that is already stored. */
    method SaveAccount(account: Account)
      modifies this`accounts, this`writes
      ensures accounts == old(accounts)[account.id := account]
      ensures writes == old(writes) + [SavedAccount(account.id)]
    {
      accounts := accounts[account.id := account];
      writes := writes + [SavedAccount(account.id)];
    }

    /** save() of a new account: the identity column gives it the next id. */
    method InsertAccount(account: Account) returns (stored: Account)
      modifies this`accounts, this`nextAccountId, this`writes
      ensures stored == account.(id := old(nextAccountId))
      ensures accounts == old(accounts)[stored.id := stored]
      ensures nextAccountId == old(nextAccountId) + 1
      ensures writes == old(writes) + [SavedAccount(stored.id)]
    {
      stored := account.(id := nextAccountId);
      accounts := accounts[stored.id := stored];
      nextAccountId := nextAccountId + 1;
      writes := writes + [SavedAccount(stored.id)];
    }

    method DeleteAccount(id: int)
      modifies this`accounts, this`writes
      ensures accounts == old(accounts) - {id}
      ensures writes == old(writes) + [DeletedAccount(id)]
    {
      accounts := accounts - {id};
      writes := writes + [DeletedAccount(id)];
    }

    method SaveCustomer(customer: Customer)
      modifies this`customers, this`writes
      ensures customers == old(customers)[customer.id := customer]
      ensures writes == old(writes) + [SavedCustomer(customer.id)]
    {
      customers := customers[customer.id := customer];
      writes := writes + [SavedCustomer(customer.id)];
    }

    method InsertCustomer(customer: Customer) returns (stored: Customer)
      modifies this`customers, this`nextCustomerId, this`writes
      ensures stored == customer.(id := old(nextCustomerId))
      ensures customers == old(customers)[stored.id := stored]
      ensures nextCustomerId == old(nextCustomerId) + 1
      ensures writes == old(writes) + [SavedCustomer(stored.id)]
    {
      stored := customer.(id := nextCustomerId);
      customers := customers[stored.id := stored];
      nextCustomerId := nextCustomerId + 1;
      writes := writes + [SavedCustomer(stored.id)];
    }

    method DeleteCustomer(id: int)
      modifies this`customers, this`writes
      ensures customers == old(customers) - {id}
      ensures writes == old(writes) + [DeletedCustomer(id)]
    {
      customers := customers - {id};
      writes := writes + [DeletedCustomer(id)];
    }

    /** save() of a new movement: appended to the log. */
    method SaveMovement(movement: Movement)
      modifies this`movements, this`writes
      ensures movements == old(movements) + [movement]
      ensures writes == old(writes) + [SavedMovement(|old(movements)|)]
    {
      writes := writes + [SavedMovement(|movements|)];
      movements := movements + [movement];
    }
  }
}
