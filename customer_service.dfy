/** ClientesServiceImp: the customer lifecycle. The rule set the service
    applies before it saves (ValidationUtils.validateCliente) is passed in as
    the predicate `isValid`; CustomerValidator.ValidateCustomer is one such
    rule set. */
module Customers {
  import opened Entities
  import opened Persistence

  /** Removing a customer that owns no account keeps the store consistent. */
  lemma RemovalKeepsConsistency(accounts: map<int, Account>, customers: map<int, Customer>,
                                nextAccountId: int, nextCustomerId: int, id: int)
    requires Consistent(accounts, customers, nextAccountId, nextCustomerId)
    requires LinkedAccounts(accounts, id) == {}
    ensures Consistent(accounts, customers - {id}, nextAccountId, nextCustomerId)
  {
    forall a | a in accounts ensures accounts[a].owner.value in customers - {id} {
      assert a !in LinkedAccounts(accounts, id);
    }
  }

  class CustomerService {
    const store: Store

    constructor (store: Store)
      ensures this.store == store
    {
      this.store := store;
    }

    /** getClienteById: Optional.orElseThrow() on a missing id. */
    method Get(id: int) returns (r: Result<Customer>)
      ensures r.Ok? <==> id in store.customers
      ensures r.Ok? ==> r.value == store.customers[id]
      ensures r.Err? ==> r.error == NoSuchElement
    {
      if id !in store.customers {
        return Err(NoSuchElement);
      }
      r := Ok(store.customers[id]);
    }

    /** createCliente: validate, then store under the next identity value. */
    method Create(customer: Customer, isValid: Customer -> bool) returns (r: Result<Customer>)
      requires store.Valid()
      modifies store`customers, store`nextCustomerId, store`writes
      ensures store.Valid()
      ensures r.Ok? <==> isValid(customer)
      ensures r.Err? ==>
                && r.error == ValidationRejected
                && store.customers == old(store.customers) && store.nextCustomerId == old(store.nextCustomerId)
                && store.writes == old(store.writes)
      ensures r.Ok? ==>
                && r.value == customer.(id := old(store.nextCustomerId))
                && r.value.id !in old(store.customers)
                && store.customers == old(store.customers)[r.value.id := r.value]
                && store.nextCustomerId == old(store.nextCustomerId) + 1
                && store.writes == old(store.writes) + [SavedCustomer(r.value.id)]
    {
      if !isValid(customer) {
        return Err(ValidationRejected);
      }
      var stored := store.InsertCustomer(customer);
      r := Ok(stored);
    }

    /** updateCliente: the existing customer must be there; the details are
        validated; names, e-mail, age and birth date are copied over, and the
        id and identification document are kept. */
    method Update(id: int, details: Customer, isValid: Customer -> bool) returns (r: Result<Customer>)
      requires store.Valid()
      modifies store`customers, store`writes
      ensures store.Valid()
      ensures id !in old(store.customers) ==> r == Err(NoSuchElement)
      ensures id in old(store.customers) && !isValid(details) ==> r == Err(ValidationRejected)
      ensures r.Ok? <==> id in old(store.customers) && isValid(details)
      ensures r.Err? ==> store.customers == old(store.customers) && store.writes == old(store.writes)
      ensures r.Ok? ==>
                && r.value == old(store.customers[id]).(firstNames := details.firstNames,
                                                         lastNames := details.lastNames,
                                                         email := details.email,
                                                         age := details.age,
                                                         birthDate := details.birthDate)
                && store.customers == old(store.customers)[id := r.value]
                && store.writes == old(store.writes) + [SavedCustomer(id)]
    {
      if id !in store.customers {
        return Err(NoSuchElement);
      }
      var existing := store.customers[id];
      if !isValid(details) {
        return Err(ValidationRejected);
      }
      existing := existing.(firstNames := details.firstNames, lastNames := details.lastNames,
                            email := details.email, age := details.age, birthDate := details.birthDate);
      store.SaveCustomer(existing);
      r := Ok(existing);
    }

    /** deleteCliente: refused while any account is linked to the customer. */
    method Delete(id: int) returns (r: Outcome)
      requires store.Valid()
      modifies store`customers, store`writes
      ensures store.Valid()
      ensures id !in old(store.customers) ==> r == Fail(NoSuchElement)
      ensures id in old(store.customers) && LinkedAccounts(store.accounts, id) != {} ==>
                r == Fail(IllegalArgument(HasLinkedAccounts))
      ensures r == Pass <==> id in old(store.customers) && LinkedAccounts(store.accounts, id) == {}
      ensures r.Fail? ==> store.customers == old(store.customers) && store.writes == old(store.writes)
      ensures r == Pass ==>
                store.customers == old(store.customers) - {id} &&
                store.writes == old(store.writes) + [DeletedCustomer(id)]
    {
      if id !in store.customers {
        return Fail(NoSuchElement);
      }
      if LinkedAccounts(store.accounts, id) != {} {
        return Fail(IllegalArgument(HasLinkedAccounts));
      }
      RemovalKeepsConsistency(store.accounts, store.customers, store.nextAccountId, store.nextCustomerId, id);
      store.DeleteCustomer(id);
      r := Pass;
    }
  }
}
