/** ProductosServiceImp: the account lifecycle. Create and update run the
    service's own type check (identical to TipoCuentaValidator) and its own
    private balance check (savings may not be negative; zero and negative
    checking balances pass), not the stand-alone SaldoMinimoValidator. */
module Accounts {
  import opened Entities
  import opened Persistence
  import AccountTypeValidator
  import MinimumBalanceValidator
  import opened AccountNumberGenerator

  class AccountService {
    const store: Store

    constructor (store: Store)
      ensures this.store == store
    {
      this.store := store;
    }

    /** createProducto: resolve the customer, check the type, assign a fresh
        number, check the balance, mark the account active and store it. */
    method Create(customerId: int, draft: Account, draws: seq<int>) returns (r: Result<Account>)
      requires store.Valid()
      requires customerId in store.customers && AccountTypeValidator.Validate(draft.accountType) == Pass ==>
                 EventuallyFresh(Prefix(draft.accountType), Numbers(store.accounts), draws)
      modifies store`accounts, store`nextAccountId, store`writes
      ensures store.Valid()
      ensures customerId !in store.customers ==> r == Err(IllegalArgument(CustomerNotFound))
      ensures customerId in store.customers && AccountTypeValidator.Validate(draft.accountType).Fail? ==>
                r == Err(IllegalArgument(InvalidAccountType))
      ensures customerId in store.customers && AccountTypeValidator.Validate(draft.accountType) == Pass &&
              MinimumBalanceValidator.ValidateSavings(draft).Fail? ==>
                r == Err(IllegalArgument(NegativeSavingsBalance))
      ensures r.Ok? <==>
                customerId in store.customers && AccountTypeValidator.Validate(draft.accountType) == Pass &&
                MinimumBalanceValidator.ValidateSavings(draft) == Pass
      ensures r.Err? ==>
                store.accounts == old(store.accounts) && store.nextAccountId == old(store.nextAccountId) &&
                store.writes == old(store.writes)
      ensures r.Ok? ==>
                && r.value.id == old(store.nextAccountId)
                && r.value.id !in old(store.accounts)
                && store.accounts == old(store.accounts)[r.value.id := r.value]
                && store.nextAccountId == old(store.nextAccountId) + 1
                && store.writes == old(store.writes) + [SavedAccount(r.value.id)]
      ensures r.Ok? ==>
                && r.value.status == ACTIVE
                && r.value.owner == Some(customerId)
                && r.value.accountType == draft.accountType
                && r.value.balance == draft.balance
                && r.value.exemptGmf == draft.exemptGmf
                && r.value.number !in Numbers(old(store.accounts))
                && WellFormedNumber(r.value.number, Prefix(draft.accountType))
    {
      if customerId !in store.customers {
        return Err(IllegalArgument(CustomerNotFound));
      }
      var account := draft.(owner := Some(customerId));
      var typeCheck := AccountTypeValidator.Validate(account.accountType);
      if typeCheck.Fail? {
        return Err(typeCheck.error);
      }
      account := GenerateAndAssign(account, Numbers(store.accounts), draws);
      var balanceCheck := MinimumBalanceValidator.ValidateSavings(account);
      if balanceCheck.Fail? {
        return Err(balanceCheck.error);
      }
      if account.accountType == SAVINGS || account.accountType == CHECKING {
        account := account.(status := ACTIVE);
      }
      InsertionKeepsConsistency(store.accounts, store.customers, store.nextAccountId, store.nextCustomerId,
                                account.(id := store.nextAccountId));
      var stored := store.InsertAccount(account);
      r := Ok(stored);
    }

    /** updateProducto: the incoming type and balance are checked, then type,
        status, balance and GMF exemption are overwritten; the id, number and
        owner stay. */
    method Update(id: int, draft: Account) returns (r: Result<Account>)
      requires store.Valid()
      modifies store`accounts, store`writes
      ensures store.Valid()
      ensures id !in old(store.accounts) ==> r == Err(IllegalArgument(ProductNotFound))
      ensures id in old(store.accounts) && AccountTypeValidator.Validate(draft.accountType).Fail? ==>
                r == Err(IllegalArgument(InvalidAccountType))
      ensures id in old(store.accounts) && AccountTypeValidator.Validate(draft.accountType) == Pass &&
              MinimumBalanceValidator.ValidateSavings(draft).Fail? ==>
                r == Err(IllegalArgument(NegativeSavingsBalance))
      ensures r.Ok? <==>
                id in old(store.accounts) && AccountTypeValidator.Validate(draft.accountType) == Pass &&
                MinimumBalanceValidator.ValidateSavings(draft) == Pass
      ensures r.Err? ==> store.accounts == old(store.accounts) && store.writes == old(store.writes)
      ensures r.Ok? ==>
                && r.value == old(store.accounts[id]).(accountType := draft.accountType, status := draft.status,
                                                        balance := draft.balance, exemptGmf := draft.exemptGmf)
                && store.accounts == old(store.accounts)[id := r.value]
                && store.writes == old(store.writes) + [SavedAccount(id)]
    {
      if id !in store.accounts {
        return Err(IllegalArgument(ProductNotFound));
      }
      var existing := store.accounts[id];
      var typeCheck := AccountTypeValidator.Validate(draft.accountType);
      if typeCheck.Fail? {
        return Err(typeCheck.error);
      }
      var balanceCheck := MinimumBalanceValidator.ValidateSavings(draft);
      if balanceCheck.Fail? {
        return Err(balanceCheck.error);
      }
      existing := existing.(accountType := draft.accountType, status := draft.status,
                            balance := draft.balance, exemptGmf := draft.exemptGmf);
      SameIdentitiesKeepConsistency(store.accounts, store.accounts[id := existing], store.customers,
                                    store.nextAccountId, store.nextCustomerId);
      store.SaveAccount(existing);
      r := Ok(existing);
    }

    /** deleteProducto: only an account whose balance is exactly zero goes. */
    method Delete(id: int) returns (r: Outcome)
      requires store.Valid()
      modifies store`accounts, store`writes
      ensures store.Valid()
      ensures id !in old(store.accounts) ==> r == Fail(ResourceNotFound(ProductNotFound))
      ensures id in old(store.accounts) && old(store.accounts[id].balance) != 0 ==>
                r == Fail(IllegalArgument(NonZeroBalance))
      ensures r == Pass <==> id in old(store.accounts) && old(store.accounts[id].balance) == 0
      ensures r.Fail? ==> store.accounts == old(store.accounts) && store.writes == old(store.writes)
      ensures r == Pass ==>
                store.accounts == old(store.accounts) - {id} && store.writes == old(store.writes) + [DeletedAccount(id)]
    {
      if id !in store.accounts {
        return Fail(ResourceNotFound(ProductNotFound));
      }
      var account := store.accounts[id];
      if account.balance != 0 {
        return Fail(IllegalArgument(NonZeroBalance));
      }
      store.DeleteAccount(id);
      r := Pass;
    }

    /** getProductoById: a read; the store is not modified. */
    method Get(id: int) returns (r: Result<Account>)
      ensures r.Ok? <==> id in store.accounts
      ensures r.Ok? ==> r.value == store.accounts[id]
      ensures r.Err? ==> r.error == IllegalArgument(ProductDoesNotExist)
    {
      if id !in store.accounts {
        return Err(IllegalArgument(ProductDoesNotExist));
      }
      r := Ok(store.accounts[id]);
    }

    /** activarProducto and desactivarProducto: overwrite the status only. */
    method SetStatus(id: int, status: string) returns (r: Result<Account>)
      requires store.Valid()
      modifies store`accounts, store`writes
      ensures store.Valid()
      ensures r.Ok? <==> id in old(store.accounts)
      ensures r.Err? ==>
                r.error == ResourceNotFound(AccountNotFound) &&
                store.accounts == old(store.accounts) && store.writes == old(store.writes)
      ensures r.Ok? ==>
                && r.value == old(store.accounts[id]).(status := status)
                && store.accounts == old(store.accounts)[id := r.value]
                && store.writes == old(store.writes) + [SavedAccount(id)]
      ensures r.Ok? && old(store.accounts[id].status) == status ==> store.accounts == old(store.accounts)
    {
      if id !in store.accounts {
        return Err(ResourceNotFound(AccountNotFound));
      }
      var account := store.accounts[id].(status := status);
      SameIdentitiesKeepConsistency(store.accounts, store.accounts[id := account], store.customers,
                                    store.nextAccountId, store.nextCustomerId);
      store.SaveAccount(account);
      r := Ok(account);
    }

    method Activate(id: int) returns (r: Result<Account>)
      requires store.Valid()
      modifies store`accounts, store`writes
      ensures store.Valid()
      ensures r.Ok? <==> id in old(store.accounts)
      ensures r.Err? ==>
                r.error == ResourceNotFound(AccountNotFound) &&
                store.accounts == old(store.accounts) && store.writes == old(store.writes)
      ensures r.Ok? ==>
                && r.value == old(store.accounts[id]).(status := ACTIVE)
                && store.accounts == old(store.accounts)[id := r.value]
                && store.writes == old(store.writes) + [SavedAccount(id)]
      ensures r.Ok? && old(store.accounts[id].status) == ACTIVE ==> store.accounts == old(store.accounts)
    {
      r := SetStatus(id, ACTIVE);
    }

    method Deactivate(id: int) returns (r: Result<Account>)
      requires store.Valid()
      modifies store`accounts, store`writes
      ensures store.Valid()
      ensures r.Ok? <==> id in old(store.accounts)
      ensures r.Err? ==>
                r.error == ResourceNotFound(AccountNotFound) &&
                store.accounts == old(store.accounts) && store.writes == old(store.writes)
      ensures r.Ok? ==>
                && r.value == old(store.accounts[id]).(status := INACTIVE)
                && store.accounts == old(store.accounts)[id := r.value]
                && store.writes == old(store.writes) + [SavedAccount(id)]
      ensures r.Ok? && old(store.accounts[id].status) == INACTIVE ==> store.accounts == old(store.accounts)
    {
      r := SetStatus(id, INACTIVE);
    }

    /** getEstadoProductoById: a read of the status. */
    method GetStatus(id: int) returns (r: Result<string>)
      ensures r.Ok? <==> id in store.accounts
      ensures r.Ok? ==> r.value == store.accounts[id].status
      ensures r.Err? ==> r.error == IllegalArgument(ProductNotFound)
    {
      if id !in store.accounts {
        return Err(IllegalArgument(ProductNotFound));
      }
      r := Ok(store.accounts[id].status);
    }
  }
}
