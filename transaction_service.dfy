/** TransaccionServiceImp: transfers, withdrawals and deposits. Each one
    looks the accounts up, checks, changes the balances, saves the accounts
    and then saves one movement; a failure throws before anything is saved.

    The model assumes that both lookups of a transfer run in one persistence
    context, which then hands out one entity per id (the service declares no
    transaction of its own; an open-in-view request gives such a context).
    That is modelled by a local copy `context` of the account map, on which
    the balance updates are made one after the other before they are saved.
    A transfer from an account to itself therefore debits and credits the
    same entity and leaves its balance as it was. */
module Ledger {
  import opened Entities
  import opened Persistence

  /** The accounts after `delta` is added to the balance of account `id`. */
  function Adjusted(accounts: map<int, Account>, id: int, delta: int): (m: map<int, Account>)
    requires id in accounts
    ensures m.Keys == accounts.Keys
    ensures m[id] == accounts[id].(balance := accounts[id].balance + delta)
    ensures forall other :: other in accounts && other != id ==> m[other] == accounts[other]
  {
    accounts[id := accounts[id].(balance := accounts[id].balance + delta)]
  }

  /** What a successful transfer does to the balances: the debit and the
      credit are applied one after the other to the same map, so distinct
      accounts move by the amount in opposite directions and keep their sum,
      the source stays non-negative because it held at least the amount, an
      account transferring to itself ends where it started, and no other
      account changes. */
  lemma TransferBalances(m: map<int, Account>, sourceId: int, destinationId: int, amount: int)
    requires sourceId in m && destinationId in m && m[sourceId].balance >= amount
    ensures var m' := Adjusted(Adjusted(m, sourceId, -amount), destinationId, amount);
      && OnlyBalancesDiffer(m, m')
      && (sourceId != destinationId ==>
            && m'[sourceId].balance == m[sourceId].balance - amount
            && m'[destinationId].balance == m[destinationId].balance + amount
            && m'[sourceId].balance >= 0
            && m'[sourceId].balance + m'[destinationId].balance ==
                 m[sourceId].balance + m[destinationId].balance)
      && (sourceId == destinationId ==> m' == m)
      && (forall id :: id in m && id != sourceId && id != destinationId ==> m'[id] == m[id])
      && (amount >= 0 && NonNegative(m) ==> NonNegative(m'))
  {
    var m' := Adjusted(Adjusted(m, sourceId, -amount), destinationId, amount);
    if sourceId == destinationId {
      assert m'[sourceId] == m[sourceId];
    }
  }

  /** A withdrawal of the amount just deposited restores every balance. */
  lemma WithdrawalUndoesDeposit(m: map<int, Account>, id: int, amount: int)
    requires id in m
    ensures Adjusted(Adjusted(m, id, amount), id, -amount) == m
  {
    var m' := Adjusted(Adjusted(m, id, amount), id, -amount);
    assert m'[id] == m[id];
  }

  class TransactionService {
    const store: Store

    constructor (store: Store)
      ensures this.store == store
    {
      this.store := store;
    }

    /** realizarTransaccion */
    method Transfer(sourceId: int, destinationId: int, amount: int) returns (r: Result<Movement>)
      requires store.Valid()
      modifies store`accounts, store`movements, store`writes
      ensures store.Valid()
      // the error cases, in the order the source checks them
      ensures sourceId !in old(store.accounts) ==>
                r == Err(IllegalArgument(SourceAccountNotFound))
      ensures sourceId in old(store.accounts) && destinationId !in old(store.accounts) ==>
                r == Err(IllegalArgument(DestinationAccountNotFound))
      ensures sourceId in old(store.accounts) && destinationId in old(store.accounts) &&
              old(store.accounts[sourceId].balance) < amount ==>
                r == Err(IllegalArgument(InsufficientFunds))
      ensures r.Ok? <==>
                sourceId in old(store.accounts) && destinationId in old(store.accounts) &&
                old(store.accounts[sourceId].balance) >= amount
      // a failed transfer writes nothing
      ensures r.Err? ==>
                store.accounts == old(store.accounts) && store.movements == old(store.movements) &&
                store.writes == old(store.writes)
      // a successful one: the new balances ...
      ensures r.Ok? ==>
                store.accounts == Adjusted(Adjusted(old(store.accounts), sourceId, -amount), destinationId, amount)
      ensures r.Ok? && sourceId != destinationId ==>
                && store.accounts[sourceId].balance == old(store.accounts[sourceId].balance) - amount
                && store.accounts[destinationId].balance == old(store.accounts[destinationId].balance) + amount
                && store.accounts[sourceId].balance >= 0
                && store.accounts[sourceId].balance + store.accounts[destinationId].balance ==
                     old(store.accounts[sourceId].balance) + old(store.accounts[destinationId].balance)
      ensures r.Ok? && sourceId == destinationId ==> store.accounts == old(store.accounts)
      ensures r.Ok? ==> forall id :: id in old(store.accounts) && id != sourceId && id != destinationId ==>
                store.accounts[id] == old(store.accounts[id])
      // ... no balance goes negative unless the amount is negative ...
      ensures r.Ok? && amount >= 0 && old(NonNegative(store.accounts)) ==> NonNegative(store.accounts)
      // ... and one movement, saved after both accounts
      ensures r.Ok? ==>
                && r.value == Movement(MovementKind.Transfer, amount, Some(sourceId), Some(destinationId))
                && store.movements == old(store.movements) + [r.value]
                && store.writes == old(store.writes) +
                     [SavedAccount(sourceId), SavedAccount(destinationId), SavedMovement(|old(store.movements)|)]
    {
      if sourceId !in store.accounts {
        return Err(IllegalArgument(SourceAccountNotFound));
      }
      if destinationId !in store.accounts {
        return Err(IllegalArgument(DestinationAccountNotFound));
      }
      var context := store.accounts;
      if context[sourceId].balance < amount {
        return Err(IllegalArgument(InsufficientFunds));
      }
      context := context[sourceId := context[sourceId].(balance := context[sourceId].balance - amount)];
      context := context[destinationId := context[destinationId].(balance := context[destinationId].balance + amount)];
      assert context == Adjusted(Adjusted(old(store.accounts), sourceId, -amount), destinationId, amount);
      TransferBalances(old(store.accounts), sourceId, destinationId, amount);
      SameIdentitiesKeepConsistency(old(store.accounts), context, store.customers,
                                    store.nextAccountId, store.nextCustomerId);
      var movement := Movement(MovementKind.Transfer, amount, Some(sourceId), Some(destinationId));
      store.SaveAccount(context[sourceId]);
      store.SaveAccount(context[destinationId]);
      store.SaveMovement(movement);
      assert store.accounts == context;
      r := Ok(movement);
    }

    /** realizarRetiro */
    method Withdraw(sourceId: int, amount: int) returns (r: Result<Movement>)
      requires store.Valid()
      modifies store`accounts, store`movements, store`writes
      ensures store.Valid()
      ensures sourceId !in old(store.accounts) ==>
                r == Err(IllegalArgument(SourceAccountNotFound))
      ensures sourceId in old(store.accounts) && old(store.accounts[sourceId].balance) < amount ==>
                r == Err(IllegalArgument(InsufficientFundsToWithdraw))
      ensures r.Ok? <==> sourceId in old(store.accounts) && old(store.accounts[sourceId].balance) >= amount
      ensures r.Err? ==>
                store.accounts == old(store.accounts) && store.movements == old(store.movements) &&
                store.writes == old(store.writes)
      ensures r.Ok? ==> store.accounts == Adjusted(old(store.accounts), sourceId, -amount)
      ensures r.Ok? ==> store.accounts[sourceId].balance >= 0
      ensures r.Ok? && old(NonNegative(store.accounts)) ==> NonNegative(store.accounts)
      ensures r.Ok? ==>
                && r.value == Movement(MovementKind.Withdrawal, amount, Some(sourceId), None)
                && store.movements == old(store.movements) + [r.value]
                && store.writes == old(store.writes) + [SavedAccount(sourceId), SavedMovement(|old(store.movements)|)]
    {
      if sourceId !in store.accounts {
        return Err(IllegalArgument(SourceAccountNotFound));
      }
      var source := store.accounts[sourceId];
      if source.balance < amount {
        return Err(IllegalArgument(InsufficientFundsToWithdraw));
      }
      source := source.(balance := source.balance - amount);
      var movement := Movement(MovementKind.Withdrawal, amount, Some(sourceId), None);
      store.SaveAccount(source);
      store.SaveMovement(movement);
      r := Ok(movement);
    }

    /** realizarDeposito: the amount is checked before any lookup. */
    method Deposit(destinationId: int, amount: int) returns (r: Result<Movement>)
      requires store.Valid()
      modifies store`accounts, store`movements, store`writes
      ensures store.Valid()
      ensures amount <= 0 ==> r == Err(IllegalArgument(NonPositiveDeposit))
      ensures amount > 0 && destinationId !in old(store.accounts) ==>
                r == Err(IllegalArgument(DestinationAccountNotFound))
      ensures r.Ok? <==> amount > 0 && destinationId in old(store.accounts)
      ensures r.Err? ==>
                store.accounts == old(store.accounts) && store.movements == old(store.movements) &&
                store.writes == old(store.writes)
      ensures r.Ok? ==> store.accounts == Adjusted(old(store.accounts), destinationId, amount)
      ensures r.Ok? && old(NonNegative(store.accounts)) ==> NonNegative(store.accounts)
      ensures r.Ok? ==>
                && r.value == Movement(MovementKind.Deposit, amount, None, Some(destinationId))
                && store.movements == old(store.movements) + [r.value]
                && store.writes == old(store.writes) + [SavedAccount(destinationId), SavedMovement(|old(store.movements)|)]
    {
      if amount <= 0 {
        return Err(IllegalArgument(NonPositiveDeposit));
      }
      if destinationId !in store.accounts {
        return Err(IllegalArgument(DestinationAccountNotFound));
      }
      var destination := store.accounts[destinationId];
      destination := destination.(balance := destination.balance + amount);
      var movement := Movement(MovementKind.Deposit, amount, None, Some(destinationId));
      store.SaveAccount(destination);
      store.SaveMovement(movement);
      r := Ok(movement);
    }
  }
}
