# Banking back office: accounts, customers and funds movements

A Dafny model of the service layer of a small Spring Boot banking back
office (QuindPrueba). Customers ("clientes") own accounts ("productos");
money moves between accounts by transfers, withdrawals and deposits, each
recorded as a movement ("transaccion").

The model covers:

- the movement service, `TransaccionServiceImp`;
- the account service, `ProductosServiceImp`;
- the customer service, `ClientesServiceImp`;
- the account-number generator;
- the three validators: account type, minimum balance, and customer age, e-mail and name.

## How the model is built

- **Entities** (`entities.dfy`). Accounts, customers and movements are datatypes. Exceptions become `Result`/`Outcome` values. An error carries the exception class (`IllegalArgument`, `ResourceNotFound`, `NoSuchElement`, …) and a `Reason` for each distinct message. Money is an `int`.
- **Store** (`store.dfy`). The JPA repositories become one class, `Persistence.Store`. It holds:
  - accounts and customers as maps by id;
  - the movement log as a sequence;
  - the two identity counters;
  - a ghost journal `writes` that records every repository write in order.
- **Store invariant.** `Valid()` / `Consistent` says three things:
  - every record sits under its own id, below the next identity value;
  - every account belongs to a stored customer;
  - account numbers are unique.
  Every service method preserves it.
- **Linked accounts.** A customer's list of accounts is not stored. It is derived from the accounts' owner column (`LinkedAccounts`), as JPA's `mappedBy` does.
- **Services** (`transaction_service.dfy`, `account_service.dfy`, `customer_service.dfy`). Each service is a class over a shared `Store`. Every method states:
  - each error case, in the order the source checks them;
  - the success condition as an if-and-only-if;
  - that a failure leaves the store untouched;
  - on success, the complete new state;
  - the exact sequence of repository writes.
- **Same-entity aliasing in a transfer.** The model assumes that the two lookups of a transfer share one persistence context, which hands out one entity per id. `TransaccionServiceImp` declares no transaction of its own; Spring Boot's default open-in-view context inside a web request gives this. Under that assumption a transfer applies the debit and then the credit to the same map (`Ledger.Adjusted` twice). When source and destination are the same account, its balance comes back unchanged.
- **Random digits.** `Math.random()` is an oracle sequence `draws` of the digit values the calls would return.
  - The retry loop of `generarNumeroCuenta` is a `while` loop. It terminates because the caller requires `EventuallyFresh`: some attempt the oracle allows gives a number not yet in use.
- **E-mail pattern.** The e-mail regular expression is written out as a predicate over splits at `'@'` and `'.'`.
  - This works because neither `'@'` nor `'.'` belongs to any character class of the pattern.
  - Lemmas characterise the local part character by character in both directions. They also show that an accepted address has exactly one `'@'` and ends in a dot followed by letters only.
- **Scenarios** (`scenarios.dfy`). Walk-throughs on a fresh store, checked only against the services' contracts:
  - savings 1000 and checking 300, transfer 100, giving 900 and 400 and one transfer movement;
  - withdrawing 100 from an account holding 50 is refused;
  - a deposit of -50 is refused;
  - an account holding 10 cannot be deleted, and neither can its owner;
  - an account can be opened with a zero balance;
  - a negative transfer.

### Behaviour of the code worth knowing

- **Balance check on create and update.** Two different minimum-balance rules exist in the code.
  - The stand-alone `SaldoMinimoValidator` refuses a zero balance first, and then a negative balance for savings only.
  - `createProducto` and `updateProducto` do not call it. They call the service's private `validarSaldoMinimo` (ProductosServiceImp.java:146-150), which refuses only a negative *savings* balance.
  - So a zero balance, or a negative checking balance, is accepted on create and update.
  - `MinimumBalanceValidator.ServiceCheckIsWeaker` relates the two checks. `Scenarios.OpenWithZeroBalance` opens an account with balance 0.
- **Non-positive amounts on transfer and withdrawal.** Transfers and withdrawals do not reject a zero or negative amount; only the balance check applies.
  - A negative transfer is not a no-op: it moves money from the destination to the source. The funds check passes whenever the source holds at least the (negative) amount, for example whenever the source is non-negative. The destination can then go negative (`Scenarios.NegativeTransfer`).
  - So balances stay non-negative after a transfer only when the amount is non-negative. This is how `Ledger.TransactionService.Transfer` states it.
  - Withdrawal can never make its account negative, whatever the amount.
- **Duplicated code.** `ProductosServiceImp` has private copies of the number generator and of the account-type check. They are textually identical to `NumeroCuentaGenerator` and `TipoCuentaValidator`, so each pair is one Dafny member. Its row names the copy's lines.

## Model

| member | source | states |
|---|---|---|
| Entities.MovementKind.Tag | src/main/java/com/example/demo/services/Implement/TransaccionServiceImp.java:42-89 | the tags set at lines 42, 68 and 89 (TRANSFERENCIA, RETIRO, DEPOSITO) are distinct, one per movement kind |
| AccountTypeValidator.Validate | src/main/java/com/example/demo/validators/TipoCuentaValidator.java:7-11 | passes exactly for "cuenta corriente" and "cuenta de ahorros"; otherwise an IllegalArgumentException for the account type; ProductosServiceImp.java lines 113-117 are an identical copy |
| AccountTypeValidator.VariantsRejected | src/main/java/com/example/demo/validators/TipoCuentaValidator.java:8 | the comparison neither folds case nor trims: every type starting with a capital letter, or starting or ending with a blank, is refused |
| MinimumBalanceValidator.Validate | src/main/java/com/example/demo/validators/SaldoMinimoValidator.java:12-24 | zero is refused first; a negative balance is refused for savings; passes exactly for a positive balance or a negative non-savings one |
| MinimumBalanceValidator.ValidateSavings | src/main/java/com/example/demo/services/Implement/ProductosServiceImp.java:146-150 | refuses exactly a negative savings balance |
| MinimumBalanceValidator.ServiceCheckIsWeaker | src/main/java/com/example/demo/services/Implement/ProductosServiceImp.java:146-150 | whatever the stand-alone validator accepts, the service check accepts; a zero balance passes only the service check; a negative checking balance passes both |
| CustomerValidator.ValidateAge | src/main/java/com/example/demo/validators/ClientesValidator.java:17-21 | passes exactly when age >= 18; otherwise InvalidAge |
| CustomerValidator.ValidateEmail | src/main/java/com/example/demo/validators/ClientesValidator.java:23-29 | passes exactly for a non-null address matching the whole pattern; otherwise InvalidEmail |
| CustomerValidator.ValidateName | src/main/java/com/example/demo/validators/ClientesValidator.java:31-35 | passes exactly when both names are non-null and at least 2 characters long; otherwise InvalidName |
| CustomerValidator.ValidateCustomer | src/main/java/com/example/demo/validators/ClientesValidator.java:11-15 | passes exactly when all three rules pass; the first failing rule, in the order age, e-mail, names, gives the error |
| CustomerValidator.LocalPartCharacterized | src/main/java/com/example/demo/validators/ClientesValidator.java:24 | the local-part pattern matches exactly the non-empty strings of local characters and dots with no leading, trailing or doubled dot |
| CustomerValidator.AcceptedDomainShape | src/main/java/com/example/demo/validators/ClientesValidator.java:24 | an accepted domain contains a dot followed by letters only, at least two of them |
| CustomerValidator.AcceptedEmailHalves | src/main/java/com/example/demo/validators/ClientesValidator.java:23-29 | an accepted address has exactly one '@'; the text before it matches the local part and the text after it the domain |
| CustomerValidator.AcceptedEmailShape | src/main/java/com/example/demo/validators/ClientesValidator.java:23-29 | an accepted address has exactly one '@', a well-formed local part before it, and a dot after it followed by letters only |
| AccountNumberGenerator.Prefix | src/main/java/com/example/demo/services/NumeroCuentaGenerator.java:14 | "33" exactly for "cuenta corriente", "53" for every other type |
| AccountNumberGenerator.GenerateRandomDigits | src/main/java/com/example/demo/services/NumeroCuentaGenerator.java:30-36 | one decimal digit per random draw, in draw order, `length` of them; ProductosServiceImp.java lines 137-144 are an identical copy |
| AccountNumberGenerator.GenerateNumber | src/main/java/com/example/demo/services/NumeroCuentaGenerator.java:18-28 | the result is the first candidate not already in use, every earlier candidate was in use, and it is the prefix followed by eight digits; ProductosServiceImp.java lines 124-135 are an identical copy |
| AccountNumberGenerator.GenerateAndAssign | src/main/java/com/example/demo/services/NumeroCuentaGenerator.java:13-16 | only the number changes; it is fresh, well formed, and starts with "33" exactly for a checking account; ProductosServiceImp.java lines 119-122 are an identical copy |
| AccountNumberGenerator.PrefixSeparatesTypes | src/main/java/com/example/demo/services/NumeroCuentaGenerator.java:14 | a checking account's number never equals another type's number |
| Ledger.TransferBalances | src/main/java/com/example/demo/services/Implement/TransaccionServiceImp.java:35-36 | distinct accounts move by the amount in opposite directions with their sum conserved and the source non-negative; a self-transfer changes nothing; no other account changes |
| Ledger.WithdrawalUndoesDeposit | src/main/java/com/example/demo/services/Implement/TransaccionServiceImp.java:52-93 | withdrawing the amount just deposited restores every balance |
| Ledger.TransactionService.Transfer | src/main/java/com/example/demo/services/Implement/TransaccionServiceImp.java:22-50 | errors in order (source missing, destination missing, insufficient funds); succeeds iff both exist and the source holds at least the amount; failure changes nothing; success applies debit then credit, conserves the pair's sum, keeps balances non-negative for a non-negative amount, and saves source, destination, then the movement |
| Ledger.TransactionService.Withdraw | src/main/java/com/example/demo/services/Implement/TransaccionServiceImp.java:52-72 | errors in order (source missing, insufficient funds); succeeds iff the source exists and covers the amount; the source ends non-negative; saves the account, then a RETIRO movement without a destination |
| Ledger.TransactionService.Deposit | src/main/java/com/example/demo/services/Implement/TransaccionServiceImp.java:74-93 | a non-positive amount is refused before any lookup, then a missing destination; success credits the destination and saves it, then a DEPOSITO movement without a source |
| Accounts.AccountService.Create | src/main/java/com/example/demo/services/Implement/ProductosServiceImp.java:23-52 | errors in order (customer missing, bad type, negative savings balance); on success exactly one new account is stored under the next id, owned by the customer, active, with the draft's type, balance and exemption, and a fresh well-formed number |
| Accounts.AccountService.Update | src/main/java/com/example/demo/services/Implement/ProductosServiceImp.java:54-74 | errors in order (account missing, bad type, negative savings balance); success overwrites type, status, balance and exemption and keeps id, number and owner |
| Accounts.AccountService.Delete | src/main/java/com/example/demo/services/Implement/ProductosServiceImp.java:76-87 | a missing account is ResourceNotFound; a non-zero balance is refused; the account is removed iff its balance is exactly 0 |
| Accounts.AccountService.Get | src/main/java/com/example/demo/services/Implement/ProductosServiceImp.java:89-93 | returns the stored account iff present, otherwise the "does not exist" error |
| Accounts.AccountService.SetStatus | src/main/java/com/example/demo/services/Implement/ProductosServiceImp.java:95-111 | only the status changes; a missing account is ResourceNotFound; setting the status it already has changes no account |
| Accounts.AccountService.Activate | src/main/java/com/example/demo/services/Implement/ProductosServiceImp.java:95-102 | sets the status to "activa" and nothing else; idempotent |
| Accounts.AccountService.Deactivate | src/main/java/com/example/demo/services/Implement/ProductosServiceImp.java:104-111 | sets the status to "inactiva" and nothing else; idempotent |
| Accounts.AccountService.GetStatus | src/main/java/com/example/demo/services/Implement/ProductosServiceImp.java:151-156 | returns the stored status iff the account exists |
| Customers.RemovalKeepsConsistency | src/main/java/com/example/demo/services/Implement/ClientesServiceImp.java:61-66 | removing a customer who owns no account leaves every account with a stored owner |
| Customers.CustomerService.Get | src/main/java/com/example/demo/services/Implement/ClientesServiceImp.java:17-21 | returns the stored customer iff present, otherwise NoSuchElement |
| Customers.CustomerService.Create | src/main/java/com/example/demo/services/Implement/ClientesServiceImp.java:23-30 | stores the customer under the next id iff validation accepts it; otherwise nothing changes |
| Customers.CustomerService.Update | src/main/java/com/example/demo/services/Implement/ClientesServiceImp.java:34-53 | missing customer first, then validation; success copies names, e-mail, age and birth date and keeps the id and identification document |
| Customers.CustomerService.Delete | src/main/java/com/example/demo/services/Implement/ClientesServiceImp.java:56-67 | missing customer is NoSuchElement; refused while any account is linked; removed iff none is |
| Persistence.InsertionKeepsConsistency | src/main/java/com/example/demo/entities/Productos.java:13-31 | a new account under the next id, with a stored owner and an unused number, keeps the store consistent |
| Persistence.SameIdentitiesKeepConsistency | src/main/java/com/example/demo/entities/Productos.java:13-31 | changing accounts while keeping every id, number and owner keeps the store consistent |

## Left out

- Controllers, the DTO and HTTP status mapping: outside the service layer.
- Repositories and JPA: replaced by the maps of `Persistence.Store`. Foreign-key checks, storage failures and transaction rollback are not modelled; a failing operation in the model simply writes nothing.
- Concurrency and transaction isolation: each call is modelled as running alone.
- Timestamps (`fechaCreacion`, `fechaModificacion`, `fechaHoraTransaccion`): these are clock reads. The model does not carry them.
- `Math.random()`: becomes the `draws` oracle parameter.
- AccountNumberGenerator.GenerateNumber: requires `EventuallyFresh`, that the oracle contains a fresh attempt. The source loop would run forever without one.
- Accounts.AccountService.Create: requires `EventuallyFresh` only when the customer exists and the type is valid, because only then does the source draw digits.
- `ValidationUtils.validateCliente` is not part of this model. The customer service takes the rule set as a parameter `isValid`, and its exception becomes `ValidationRejected`.
- Null values: the model's ids, amounts, balances, types and statuses are plain values, so a null cannot be passed or stored. Only the fields the validators test for null (names, e-mail) are `Option`. In the source a null behaves as follows:
  - a null id is refused by Spring Data's `findById` with an `IllegalArgumentException`;
  - a null account type makes the type check throw a `NullPointerException` (ProductosServiceImp.java:114);
  - a null balance on a savings draft throws at the balance check (:147); on a checking draft the `&&` stops at the type test, so the account is stored with a null balance, and the `NullPointerException` comes only later, at `deleteProducto` (:82) or at a transfer, withdrawal or deposit touching it (TransaccionServiceImp.java:30, 36, 57, 82);
  - an update whose draft has no status stores a null status (ProductosServiceImp.java:68), which the model's `string` status cannot hold;
  - a null amount makes the first comparison of a transfer, withdrawal or deposit throw a `NullPointerException` (TransaccionServiceImp.java:30, 57, 76);
  - a null age makes `ClientesValidator.validateCliente` throw a `NullPointerException` when it unboxes the age (ClientesValidator.java:12).
- String length: `String.length()` counts UTF-16 code units, while the model counts characters.
- A draft that carries an id: Spring Data's `save` would merge it into an existing row. The model always gives a created account or customer the next identity value.
- `BigDecimal` scale: balances are integers of minor units. The source compares only with `compareTo`, which ignores scale.
- Movement ids: movements are identified by their position in the log.
- `productos` list on `Clientes`: derived from the owner column, so it is never stale.
