/** The records of the back office (accounts, customers, movements), the
    error kinds its services raise, and the failure-carrying result types. */
module Entities {

  /** A nullable reference or column. */
  datatype Option<+T> = None | Some(value: T)

  /** What an exception message says, as a kind rather than a string; the
      service methods word the not-found cases differently, so each wording
      is its own kind. */
  datatype Reason =
    | SourceAccountNotFound        // the source account of a movement is missing
    | DestinationAccountNotFound   // the destination account of a movement is missing
    | InsufficientFunds            // the source cannot cover a transfer
    | InsufficientFundsToWithdraw  // the account cannot cover a withdrawal
    | NonPositiveDeposit           // a deposit amount is zero or negative
    | CustomerNotFound             // the owner named for a new account is missing
    | ProductNotFound              // an account to update, delete or query is missing
    | ProductDoesNotExist          // an account to fetch is missing
    | AccountNotFound              // an account to activate or deactivate is missing
    | InvalidAccountType           // the type is neither checking nor savings
    | NegativeSavingsBalance       // a savings balance below zero
    | ZeroInitialBalance           // a balance of exactly zero
    | NonZeroBalance               // an account to cancel still holds money
    | HasLinkedAccounts            // a customer to delete still owns accounts

  /** The exception classes the core throws; the class is what a caller can
      tell apart, the reason stands for the message. */
  datatype Error =
    | IllegalArgument(reason: Reason)    // IllegalArgumentException
    | ResourceNotFound(reason: Reason)   // ResourceNotFoundException
    | NoSuchElement                      // Optional.orElseThrow() with no supplier
    | InvalidAge                         // InvalidAgeException
    | InvalidEmail                       // InvalidEmailException
    | InvalidName                        // InvalidNameException
    | ValidationRejected                 // whatever the customer validation utility throws

  /** The outcome of a call returning a value or throwing. */
  datatype Result<+T> = Ok(value: T) | Err(error: Error)

  /** The outcome of a void call that may throw. */
  datatype Outcome = Pass | Fail(error: Error)

  /** The two account types the validators know, compared with String.equals. */
  const CHECKING: string := "cuenta corriente"
  const SAVINGS: string := "cuenta de ahorros"

  /** The two status strings the service writes. */
  const ACTIVE: string := "activa"
  const INACTIVE: string := "inactiva"

  /** An account ("producto"). Money is an integer number of minor units:
      the code only compares balances with BigDecimal.compareTo, which ignores
      scale. The owner is the customer's id (null on a fresh draft). */
  datatype Account = Account(
    id: int,
    accountType: string,
    number: string,
    status: string,
    balance: int,
    exemptGmf: bool,
    owner: Option<int>)

  /** A calendar date (the customer's birth date), carried but never inspected. */
  datatype Date = Date(year: int, month: int, day: int)

  /** A customer ("cliente"). Name and e-mail columns are nullable because the
      validators test them for null. The list of linked accounts is not a
      field: it is the set of stored accounts whose owner is this customer. */
  datatype Customer = Customer(
    id: int,
    idType: string,
    idNumber: string,
    firstNames: Option<string>,
    lastNames: Option<string>,
    age: int,
    email: Option<string>,
    birthDate: Option<Date>)

  /** The movement kinds and the tag the source stores for each. */
  datatype MovementKind = Transfer | Withdrawal | Deposit {
    function Tag(): (t: string)
      ensures t in {"TRANSFERENCIA", "RETIRO", "DEPOSITO"}
      ensures t == "TRANSFERENCIA" <==> this == Transfer
      ensures t == "RETIRO" <==> this == Withdrawal
    {
      match this
      case Transfer => "TRANSFERENCIA"
      case Withdrawal => "RETIRO"
      case Deposit => "DEPOSITO"
    }
  }

  /** A movement ("transaccion"): the accounts it touched, by id. */
  datatype Movement = Movement(
    kind: MovementKind,
    amount: int,
    source: Option<int>,
    destination: Option<int>)
}
