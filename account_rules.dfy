/** The account-type whitelist (TipoCuentaValidator, and the identical
    ProductosServiceImp.validarTipoCuenta). */
module AccountTypeValidator {
  import opened Entities

  /** Accepts exactly the two type strings, by exact String.equals: no case
      folding and no trimming. A null type is excluded by the string type. */
  function Validate(accountType: string): (r: Outcome)
    ensures r == Pass <==> accountType == CHECKING || accountType == SAVINGS
    ensures r != Pass ==> r == Fail(IllegalArgument(InvalidAccountType))
  {
    if accountType != CHECKING && accountType != SAVINGS then
      Fail(IllegalArgument(InvalidAccountType))
    else
      Pass
  }

  /** The comparison neither folds case nor trims: a type that starts with
      a capital letter, or starts or ends with a blank, is refused. */
  lemma VariantsRejected(accountType: string)
    requires |accountType| > 0
    requires || 'A' <= accountType[0] <= 'Z'
             || accountType[0] == ' '
             || accountType[|accountType| - 1] == ' '
    ensures Validate(accountType) == Fail(IllegalArgument(InvalidAccountType))
  {
    assert CHECKING[0] == 'c' && CHECKING[|CHECKING| - 1] == 'e';
    assert SAVINGS[0] == 'c' && SAVINGS[|SAVINGS| - 1] == 's';
  }
}

/** The two minimum-balance rules of the source: the stand-alone
    SaldoMinimoValidator, and the private check that ProductosServiceImp
    actually calls on create and update. */
module MinimumBalanceValidator {
  import opened Entities

  /** SaldoMinimoValidator.validate: zero is refused for every type (checked
      first), a negative balance only for savings. */
  function Validate(account: Account): (r: Outcome)
    ensures account.balance == 0 ==> r == Fail(IllegalArgument(ZeroInitialBalance))
    ensures account.balance < 0 && account.accountType == SAVINGS ==>
              r == Fail(IllegalArgument(NegativeSavingsBalance))
    ensures r == Pass <==>
              account.balance > 0 || (account.balance < 0 && account.accountType != SAVINGS)
  {
    if account.balance == 0 then
      Fail(IllegalArgument(ZeroInitialBalance))
    else if account.accountType == SAVINGS && account.balance < 0 then
      Fail(IllegalArgument(NegativeSavingsBalance))
    else
      Pass
  }

  /** ProductosServiceImp.validarSaldoMinimo: only a negative savings
      balance is refused; zero and negative checking balances pass. */
  function ValidateSavings(account: Account): (r: Outcome)
    ensures r == Pass <==> !(account.accountType == SAVINGS && account.balance < 0)
    ensures r != Pass ==> r == Fail(IllegalArgument(NegativeSavingsBalance))
  {
    if account.accountType == SAVINGS && account.balance < 0 then
      Fail(IllegalArgument(NegativeSavingsBalance))
    else
      Pass
  }

  /** The check the service uses is strictly weaker than the stand-alone
      validator: everything the validator accepts it accepts, and a zero
      balance of either type, or a negative checking balance, passes it
      although the validator refuses the first. */
  lemma ServiceCheckIsWeaker(account: Account)
    ensures Validate(account) == Pass ==> ValidateSavings(account) == Pass
    ensures account.balance == 0 ==> Validate(account).Fail? && ValidateSavings(account) == Pass
    ensures account.balance < 0 && account.accountType == CHECKING ==>
              Validate(account) == Pass && ValidateSavings(account) == Pass
  {
  }
}
