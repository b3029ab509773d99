/** NumeroCuentaGenerator (and its private copy inside ProductosServiceImp):
    a two-digit prefix chosen by account type followed by eight random
    digits, redrawn until the number is not already in use.

    The random source is replaced by an oracle: `draws` is the sequence of
    digit values (a random fraction scaled by ten and truncated) that the
    successive calls would produce, so each attempt consumes the next eight
    of them. The source loops until it finds
    a free number; the model requires that one of the attempts the oracle
    allows does so, which is exactly the condition under which the source
    loop terminates. */
module AccountNumberGenerator {
  import opened Entities
  import opened Text

  const SUFFIX_LENGTH: nat := 8
  const CHECKING_PREFIX: string := "33"
  const OTHER_PREFIX: string := "53"

  /** The checking type gets prefix 33, every other type 53; the type is
      compared exactly. */
  function Prefix(accountType: string): (p: string)
    ensures |p| == 2
    ensures p == CHECKING_PREFIX <==> accountType == CHECKING
    ensures p == OTHER_PREFIX <==> accountType != CHECKING
  {
    if CHECKING == accountType then CHECKING_PREFIX else OTHER_PREFIX
  }

  /** Every value is a single decimal digit, as a random fraction scaled by
      ten and truncated always is. */
  predicate AreDraws(draws: seq<int>)
  {
    forall i :: 0 <= i < |draws| ==> 0 <= draws[i] < 10
  }

  /** The character appended for a digit value. */
  function DigitChar(d: int): (c: char)
    requires 0 <= d < 10
    ensures IsDigit(c)
    ensures c as int - '0' as int == d
  {
    ('0' as int + d) as char
  }

  /** The text appended for a run of draws, one character per draw. */
  function DigitText(ds: seq<int>): (s: string)
    requires AreDraws(ds)
    ensures |s| == |ds|
    ensures forall i :: 0 <= i < |s| ==> s[i] == DigitChar(ds[i])
  {
    if ds == [] then [] else DigitText(ds[..|ds| - 1]) + [DigitChar(ds[|ds| - 1])]
  }

  /** The number tried on attempt k (counting from 0). */
  function Candidate(prefix: string, draws: seq<int>, k: nat): string
    requires AreDraws(draws) && SUFFIX_LENGTH * k + SUFFIX_LENGTH <= |draws|
  {
    prefix + DigitText(draws[SUFFIX_LENGTH * k .. SUFFIX_LENGTH * k + SUFFIX_LENGTH])
  }

  /** Every candidate starts with the prefix and has eight more characters. */
  lemma CandidateHasPrefix(prefix: string, draws: seq<int>, k: nat)
    requires AreDraws(draws) && SUFFIX_LENGTH * k + SUFFIX_LENGTH <= |draws|
    ensures |Candidate(prefix, draws, k)| == |prefix| + SUFFIX_LENGTH
    ensures Candidate(prefix, draws, k)[..|prefix|] == prefix
  {
    var c := Candidate(prefix, draws, k);
    assert c == prefix + DigitText(draws[SUFFIX_LENGTH * k .. SUFFIX_LENGTH * k + SUFFIX_LENGTH]);
  }

  /** Some attempt the oracle allows yields a number not in use. */
  ghost predicate EventuallyFresh(prefix: string, existing: set<string>, draws: seq<int>)
  {
    AreDraws(draws) &&
    exists k: nat :: SUFFIX_LENGTH * k + SUFFIX_LENGTH <= |draws| && Candidate(prefix, draws, k) !in existing
  }

  /** The shape of every generated number: prefix, then eight digits. */
  predicate WellFormedNumber(number: string, prefix: string)
  {
    && |number| == |prefix| + SUFFIX_LENGTH
    && number[..|prefix|] == prefix
    && forall i :: |prefix| <= i < |number| ==> IsDigit(number[i])
  }

  /** generateRandomDigits: append one digit per draw, `length` times. */
  method GenerateRandomDigits(draws: seq<int>, length: nat) returns (s: string)
    requires AreDraws(draws) && length <= |draws|
    ensures s == DigitText(draws[..length])
    ensures |s| == length && forall i :: 0 <= i < length ==> IsDigit(s[i])
  {
    s := [];
    for i := 0 to length
      invariant s == DigitText(draws[..i])
    {
      assert draws[..i + 1][..i] == draws[..i];
      s := s + [DigitChar(draws[i])];
    }
  }

  /** generarNumeroCuenta: draw a candidate, and draw again while it is
      already in use. The result is the first candidate not in `existing`;
      `retries` is how many were refused before it. */
  method GenerateNumber(prefix: string, existing: set<string>, draws: seq<int>)
      returns (number: string, retries: nat)
    requires EventuallyFresh(prefix, existing, draws)
    ensures SUFFIX_LENGTH * retries + SUFFIX_LENGTH <= |draws|
    ensures number == Candidate(prefix, draws, retries)
    ensures number !in existing
    ensures forall j: nat :: j < retries ==> Candidate(prefix, draws, j) in existing
    ensures WellFormedNumber(number, prefix)
  {
    ghost var goal: nat :| SUFFIX_LENGTH * goal + SUFFIX_LENGTH <= |draws| &&
                           Candidate(prefix, draws, goal) !in existing;
    retries := 0;
    var digits := GenerateRandomDigits(draws, SUFFIX_LENGTH);
    number := prefix + digits;
    while number in existing
      invariant retries <= goal
      invariant number == Candidate(prefix, draws, retries)
      invariant forall j: nat :: j < retries ==> Candidate(prefix, draws, j) in existing
      decreases goal - retries
    {
      retries := retries + 1;
      var rest := draws[SUFFIX_LENGTH * retries..];
      digits := GenerateRandomDigits(rest, SUFFIX_LENGTH);
      assert rest[..SUFFIX_LENGTH] == draws[SUFFIX_LENGTH * retries .. SUFFIX_LENGTH * retries + SUFFIX_LENGTH];
      number := prefix + digits;
    }
    assert number[..|prefix|] == prefix;
  }

  /** generarYAsignarNumeroCuenta: the account gets a fresh number whose
      prefix tells its type; no other field changes. */
  method GenerateAndAssign(account: Account, existing: set<string>, draws: seq<int>)
      returns (numbered: Account)
    requires EventuallyFresh(Prefix(account.accountType), existing, draws)
    ensures numbered == account.(number := numbered.number)
    ensures numbered.number !in existing
    ensures WellFormedNumber(numbered.number, Prefix(account.accountType))
    ensures numbered.number[..2] == CHECKING_PREFIX <==> account.accountType == CHECKING
  {
    var prefix := Prefix(account.accountType);
    var number, _ := GenerateNumber(prefix, existing, draws);
    numbered := account.(number := number);
  }

  /** Numbers generated for a checking account and for any other type can
      never coincide: the prefix alone tells them apart. */
  lemma PrefixSeparatesTypes(n1: string, type1: string, n2: string, type2: string)
    requires WellFormedNumber(n1, Prefix(type1)) && WellFormedNumber(n2, Prefix(type2))
    requires (type1 == CHECKING) != (type2 == CHECKING)
    ensures n1 != n2
  {
    assert n1[..2] != n2[..2];
  }
}
