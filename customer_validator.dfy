/** ClientesValidator: the age, e-mail and name rules for a customer. The
    e-mail regular expression
      [a-zA-Z0-9_+&*-]+(\.[a-zA-Z0-9_+&*-]+)*@([a-zA-Z0-9-]+\.)+[a-zA-Z]{2,}
    (matched against the whole string) is written out as a predicate: since
    neither '@' nor '.' belongs to any of its character classes, a string
    matches exactly when it splits at '@' into a local part and a domain, the
    local part splits at '.' into non-empty runs of local characters, and
    the domain splits at '.' into at least one non-empty label followed by a
    final run of two or more letters. */
module CustomerValidator {
  import opened Entities
  import opened Text

  const MIN_AGE: int := 18
  const MIN_NAME_LENGTH: int := 2

  predicate IsLetter(c: char) { 'a' <= c <= 'z' || 'A' <= c <= 'Z' }

  /** [a-zA-Z0-9_+&*-] */
  predicate IsLocalChar(c: char)
  {
    IsLetter(c) || IsDigit(c) || c == '_' || c == '+' || c == '&' || c == '*' || c == '-'
  }

  /** [a-zA-Z0-9-] */
  predicate IsLabelChar(c: char) { IsLetter(c) || IsDigit(c) || c == '-' }

  /** [a-zA-Z0-9_+&*-]+(\.[a-zA-Z0-9_+&*-]+)* */
  predicate LocalPartMatches(s: string)
  {
    var words := Split(s, '.');
    AllPiecesNonEmpty(words) && PiecesOver(words, IsLocalChar)
  }

  /** [a-zA-Z0-9-]+ */
  predicate IsLabel(w: string)
  {
    |w| > 0 && forall j :: 0 <= j < |w| ==> IsLabelChar(w[j])
  }

  /** [a-zA-Z]{2,} */
  predicate IsTopLevel(w: string)
  {
    |w| >= 2 && forall j :: 0 <= j < |w| ==> IsLetter(w[j])
  }

  /** ([a-zA-Z0-9-]+\.)+[a-zA-Z]{2,} */
  predicate DomainMatches(s: string)
  {
    var labels := Split(s, '.');
    && |labels| >= 2
    && (forall i :: 0 <= i < |labels| - 1 ==> IsLabel(labels[i]))
    && IsTopLevel(labels[|labels| - 1])
  }

  /** The whole e-mail regular expression. */
  predicate EmailMatches(s: string)
  {
    var halves := Split(s, '@');
    |halves| == 2 && LocalPartMatches(halves[0]) && DomainMatches(halves[1])
  }

  function ValidateAge(age: int): (r: Outcome)
    ensures r == Pass <==> age >= MIN_AGE
    ensures r != Pass ==> r == Fail(InvalidAge)
  {
    if age < MIN_AGE then Fail(InvalidAge) else Pass
  }

  function ValidateEmail(email: Option<string>): (r: Outcome)
    ensures r == Pass <==> email.Some? && EmailMatches(email.value)
    ensures r != Pass ==> r == Fail(InvalidEmail)
  {
    if email.None? || !EmailMatches(email.value) then Fail(InvalidEmail) else Pass
  }

  function ValidateName(firstNames: Option<string>, lastNames: Option<string>): (r: Outcome)
    ensures r == Pass <==>
              && firstNames.Some? && |firstNames.value| >= MIN_NAME_LENGTH
              && lastNames.Some? && |lastNames.value| >= MIN_NAME_LENGTH
    ensures r != Pass ==> r == Fail(InvalidName)
  {
    if || firstNames.None? || |firstNames.value| < MIN_NAME_LENGTH
       || lastNames.None? || |lastNames.value| < MIN_NAME_LENGTH
    then Fail(InvalidName)
    else Pass
  }

  /** Age, then e-mail, then names: the first rule that fails decides the
      error, and the customer passes only when all three pass. */
  function ValidateCustomer(c: Customer): (r: Outcome)
    ensures r == Pass <==>
              ValidateAge(c.age) == Pass && ValidateEmail(c.email) == Pass &&
              ValidateName(c.firstNames, c.lastNames) == Pass
    ensures c.age < MIN_AGE ==> r == Fail(InvalidAge)
    ensures c.age >= MIN_AGE && ValidateEmail(c.email) != Pass ==> r == Fail(InvalidEmail)
    ensures c.age >= MIN_AGE && ValidateEmail(c.email) == Pass && r != Pass ==> r == Fail(InvalidName)
  {
    match ValidateAge(c.age)
    case Fail(e) => Fail(e)
    case Pass =>
      match ValidateEmail(c.email)
      case Fail(e) => Fail(e)
      case Pass => ValidateName(c.firstNames, c.lastNames)
  }

  /** A local part, stated on its characters. */
  predicate LocalPartShape(s: string)
  {
    NoStraySeparators(s, '.') && forall k :: 0 <= k < |s| ==> s[k] == '.' || IsLocalChar(s[k])
  }

  /** The local part of the regular expression is exactly a non-empty string
      of local characters and dots with no leading, trailing or doubled dot. */
  lemma LocalPartCharacterized(s: string)
    ensures LocalPartMatches(s) <==> LocalPartShape(s)
  {
    AllPiecesCharacterized(s, '.');
    SplitChars(s, '.', IsLocalChar);
  }

  /** An accepted domain contains a dot, and what follows its last dot is two
      or more letters. */
  lemma AcceptedDomainShape(d: string)
    requires DomainMatches(d)
    ensures exists j :: 0 <= j < |d| - 2 && d[j] == '.' && forall i :: j < i < |d| ==> IsLetter(d[i])
  {
    var labels := Split(d, '.');
    var t := labels[|labels| - 1];
    SplitLast(d, '.');
    var j := |d| - |t| - 1;
    assert d[j] == '.';
    forall i | j < i < |d| ensures IsLetter(d[i]) {
      assert d[i] == d[|d| - |t|..][i - (|d| - |t|)];
    }
  }

  /** An accepted e-mail has exactly one '@', and the halves the pattern
      matched are the text before and after it. */
  lemma AcceptedEmailHalves(e: string)
    requires EmailMatches(e)
    ensures Count(e, '@') == 1
    ensures IndexOf(e, '@') < |e|
    ensures LocalPartMatches(e[..IndexOf(e, '@')]) && DomainMatches(e[IndexOf(e, '@') + 1..])
  {
    SplitCount(e, '@');
    SplitAtFirst(e, '@');
    var at := IndexOf(e, '@');
    assert at < |e|;
    SplitAtFirst(e[at + 1..], '@');
  }

  /** A dot followed by letters only, found in a suffix of e, lies in e. */
  lemma DotRunInSuffix(e: string, k: nat, j: int)
    requires k <= |e|
    requires 0 <= j < |e[k..]| - 2 && e[k..][j] == '.'
    requires forall i :: j < i < |e[k..]| ==> IsLetter(e[k..][i])
    ensures k <= k + j < |e| - 2 && e[k + j] == '.'
    ensures forall i :: k + j < i < |e| ==> IsLetter(e[i])
  {
    forall i | k + j < i < |e| ensures IsLetter(e[i]) {
      assert e[i] == e[k..][i - k];
    }
  }

  /** An accepted e-mail has exactly one '@'; before it stands a well-formed
      local part, after it a domain with a dot and a letters-only ending. */
  lemma AcceptedEmailShape(e: string)
    requires EmailMatches(e)
    ensures Count(e, '@') == 1
    ensures var at := IndexOf(e, '@');
      && at < |e|
      && LocalPartShape(e[..at])
      && exists j :: at < j < |e| - 2 && e[j] == '.' && forall i :: j < i < |e| ==> IsLetter(e[i])
  {
    AcceptedEmailHalves(e);
    var at := IndexOf(e, '@');
    LocalPartCharacterized(e[..at]);
    var d := e[at + 1..];
    AcceptedDomainShape(d);
    var j :| 0 <= j < |d| - 2 && d[j] == '.' && forall i :: j < i < |d| ==> IsLetter(d[i]);
    DotRunInSuffix(e, at + 1, j);
  }
}
