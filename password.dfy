/**
 * The `Password` string type: its validator checks every rule, collects one
 * error per violated rule in a fixed order, and either rejects with all of them
 * or returns the input unchanged.
 */
module Password {
  import opened Wrappers
  import Text

  const MinLength: nat := 8
  const MaxLength: nat := 128

  /** The rule switches; all four are on. */
  const IncludesSpecialChars := true
  const IncludesNumbers := true
  const IncludesLowercase := true
  const IncludesUppercase := true

  /** `SPECIAL_CHARS`: the 30 accepted symbols. */
  const SpecialChars: set<char> := {
    '!', '@', '#', '$', '%', '^', '&', '*', '(', ')', '-', '_', '=', '+', '{',
    '}', '[', ']', '|', '\\', ':', ';', '\'', '"', '<', '>', ',', '.', '?', '/'
  }

  /** One line error per violated rule. */
  datatype PasswordError = TooShort | TooLong | NoNumeral | NoUppercase | NoLowercase | NoSymbol

  predicate HasDigit(s: string) { exists i :: 0 <= i < |s| && Text.IsDigit(s[i]) }
  predicate HasUpper(s: string) { exists i :: 0 <= i < |s| && Text.IsUpper(s[i]) }
  predicate HasLower(s: string) { exists i :: 0 <= i < |s| && Text.IsLower(s[i]) }
  predicate HasSymbol(s: string) { exists i :: 0 <= i < |s| && s[i] in SpecialChars }

  /** The password rules, all at once. */
  predicate Acceptable(s: string)
  {
    MinLength <= |s| <= MaxLength && HasDigit(s) && HasUpper(s) && HasLower(s) && HasSymbol(s)
  }

  /** The error one rule contributes: `[e]` when it is broken, else nothing. */
  function RuleError(s: string, e: PasswordError): seq<PasswordError>
  {
    var broken := match e
      case TooShort => |s| < MinLength
      case TooLong => |s| > MaxLength
      case NoNumeral => IncludesNumbers && !HasDigit(s)
      case NoUppercase => IncludesUppercase && !HasUpper(s)
      case NoLowercase => IncludesLowercase && !HasLower(s)
      case NoSymbol => IncludesSpecialChars && !HasSymbol(s);
    if broken then [e] else []
  }

  /** The rules in the order `validate` checks them. */
  const RuleOrder: seq<PasswordError> := [TooShort, TooLong, NoNumeral, NoUppercase, NoLowercase, NoSymbol]

  /** The errors of the first `n` rules, in order. */
  function ErrorsUpTo(s: string, n: nat): seq<PasswordError>
    requires n <= |RuleOrder|
  {
    if n == 0 then [] else ErrorsUpTo(s, n - 1) + RuleError(s, RuleOrder[n - 1])
  }

  /** The errors `validate` collects. */
  function Errors(s: string): seq<PasswordError>
  {
    ErrorsUpTo(s, |RuleOrder|)
  }

  /** `Password.validate`: the rules are checked one after another; any error rejects. */
  method Validate(value: string) returns (r: Result<string, seq<PasswordError>>)
    ensures r.Err? ==> r.error == Errors(value) && r.error != []
    ensures r.Ok? <==> Acceptable(value)
    ensures r.Ok? ==> r.value == value
  {
    var errors: seq<PasswordError> := [];
    if |value| < MinLength {
      errors := errors + [TooShort];
    }
    assert errors == ErrorsUpTo(value, 1);
    if |value| > MaxLength {
      errors := errors + [TooLong];
    }
    assert errors == ErrorsUpTo(value, 2);
    if IncludesNumbers && !HasDigit(value) {
      errors := errors + [NoNumeral];
    }
    assert errors == ErrorsUpTo(value, 3);
    if IncludesUppercase && !HasUpper(value) {
      errors := errors + [NoUppercase];
    }
    assert errors == ErrorsUpTo(value, 4);
    if IncludesLowercase && !HasLower(value) {
      errors := errors + [NoLowercase];
    }
    assert errors == ErrorsUpTo(value, 5);
    if IncludesSpecialChars && !HasSymbol(value) {
      errors := errors + [NoSymbol];
    }
    assert errors == Errors(value);
    ErrorsEmpty(value);
    if errors != [] {
      return Err(errors);
    }
    return Ok(value);
  }

  /** A rule's error is among the first `n` collected exactly when it is one of the first `n` rules and broken. */
  lemma {:induction false} ErrorsUpToHas(s: string, n: nat, e: PasswordError)
    requires n <= |RuleOrder|
    ensures e in ErrorsUpTo(s, n) <==> e in RuleOrder[..n] && RuleError(s, e) == [e]
  {
    if n > 0 {
      ErrorsUpToHas(s, n - 1, e);
      assert RuleOrder[..n] == RuleOrder[..n - 1] + [RuleOrder[n - 1]];
    }
  }

  /** Each error is collected exactly when its own rule is broken. */
  lemma ErrorsOfRules(s: string)
    ensures TooShort in Errors(s) <==> |s| < MinLength
    ensures TooLong in Errors(s) <==> |s| > MaxLength
    ensures NoNumeral in Errors(s) <==> !HasDigit(s)
    ensures NoUppercase in Errors(s) <==> !HasUpper(s)
    ensures NoLowercase in Errors(s) <==> !HasLower(s)
    ensures NoSymbol in Errors(s) <==> !HasSymbol(s)
  {
    assert RuleOrder[..|RuleOrder|] == RuleOrder;
    ErrorsUpToHas(s, 6, TooShort);
    ErrorsUpToHas(s, 6, TooLong);
    ErrorsUpToHas(s, 6, NoNumeral);
    ErrorsUpToHas(s, 6, NoUppercase);
    ErrorsUpToHas(s, 6, NoLowercase);
    ErrorsUpToHas(s, 6, NoSymbol);
  }

  /** No error is collected exactly when every rule holds. */
  lemma ErrorsEmpty(s: string)
    ensures Errors(s) == [] <==> Acceptable(s)
  {
    ErrorsOfRules(s);
    if Errors(s) != [] {
      var e := Errors(s)[0];
      assert e in Errors(s);
      match e {
        case TooShort =>
        case TooLong =>
        case NoNumeral =>
        case NoUppercase =>
        case NoLowercase =>
        case NoSymbol =>
      }
    }
  }
}
