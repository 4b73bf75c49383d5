/**
 * The password policy engine of lib/passwordUtils.ts: rule-by-rule
 * validation with an ordered error list and a 0..8 score, the sequential
 * and repeated-character detectors, the four-tier strength classifier,
 * the suggestion generator and the common-password heuristic.
 */
module Passwords {
  import opened Optional
  import opened Text
  import opened Decimal

  /** The policy a password is checked against. */
  datatype Requirements = Requirements(
    minLength: int,
    requireUppercase: bool,
    requireLowercase: bool,
    requireNumbers: bool,
    requireSpecialChars: bool,
    maxLength: int,
    forbiddenPatterns: seq<string>)

  const DefaultRequirements := Requirements(
    8, true, true, true, true, 128,
    ["password", "123456", "qwerty", "abc123", "admin", "user", "test"])

  datatype Strength = Weak | Fair | Good | Strong

  /** Position of a strength on the ordinal scale Weak < Fair < Good < Strong. */
  function StrengthRank(s: Strength): nat {
    match s
    case Weak => 0
    case Fair => 1
    case Good => 2
    case Strong => 3
  }

  /** One violated rule of `ValidatePassword`. */
  datatype PasswordError =
    | TooShort(minLength: int)
    | TooLong(maxLength: int)
    | MissingUppercase
    | MissingLowercase
    | MissingNumber
    | MissingSpecial
    | ForbiddenPattern(pattern: string)
    | RepeatedCharacters
    | SequentialPattern
  {
    /** The position of the rule in the order the checks run, 1 to 9. */
    function Rule(): (n: nat)
      ensures 1 <= n <= 9
    {
      match this
      case TooShort(_) => 1
      case TooLong(_) => 2
      case MissingUppercase => 3
      case MissingLowercase => 4
      case MissingNumber => 5
      case MissingSpecial => 6
      case ForbiddenPattern(_) => 7
      case RepeatedCharacters => 8
      case SequentialPattern => 9
    }

    /** The message the check pushes onto the error list. */
    function Message(): string {
      match this
      case TooShort(n) => TooShortPrefix + IntToString(n) + LengthSuffix
      case TooLong(n) => TooLongPrefix + IntToString(n) + LengthSuffix
      case MissingUppercase => ClassPrefix + "uppercase letter"
      case MissingLowercase => ClassPrefix + "lowercase letter"
      case MissingNumber => ClassPrefix + "number"
      case MissingSpecial => ClassPrefix + "special character"
      case ForbiddenPattern(p) => ForbiddenPrefix + p + "\""
      case RepeatedCharacters => PatternPrefix + "more than 2 consecutive identical characters"
      case SequentialPattern => PatternPrefix + "sequential patterns (e.g., 123, abc)"
    }
  }

  const TooShortPrefix := "Password must be at least "
  const TooLongPrefix := "Password must be no more than "
  const LengthSuffix := " characters long"
  const ClassPrefix := "Password must contain at least one "
  const PatternPrefix := "Password cannot contain "
  const ForbiddenPrefix := PatternPrefix + "common patterns like \""

  /** The middle part of `m` when it starts with `a` and ends with `c`. */
  function Unframe(m: string, a: string, c: string): (r: Option<string>)
    ensures r.Some? ==> m == a + r.value + c
  {
    if |a| + |c| <= |m| && m[..|a|] == a && m[|m| - |c|..] == c then
      assert m == m[..|a|] + m[|a|..|m| - |c|] + m[|m| - |c|..];
      Some(m[|a|..|m| - |c|])
    else None
  }

  /** Unframing undoes framing. */
  lemma UnframeFramed(a: string, b: string, c: string)
    ensures Unframe(a + b + c, a, c) == Some(b)
  {
    var m := a + b + c;
    assert m[..|a|] == a;
    assert m[|a|..|m| - |c|] == b;
    assert m[|m| - |c|..] == c;
  }

  /** A length error whose bound is the decimal text `digits`. */
  function LengthError(digits: Option<string>, short: bool): Option<PasswordError> {
    if digits.None? then None
    else match ParseInt(digits.value)
      case None => None
      case Some(n) => Some(if short then TooShort(n) else TooLong(n))
  }

  /**
   * Reads an error back from its message. The messages differ at fixed
   * positions: after "Password " comes "must" or "cannot"; the length
   * messages differ at "at"/"no", the class messages at the class name, and
   * the pattern messages at "common"/"more"/"sequential".
   */
  function ParseMessage(m: string): Option<PasswordError> {
    if |m| < 36 then None
    else if m[9] == 'm' && m[14] == 'b' && m[17] == 'a' then
      LengthError(Unframe(m, TooShortPrefix, LengthSuffix), true)
    else if m[9] == 'm' && m[14] == 'b' then
      LengthError(Unframe(m, TooLongPrefix, LengthSuffix), false)
    else if m[9] == 'm' then
      var e := if m[35] == 'u' then MissingUppercase else if m[35] == 'l' then MissingLowercase
        else if m[35] == 'n' then MissingNumber else MissingSpecial;
      if m == e.Message() then Some(e) else None
    else if m[24] == 'c' then
      var p := Unframe(m, ForbiddenPrefix, "\"");
      if p.Some? then Some(ForbiddenPattern(p.value)) else None
    else
      var e := if m[24] == 'm' then RepeatedCharacters else SequentialPattern;
      if m == e.Message() then Some(e) else None
  }

  /** A too-short error is read back from its message. */
  lemma TooShortMessageRoundTrip(n: int)
    ensures ParseMessage(TooShort(n).Message()) == Some(TooShort(n))
  {
    var m := TooShortPrefix + IntToString(n) + LengthSuffix;
    assert TooShort(n).Message() == m;
    assert m[9] == 'm' && m[14] == 'b' && m[17] == 'a';
    IntToStringRoundTrip(n);
    UnframeFramed(TooShortPrefix, IntToString(n), LengthSuffix);
  }

  /** A too-long error is read back from its message. */
  lemma TooLongMessageRoundTrip(n: int)
    ensures ParseMessage(TooLong(n).Message()) == Some(TooLong(n))
  {
    var m := TooLongPrefix + IntToString(n) + LengthSuffix;
    assert TooLong(n).Message() == m;
    assert m[9] == 'm' && m[14] == 'b' && m[17] == 'n';
    IntToStringRoundTrip(n);
    UnframeFramed(TooLongPrefix, IntToString(n), LengthSuffix);
  }

  /** A forbidden-pattern error is read back from its message. */
  lemma ForbiddenMessageRoundTrip(p: string)
    ensures ParseMessage(ForbiddenPattern(p).Message()) == Some(ForbiddenPattern(p))
  {
    var m := ForbiddenPrefix + p + "\"";
    assert ForbiddenPattern(p).Message() == m;
    assert m[9] == 'c' && m[24] == 'c';
    UnframeFramed(ForbiddenPrefix, p, "\"");
  }

  /** An error with a fixed message is read back from it. */
  lemma FixedMessageRoundTrip(e: PasswordError)
    requires !e.TooShort? && !e.TooLong? && !e.ForbiddenPattern?
    ensures ParseMessage(e.Message()) == Some(e)
  {
    var m := e.Message();
    match e
    case MissingUppercase => assert m[9] == 'm' && m[14] == 'c' && m[35] == 'u';
    case MissingLowercase => assert m[9] == 'm' && m[14] == 'c' && m[35] == 'l';
    case MissingNumber => assert m[9] == 'm' && m[14] == 'c' && m[35] == 'n';
    case MissingSpecial => assert m[9] == 'm' && m[14] == 'c' && m[35] == 's';
    case RepeatedCharacters =>
      assert |PatternPrefix| == 24 && m[24] == "more than 2 consecutive identical characters"[0];
      assert m[9] == 'c' && m[24] == 'm';
    case SequentialPattern =>
      assert |PatternPrefix| == 24 && m[24] == "sequential patterns (e.g., 123, abc)"[0];
      assert m[9] == 'c' && m[24] == 's';
  }

  /** Every error can be read back from its message, so no two errors share a message. */
  lemma MessageRoundTrip(e: PasswordError)
    ensures ParseMessage(e.Message()) == Some(e)
  {
    match e
    case TooShort(n) => TooShortMessageRoundTrip(n);
    case TooLong(n) => TooLongMessageRoundTrip(n);
    case ForbiddenPattern(p) => ForbiddenMessageRoundTrip(p);
    case _ => FixedMessageRoundTrip(e);
  }

  /** Distinct errors have distinct messages. */
  lemma MessageInjective(e: PasswordError, e': PasswordError)
    ensures e.Message() == e'.Message() ==> e == e'
  {
    MessageRoundTrip(e);
    MessageRoundTrip(e');
  }

  datatype ValidationResult = ValidationResult(
    isValid: bool,
    errors: seq<PasswordError>,
    strength: Strength,
    score: int)

  /** The errors appear in rule order, so no rule contributes twice. */
  predicate InRuleOrder(errors: seq<PasswordError>) {
    forall i, j :: 0 <= i < j < |errors| ==> errors[i].Rule() < errors[j].Rule()
  }

  // ---------------------------------------------------------------------
  // Character classes
  // ---------------------------------------------------------------------

  /** The special-character class `[!@#$%^&*()_+\-=\[\]{};':"\\|,.<>\/?]`, character by character. */
  predicate ListedSpecial(c: char) {
    || c == '!' || c == '@' || c == '#' || c == '$' || c == '%' || c == '^'
    || c == '&' || c == '*' || c == '(' || c == ')' || c == '_' || c == '+'
    || c == '-' || c == '=' || c == '[' || c == ']' || c == '{' || c == '}'
    || c == ';' || c == '\'' || c == ':' || c == '"' || c == '\\' || c == '|'
    || c == ',' || c == '.' || c == '<' || c == '>' || c == '/' || c == '?'
  }

  /**
   * The special-character class as code-point ranges: the ASCII
   * punctuation except the backtick and the tilde.
   */
  predicate IsSpecial(c: char) {
    || ('!' <= c <= '/')
    || (':' <= c <= '@')
    || ('[' <= c <= '_')
    || ('{' <= c <= '}')
  }

  /** The ranges hold exactly the characters the class lists. */
  lemma SpecialRangesMatchClass(c: char)
    ensures IsSpecial(c) <==> ListedSpecial(c)
  {
  }

  // ---------------------------------------------------------------------
  // Forbidden patterns
  // ---------------------------------------------------------------------

  /** Pattern `k` is contained, case-insensitively, in the password. */
  predicate PatternMatches(password: string, patterns: seq<string>, k: int)
    requires 0 <= k < |patterns|
  {
    Contains(Lower(password), Lower(patterns[k]))
  }

  /**
   * The index of the first pattern, at or after `from`, that the password
   * contains; the loop over `forbiddenPatterns` with its `break`.
   */
  function FirstForbidden(password: string, patterns: seq<string>, from: nat): (r: Option<nat>)
    requires from <= |patterns|
    ensures r.Some? ==> from <= r.value < |patterns| && PatternMatches(password, patterns, r.value)
    ensures r.Some? ==> forall k :: from <= k < r.value ==> !PatternMatches(password, patterns, k)
    ensures r.None? <==> forall k :: from <= k < |patterns| ==> !PatternMatches(password, patterns, k)
    decreases |patterns| - from
  {
    if from == |patterns| then None
    else if PatternMatches(password, patterns, from) then Some(from)
    else FirstForbidden(password, patterns, from + 1)
  }

  // ---------------------------------------------------------------------
  // Pattern detectors
  // ---------------------------------------------------------------------

  /**
   * Three identical characters start at `i`. The regex `(.)\1{2,}` uses
   * `.`, so the repeated character cannot be a line terminator.
   */
  predicate TripleAt(s: string, i: int) {
    && 0 <= i && i + 2 < |s|
    && s[i] == s[i + 1] && s[i + 1] == s[i + 2]
    && !IsLineTerminator(s[i])
  }

  function HasTripleFrom(s: string, i: nat): (r: bool)
    ensures r <==> exists j :: i <= j && TripleAt(s, j)
    decreases |s| - i
  {
    if i + 2 >= |s| then false
    else TripleAt(s, i) || HasTripleFrom(s, i + 1)
  }

  /** The test `/(.)\1{2,}/.test(password)`. */
  function HasRepeatedRun(s: string): (r: bool)
    ensures r <==> exists j :: TripleAt(s, j)
  {
    HasTripleFrom(s, 0)
  }

  /** The number of reference runs `isSequentialPattern` searches. */
  const RowCount := 5

  /** Reference run `m`: the digits, the alphabet and the three keyboard rows. */
  function SequenceRow(m: nat): string
    requires m < RowCount
  {
    match m
    case 0 => "0123456789"
    case 1 => "abcdefghijklmnopqrstuvwxyz"
    case 2 => "qwertyuiop"
    case 3 => "asdfghjkl"
    case _ => "zxcvbnm"
  }

  /** Window `j` of row `m` occurs in the lower-cased text. */
  predicate WindowOccurs(lower: string, m: int, j: int) {
    && 0 <= m < RowCount && 0 <= j && j + 3 <= |SequenceRow(m)|
    && Contains(lower, SequenceRow(m)[j..j + 3])
  }

  /** Some window of row `m` at or after `j` occurs in `lower`. */
  function WindowsFrom(lower: string, m: nat, j: nat): (r: bool)
    requires m < RowCount
    ensures r <==> exists j' :: j <= j' && WindowOccurs(lower, m, j')
    decreases |SequenceRow(m)| - j
  {
    if j + 3 > |SequenceRow(m)| then false
    else if Contains(lower, SequenceRow(m)[j..j + 3]) then
      assert WindowOccurs(lower, m, j);
      true
    else WindowsFrom(lower, m, j + 1)
  }

  /** Some window of some row at or after row `m` occurs in `lower`. */
  function RowsFrom(lower: string, m: nat): (r: bool)
    requires m <= RowCount
    ensures r <==> exists m', j :: m <= m' && WindowOccurs(lower, m', j)
    decreases RowCount - m
  {
    if m == RowCount then false
    else WindowsFrom(lower, m, 0) || RowsFrom(lower, m + 1)
  }

  /** `isSequentialPattern`: the lower-cased password contains a width-3 window of a reference row. */
  function IsSequentialPattern(password: string): (r: bool)
    ensures r <==> exists m, j :: WindowOccurs(Lower(password), m, j)
  {
    RowsFrom(Lower(password), 0)
  }

  // ---------------------------------------------------------------------
  // Validation
  // ---------------------------------------------------------------------

  function Bit(b: bool): nat { if b then 1 else 0 }

  /** What the nine rule checks observe about a password. */
  datatype Observations = Observations(
    longEnough: bool,
    shortEnough: bool,
    hasUpper: bool,
    hasLower: bool,
    hasDigit: bool,
    hasSpecial: bool,
    forbidden: Option<nat>,
    repeated: bool,
    sequential: bool)

  function Observe(password: string, req: Requirements): Observations {
    Observations(
      |password| >= req.minLength,
      |password| <= req.maxLength,
      Exists(password, IsUpper),
      Exists(password, IsLower),
      Exists(password, IsDigit),
      Exists(password, IsSpecial),
      FirstForbidden(password, req.forbiddenPatterns, 0),
      HasRepeatedRun(password),
      IsSequentialPattern(password))
  }

  /**
   * A character-class check fails only when the class is required and
   * absent; a class that is not required never fails.
   */
  function ClassFails(required: bool, present: bool): bool {
    required && !present
  }

  /**
   * A character-class check scores a point when the class is present,
   * whether or not it is required: the source's `else if` re-tests presence.
   */
  function ClassScore(required: bool, present: bool): (r: nat)
    ensures r == Bit(present)
  {
    if required && !present then 0
    else if present then 1
    else 0
  }

  /**
   * The pattern a forbidden-pattern error names, when one matched; the
   * bound test never fails on what `Observe` produces.
   */
  function ForbiddenName(req: Requirements, o: Observations): string {
    if o.forbidden.Some? && o.forbidden.value < |req.forbiddenPatterns| then
      req.forbiddenPatterns[o.forbidden.value]
    else ""
  }

  /**
   * Check `k` of the nine, in the order they run: whether it fails, and
   * the error it pushes when it does.
   */
  function RuleCheck(req: Requirements, o: Observations, k: nat): (r: (bool, PasswordError))
    ensures k < 9 ==> r.1.Rule() == k + 1
  {
    match k
    case 0 => (!o.longEnough, TooShort(req.minLength))
    case 1 => (!o.shortEnough, TooLong(req.maxLength))
    case 2 => (ClassFails(req.requireUppercase, o.hasUpper), MissingUppercase)
    case 3 => (ClassFails(req.requireLowercase, o.hasLower), MissingLowercase)
    case 4 => (ClassFails(req.requireNumbers, o.hasDigit), MissingNumber)
    case 5 => (ClassFails(req.requireSpecialChars, o.hasSpecial), MissingSpecial)
    case 6 => (o.forbidden.Some?, ForbiddenPattern(ForbiddenName(req, o)))
    case 7 => (o.repeated, RepeatedCharacters)
    case _ => (o.sequential, SequentialPattern)
  }

  /** The nine checks of `ValidatePassword` as one function of the check number. */
  function Checks(req: Requirements, o: Observations): nat -> (bool, PasswordError) {
    (k: nat) => RuleCheck(req, o, k)
  }

  /** Check `k` reports an error of rule `k + 1`, for each of the nine checks from `from` on. */
  ghost predicate NumberedChecks(check: nat -> (bool, PasswordError), from: nat) {
    forall j :: from <= j < 9 ==> check(j).1.Rule() == j + 1
  }

  /** Putting an error of an earlier rule in front keeps a list in rule order. */
  lemma PrependInRuleOrder(e: PasswordError, rest: seq<PasswordError>)
    requires InRuleOrder(rest)
    requires forall x :: x in rest ==> e.Rule() < x.Rule()
    ensures InRuleOrder([e] + rest)
  {
    var r := [e] + rest;
    forall i, j | 0 <= i < j < |r|
      ensures r[i].Rule() < r[j].Rule()
    {
      assert r[j] == rest[j - 1];
      if i > 0 {
        assert r[i] == rest[i - 1];
      } else {
        assert rest[j - 1] in rest;
      }
    }
  }

  /**
   * The errors pushed by checks `k` to 8, run in order: each failing check
   * pushes its error.
   */
  function Collect(check: nat -> (bool, PasswordError), k: nat): (r: seq<PasswordError>)
    requires k <= 9 && NumberedChecks(check, k)
    ensures InRuleOrder(r)
    ensures forall e :: e in r ==> k < e.Rule()
    decreases 9 - k
  {
    if k == 9 then []
    else
      var rest := Collect(check, k + 1);
      var (failed, e) := check(k);
      if failed then
        PrependInRuleOrder(e, rest);
        [e] + rest
      else rest
  }

  /**
   * The errors collected from check `k` on are exactly the errors of the
   * checks from `k` on that fail.
   */
  lemma {:induction false} CollectExact(check: nat -> (bool, PasswordError), k: nat, e: PasswordError)
    requires k <= 9 && NumberedChecks(check, k)
    ensures e in Collect(check, k) <==> k < e.Rule() <= 9 && check(e.Rule() - 1) == (true, e)
    decreases 9 - k
  {
    if k < 9 {
      CollectExact(check, k + 1, e);
    }
  }

  /** The score: one point per satisfied check; the forbidden-pattern check never scores. */
  function Score(req: Requirements, o: Observations): (score: nat)
    ensures score <= 8
    ensures score == Bit(o.longEnough) + Bit(o.shortEnough) + Bit(o.hasUpper) + Bit(o.hasLower)
      + Bit(o.hasDigit) + Bit(o.hasSpecial) + Bit(!o.repeated) + Bit(!o.sequential)
  {
    Bit(o.longEnough) + Bit(o.shortEnough)
    + ClassScore(req.requireUppercase, o.hasUpper)
    + ClassScore(req.requireLowercase, o.hasLower)
    + ClassScore(req.requireNumbers, o.hasDigit)
    + ClassScore(req.requireSpecialChars, o.hasSpecial)
    + Bit(!o.repeated) + Bit(!o.sequential)
  }

  /** The strength tier of a score and a length, in the source's bottom-up form. */
  function CalculateStrength(score: int, length: int): (r: Strength)
    ensures r == Strong <==> score >= 7 && length >= 16
    ensures r == Good <==> !(score >= 7 && length >= 16) && score >= 5 && length >= 12
    ensures r == Fair <==> !(score >= 5 && length >= 12) && score >= 3 && length >= 8
    ensures r == Weak <==> !(score >= 3 && length >= 8)
  {
    if score < 3 || length < 8 then Weak
    else if score < 5 || length < 12 then Fair
    else if score < 7 || length < 16 then Good
    else Strong
  }

  /**
   * The score of a password: one point for each length bound it meets, each
   * character class it contains and each pattern check it passes.
   */
  function PasswordScore(password: string, req: Requirements): (score: nat)
    ensures score <= 8
    ensures score ==
      Bit(|password| >= req.minLength) + Bit(|password| <= req.maxLength)
      + Bit(Exists(password, IsUpper)) + Bit(Exists(password, IsLower))
      + Bit(Exists(password, IsDigit)) + Bit(Exists(password, IsSpecial))
      + Bit(!HasRepeatedRun(password)) + Bit(!IsSequentialPattern(password))
  {
    Score(req, Observe(password, req))
  }

  /** The nine checks are numbered by the rules they report. */
  lemma ChecksAreNumbered(req: Requirements, o: Observations)
    ensures NumberedChecks(Checks(req, o), 0)
  {
  }

  /** The error list of a password: each failing check's error, in rule order. */
  function PasswordErrors(password: string, req: Requirements): (errors: seq<PasswordError>)
    ensures InRuleOrder(errors)
  {
    var o := Observe(password, req);
    ChecksAreNumbered(req, o);
    Collect(Checks(req, o), 0)
  }

  /** `validatePassword`. */
  function ValidatePassword(password: string, req: Requirements): (r: ValidationResult)
    ensures r.isValid <==> r.errors == []
    ensures InRuleOrder(r.errors)
    ensures 0 <= r.score <= 8
    ensures r.score ==
      Bit(|password| >= req.minLength) + Bit(|password| <= req.maxLength)
      + Bit(Exists(password, IsUpper)) + Bit(Exists(password, IsLower))
      + Bit(Exists(password, IsDigit)) + Bit(Exists(password, IsSpecial))
      + Bit(!HasRepeatedRun(password)) + Bit(!IsSequentialPattern(password))
    ensures r.strength == CalculateStrength(r.score, |password|)
  {
    var errors := PasswordErrors(password, req);
    var score := PasswordScore(password, req);
    ValidationResult(errors == [], errors, CalculateStrength(score, |password|), score)
  }

  /** Pattern `k` is the first pattern of the list that the password contains, ignoring case. */
  ghost predicate FirstMatch(password: string, patterns: seq<string>, k: int) {
    && 0 <= k < |patterns|
    && PatternMatches(password, patterns, k)
    && forall k' :: 0 <= k' < k ==> !PatternMatches(password, patterns, k')
  }

  /**
   * Which errors a password earns, rule by rule: `e` names a rule the
   * password breaks under `req`, with the policy's bound or the first
   * forbidden pattern it contains.
   */
  ghost predicate Violates(password: string, req: Requirements, e: PasswordError) {
    match e
    case TooShort(n) => n == req.minLength && |password| < req.minLength
    case TooLong(n) => n == req.maxLength && |password| > req.maxLength
    case MissingUppercase => req.requireUppercase && !Exists(password, IsUpper)
    case MissingLowercase => req.requireLowercase && !Exists(password, IsLower)
    case MissingNumber => req.requireNumbers && !Exists(password, IsDigit)
    case MissingSpecial => req.requireSpecialChars && !Exists(password, IsSpecial)
    case ForbiddenPattern(p) =>
      exists k :: FirstMatch(password, req.forbiddenPatterns, k) && p == req.forbiddenPatterns[k]
    case RepeatedCharacters => exists i :: TripleAt(password, i)
    case SequentialPattern => exists m, j :: WindowOccurs(Lower(password), m, j)
  }

  /** The forbidden-pattern check finds exactly the first pattern that occurs. */
  lemma FirstForbiddenIsFirstMatch(password: string, patterns: seq<string>, k: int)
    ensures FirstForbidden(password, patterns, 0) == Some(k) <==> FirstMatch(password, patterns, k)
  {
    var f := FirstForbidden(password, patterns, 0);
    if FirstMatch(password, patterns, k) {
      assert PatternMatches(password, patterns, k);
      assert f.Some?;
      assert !(f.value < k) && !(k < f.value);
    }
  }

  /** The pattern the forbidden-pattern loop stops at is `p` exactly when `p` is the first pattern that occurs. */
  lemma FirstForbiddenNamesFirstMatch(password: string, ps: seq<string>, p: string)
    ensures var f := FirstForbidden(password, ps, 0);
      (f.Some? && ps[f.value] == p) <==> exists k :: FirstMatch(password, ps, k) && p == ps[k]
  {
    var f := FirstForbidden(password, ps, 0);
    if f.Some? {
      FirstForbiddenIsFirstMatch(password, ps, f.value);
      forall k | FirstMatch(password, ps, k)
        ensures k == f.value
      {
        FirstForbiddenIsFirstMatch(password, ps, k);
      }
    } else {
      forall k | FirstMatch(password, ps, k)
        ensures false
      {
        FirstForbiddenIsFirstMatch(password, ps, k);
      }
    }
  }

  /**
   * The forbidden-pattern check, run on what the loop over the patterns
   * found, fails with `ForbiddenPattern(p)` exactly when `p` is the first
   * pattern that occurs.
   */
  lemma ForbiddenCheckIsViolation(password: string, req: Requirements, o: Observations, p: string)
    requires o.forbidden == FirstForbidden(password, req.forbiddenPatterns, 0)
    ensures RuleCheck(req, o, 6) == (true, ForbiddenPattern(p)) <==> Violates(password, req, ForbiddenPattern(p))
  {
    FirstForbiddenNamesFirstMatch(password, req.forbiddenPatterns, p);
  }

  /** The length and class checks fail exactly when the password breaks their rule. */
  lemma ClassCheckIsViolation(password: string, req: Requirements, e: PasswordError)
    requires e.Rule() <= 6
    ensures RuleCheck(req, Observe(password, req), e.Rule() - 1) == (true, e) <==> Violates(password, req, e)
  {
  }

  /** The repeat and sequence checks fail exactly when the password contains such a pattern. */
  lemma PatternCheckIsViolation(password: string, req: Requirements, e: PasswordError)
    requires e == RepeatedCharacters || e == SequentialPattern
    ensures RuleCheck(req, Observe(password, req), e.Rule() - 1) == (true, e) <==> Violates(password, req, e)
  {
  }

  /** Check `e.Rule()` fails with error `e` exactly when the password breaks that rule. */
  lemma RuleCheckIsViolation(password: string, req: Requirements, e: PasswordError)
    ensures RuleCheck(req, Observe(password, req), e.Rule() - 1) == (true, e) <==> Violates(password, req, e)
  {
    if e.ForbiddenPattern? {
      ForbiddenCheckIsViolation(password, req, Observe(password, req), e.pattern);
    } else if e.Rule() <= 6 {
      ClassCheckIsViolation(password, req, e);
    } else {
      PatternCheckIsViolation(password, req, e);
    }
  }

  /**
   * An error is reported exactly when the password breaks its rule. So a
   * disabled class requirement never reports, and the one forbidden-pattern
   * error names the first pattern in list order that occurs.
   */
  lemma ErrorsAreViolations(password: string, req: Requirements, e: PasswordError)
    ensures e in ValidatePassword(password, req).errors <==> Violates(password, req, e)
  {
    var o := Observe(password, req);
    var check := Checks(req, o);
    assert ValidatePassword(password, req).errors == Collect(check, 0);
    CollectExact(check, 0, e);
    RuleCheckIsViolation(password, req, e);
  }

  /** Toggling a class requirement or changing the forbidden list never changes the score. */
  lemma ScoreIgnoresRequirementFlags(password: string, req: Requirements, req': Requirements)
    requires req'.minLength == req.minLength && req'.maxLength == req.maxLength
    ensures ValidatePassword(password, req').score == ValidatePassword(password, req).score
  {
  }

  /** A higher score and a longer password never give a lower tier. */
  lemma StrengthMonotone(score: int, length: int, score': int, length': int)
    requires score <= score' && length <= length'
    ensures StrengthRank(CalculateStrength(score, length)) <= StrengthRank(CalculateStrength(score', length'))
  {
  }

  /** When no check reports an error, every check passes. */
  lemma NoErrorsMeansChecksPass(req: Requirements, o: Observations)
    requires Collect(Checks(req, o), 0) == []
    ensures o.longEnough && o.shortEnough
    ensures !ClassFails(req.requireUppercase, o.hasUpper) && !ClassFails(req.requireLowercase, o.hasLower)
    ensures !ClassFails(req.requireNumbers, o.hasDigit) && !ClassFails(req.requireSpecialChars, o.hasSpecial)
    ensures o.forbidden.None? && !o.repeated && !o.sequential
  {
    var check := Checks(req, o);
    forall k | 0 <= k < 9
      ensures !check(k).0
    {
      CollectExact(check, 0, check(k).1);
    }
    assert !check(0).0 && !check(1).0 && !check(2).0 && !check(3).0 && !check(4).0;
    assert !check(5).0 && !check(6).0 && !check(7).0 && !check(8).0;
  }

  /**
   * The password meets both length bounds, contains every required class,
   * contains no forbidden pattern, and has neither a repeated run nor a
   * sequential pattern.
   */
  predicate PassesAllChecks(password: string, req: Requirements) {
    && req.minLength <= |password| <= req.maxLength
    && (req.requireUppercase ==> Exists(password, IsUpper))
    && (req.requireLowercase ==> Exists(password, IsLower))
    && (req.requireNumbers ==> Exists(password, IsDigit))
    && (req.requireSpecialChars ==> Exists(password, IsSpecial))
    && (forall k :: 0 <= k < |req.forbiddenPatterns| ==> !PatternMatches(password, req.forbiddenPatterns, k))
    && !HasRepeatedRun(password)
    && !IsSequentialPattern(password)
  }

  /** A password with an empty error list passes every check. */
  lemma NoErrorsPassesChecks(password: string, req: Requirements)
    requires PasswordErrors(password, req) == []
    ensures PassesAllChecks(password, req)
  {
    NoErrorsMeansChecksPass(req, Observe(password, req));
  }

  /** A valid password passes every check. */
  lemma ValidPasswordPassesChecks(password: string, req: Requirements)
    requires ValidatePassword(password, req).isValid
    ensures PassesAllChecks(password, req)
  {
    NoErrorsPassesChecks(password, req);
  }

  /** A nonempty list has a member. */
  lemma FirstIsMember<T>(xs: seq<T>)
    ensures xs == [] || xs[0] in xs
  {
  }

  /** When every check passes, no check reports an error. */
  lemma ChecksPassMeansNoErrors(req: Requirements, o: Observations)
    requires o.longEnough && o.shortEnough
    requires !ClassFails(req.requireUppercase, o.hasUpper) && !ClassFails(req.requireLowercase, o.hasLower)
    requires !ClassFails(req.requireNumbers, o.hasDigit) && !ClassFails(req.requireSpecialChars, o.hasSpecial)
    requires o.forbidden.None? && !o.repeated && !o.sequential
    ensures Collect(Checks(req, o), 0) == []
  {
    var check := Checks(req, o);
    var errors := Collect(check, 0);
    forall e: PasswordError
      ensures e !in errors
    {
      CollectExact(check, 0, e);
    }
    FirstIsMember(errors);
  }

  /** A password that passes every check earns no error. */
  lemma PassingPasswordIsValid(password: string, req: Requirements)
    requires PassesAllChecks(password, req)
    ensures ValidatePassword(password, req).isValid
  {
    ChecksPassMeansNoErrors(req, Observe(password, req));
  }

  /** `validatePassword` accepts exactly the passwords that pass every check. */
  lemma ValidIffPassesAllChecks(password: string, req: Requirements)
    ensures ValidatePassword(password, req).isValid <==> PassesAllChecks(password, req)
  {
    if ValidatePassword(password, req).isValid {
      ValidPasswordPassesChecks(password, req);
    }
    if PassesAllChecks(password, req) {
      PassingPasswordIsValid(password, req);
    }
  }

  /**
   * Under the default policy a password that passes every check, that is a
   * valid one by `ValidIffPassesAllChecks`, scores 8, so its tier depends
   * on its length alone.
   */
  lemma ValidDefaultPasswordTier(password: string)
    requires PassesAllChecks(password, DefaultRequirements)
    ensures ValidatePassword(password, DefaultRequirements).score == 8
    ensures ValidatePassword(password, DefaultRequirements).strength ==
      if |password| >= 16 then Strong else if |password| >= 12 then Good else Fair
  {
  }

  /** The checks' observations of the empty password under the default policy. */
  lemma EmptyPasswordObservations()
    ensures Observe("", DefaultRequirements)
      == Observations(false, true, false, false, false, false, None, false, false)
  {
    var ps := DefaultRequirements.forbiddenPatterns;
    assert forall k :: 0 <= k < |ps| ==> !PatternMatches("", ps, k);
    assert !IsSequentialPattern("");
  }

  /**
   * The empty password scores 3, for the maximum length and the two
   * pattern checks, and is Weak.
   */
  lemma EmptyPasswordExample()
    ensures ValidatePassword("", DefaultRequirements).score == 3
    ensures ValidatePassword("", DefaultRequirements).strength == Weak
    ensures !ValidatePassword("", DefaultRequirements).isValid
  {
    EmptyPasswordObservations();
  }

  /** Three identical characters in a row are a repeat, unless they are line terminators. */
  lemma RepeatExamples()
    ensures HasRepeatedRun("xaaay")
    ensures !HasRepeatedRun("\n\n\n")
    ensures !HasRepeatedRun("aabbaa")
  {
    assert TripleAt("xaaay", 1);
  }

  /** The digit row lists the digits in code-point order. */
  lemma DigitRowAscends()
    ensures forall k :: 0 <= k < |SequenceRow(0)| ==> SequenceRow(0)[k] as int == '0' as int + k
  {
  }

  /** The alphabet row lists the lower-case letters in code-point order. */
  lemma LetterRowAscends()
    ensures forall k :: 0 <= k < |SequenceRow(1)| ==> SequenceRow(1)[k] as int == 'a' as int + k
  {
  }

  /** Three characters of `l` at `i` that equal window `j` of `row` make that window occur there. */
  lemma WindowAt(l: string, i: nat, row: string, j: nat)
    requires j + 3 <= |row| && i + 3 <= |l|
    requires row[j] == l[i] && row[j + 1] == l[i + 1] && row[j + 2] == l[i + 2]
    ensures Contains(l, row[j..j + 3])
  {
    assert row[j..j + 3] == l[i..i + 3];
    assert OccursAt(l, row[j..j + 3], i);
  }

  /**
   * Three consecutive ascending letters or digits anywhere in the password,
   * in either case, are a sequential pattern.
   */
  lemma AscendingRunIsSequential(password: string, i: nat)
    requires i + 2 < |password|
    requires var l := Lower(password);
      && (IsLower(l[i]) || IsDigit(l[i]))
      && (IsLower(l[i + 2]) || IsDigit(l[i + 2]))
      && l[i + 1] as int == l[i] as int + 1 && l[i + 2] as int == l[i] as int + 2
    ensures IsSequentialPattern(password)
  {
    var l := Lower(password);
    if IsDigit(l[i]) {
      DigitRowAscends();
      var j := l[i] as int - '0' as int;
      WindowAt(l, i, SequenceRow(0), j);
      assert WindowOccurs(l, 0, j);
    } else {
      LetterRowAscends();
      var j := l[i] as int - 'a' as int;
      WindowAt(l, i, SequenceRow(1), j);
      assert WindowOccurs(l, 1, j);
    }
  }

  // ---------------------------------------------------------------------
  // Suggestion generator
  // ---------------------------------------------------------------------

  const Uppercase := "ABCDEFGHIJKLMNOPQRSTUVWXYZ"
  const Lowercase := "abcdefghijklmnopqrstuvwxyz"
  const Numbers := "0123456789"
  const GeneratorSpecials := "!@#$%^&*()_+-=[]{}|;:,.<>?"
  const AllChars := Uppercase + Lowercase + Numbers + GeneratorSpecials

  /** Every special character the generator can emit is in the validator's special class. */
  lemma GeneratorSpecialsAreSpecial()
    ensures forall c :: c in GeneratorSpecials ==> IsSpecial(c)
  {
  }

  /**
   * The random draws `Math.floor(Math.random() * n)`: one index into each
   * class for the four seeded characters, then eight into `AllChars`.
   */
  predicate ValidDraws(draws: seq<nat>) {
    && |draws| == 12
    && draws[0] < |Uppercase| && draws[1] < |Lowercase|
    && draws[2] < |Numbers| && draws[3] < |GeneratorSpecials|
    && forall k :: 4 <= k < 12 ==> draws[k] < |AllChars|
  }

  /** The shuffle, as any sequence of transpositions of the 12 positions. */
  predicate ValidSwaps(swaps: seq<(nat, nat)>) {
    forall k :: 0 <= k < |swaps| ==> swaps[k].0 < 12 && swaps[k].1 < 12
  }

  /** The generator's class alphabets hold only characters of their class. */
  lemma AlphabetsMatchClasses()
    ensures forall c :: c in Uppercase ==> IsUpper(c)
    ensures forall c :: c in Lowercase ==> IsLower(c)
    ensures forall c :: c in Numbers ==> IsDigit(c)
  {
  }

  /** The character drawn for position `k`, before the shuffle. */
  function DrawnChar(draws: seq<nat>, k: nat): (c: char)
    requires ValidDraws(draws) && k < 12
    ensures c in AllChars
    ensures k == 0 ==> IsUpper(c)
    ensures k == 1 ==> IsLower(c)
    ensures k == 2 ==> IsDigit(c)
    ensures k == 3 ==> IsSpecial(c)
  {
    AlphabetsMatchClasses();
    GeneratorSpecialsAreSpecial();
    if k == 0 then
      assert Uppercase[draws[0]] in Uppercase;
      Uppercase[draws[0]]
    else if k == 1 then
      assert Lowercase[draws[1]] in Lowercase;
      Lowercase[draws[1]]
    else if k == 2 then
      assert Numbers[draws[2]] in Numbers;
      Numbers[draws[2]]
    else if k == 3 then
      assert GeneratorSpecials[draws[3]] in GeneratorSpecials;
      GeneratorSpecials[draws[3]]
    else AllChars[draws[k]]
  }

  /** The characters drawn, before the shuffle. */
  function Drawn(draws: seq<nat>): (r: string)
    requires ValidDraws(draws)
    ensures |r| == 12
    ensures IsUpper(r[0]) && IsLower(r[1]) && IsDigit(r[2]) && IsSpecial(r[3])
    ensures forall k :: 0 <= k < |r| ==> r[k] in AllChars
  {
    seq(12, k requires 0 <= k < 12 => DrawnChar(draws, k))
  }

  /** The seeding and filling steps: one character per class, then eight from `AllChars`. */
  method DrawCharacters(draws: seq<nat>) returns (password: string)
    requires ValidDraws(draws)
    ensures password == Drawn(draws)
  {
    var seeded := [Uppercase[draws[0]], Lowercase[draws[1]], Numbers[draws[2]], GeneratorSpecials[draws[3]]];
    password := seeded;
    var i := 4;
    while i < 12
      invariant 4 <= i <= 12 && |password| == i && password[..4] == seeded
      invariant forall k :: 4 <= k < i ==> password[k] == AllChars[draws[k]]
    {
      password := password + [AllChars[draws[i]]];
      i := i + 1;
    }
    forall k | 0 <= k < 12
      ensures password[k] == Drawn(draws)[k]
    {
      if k < 4 {
        assert password[k] == seeded[k];
      }
    }
  }

  /** Applies the transpositions in turn; the result is a permutation of the input. */
  method Shuffle(s: string, swaps: seq<(nat, nat)>) returns (r: string)
    requires forall k :: 0 <= k < |swaps| ==> swaps[k].0 < |s| && swaps[k].1 < |s|
    ensures |r| == |s|
    ensures multiset(r) == multiset(s)
  {
    r := s;
    var k := 0;
    while k < |swaps|
      invariant k <= |swaps|
      invariant |r| == |s|
      invariant multiset(r) == multiset(s)
    {
      var a, b := swaps[k].0, swaps[k].1;
      r := r[a := r[b]][b := r[a]];
      k := k + 1;
    }
  }

  /** `generatePasswordSuggestion`, with its randomness supplied by the caller. */
  method GeneratePasswordSuggestion(draws: seq<nat>, swaps: seq<(nat, nat)>) returns (password: string)
    requires ValidDraws(draws) && ValidSwaps(swaps)
    ensures |password| == 12
    ensures multiset(password) == multiset(Drawn(draws))
    ensures forall k :: 0 <= k < |password| ==> password[k] in AllChars
    ensures Exists(password, IsUpper) && Exists(password, IsLower)
    ensures Exists(password, IsDigit) && Exists(password, IsSpecial)
  {
    var drawn := DrawCharacters(draws);
    password := Shuffle(drawn, swaps);
    assert drawn[0] in multiset(password) && drawn[1] in multiset(password);
    assert drawn[2] in multiset(password) && drawn[3] in multiset(password);
    forall k | 0 <= k < |password|
      ensures password[k] in AllChars
    {
      assert password[k] in multiset(drawn);
    }
  }

  /**
   * Whatever the draws and the shuffle, a suggestion passes the default
   * policy's length and character-class rules and scores at least 6.
   */
  lemma SuggestionMeetsDefaultClassRules(password: string)
    requires |password| == 12
    requires Exists(password, IsUpper) && Exists(password, IsLower)
    requires Exists(password, IsDigit) && Exists(password, IsSpecial)
    ensures var r := ValidatePassword(password, DefaultRequirements);
      && r.score >= 6
      && forall e :: e in r.errors ==> e.ForbiddenPattern? || e == RepeatedCharacters || e == SequentialPattern
  {
    var r := ValidatePassword(password, DefaultRequirements);
    forall e | e in r.errors
      ensures e.ForbiddenPattern? || e == RepeatedCharacters || e == SequentialPattern
    {
      ErrorsAreViolations(password, DefaultRequirements, e);
    }
  }

  // ---------------------------------------------------------------------
  // Lookup helpers
  // ---------------------------------------------------------------------

  const CommonPasswords: seq<string> := [
    "password", "123456", "123456789", "qwerty", "abc123",
    "password123", "admin", "letmein", "welcome", "monkey",
    "1234567890", "password1", "qwerty123", "dragon", "master",
    "hello", "freedom", "whatever", "qazwsx", "trustno1"]

  function Abs(x: int): nat { if x < 0 then -x else x }

  /** The three tests `isCommonPassword` applies to one list entry. */
  predicate Resembles(lower: string, common: string) {
    || Contains(lower, common)
    || Contains(common, lower)
    || Abs(|lower| - |common|) <= 2
  }

  /** `commonPasswords.some(...)` over the entries from `k` on. */
  function SomeResembles(lower: string, k: nat): (r: bool)
    requires k <= |CommonPasswords|
    ensures r <==> exists j :: k <= j < |CommonPasswords| && Resembles(lower, CommonPasswords[j])
    decreases |CommonPasswords| - k
  {
    if k == |CommonPasswords| then false
    else Resembles(lower, CommonPasswords[k]) || SomeResembles(lower, k + 1)
  }

  /** `isCommonPassword`: some entry resembles the lower-cased password. */
  function IsCommonPassword(password: string): (r: bool)
    ensures r <==> exists k :: 0 <= k < |CommonPasswords| && Resembles(Lower(password), CommonPasswords[k])
  {
    SomeResembles(Lower(password), 0)
  }

  /**
   * The length test alone makes every password of 3 to 13 characters
   * "common", and the empty password is common because every entry contains it.
   */
  lemma CommonPasswordAsWritten(password: string)
    ensures 3 <= |password| <= 13 ==> IsCommonPassword(password)
    ensures password == [] ==> IsCommonPassword(password)
  {
    var l := Lower(password);
    if 3 <= |password| <= 7 {
      assert Resembles(l, CommonPasswords[6]);
    } else if 8 <= |password| <= 10 {
      assert Resembles(l, CommonPasswords[0]);
    } else if 11 <= |password| <= 13 {
      assert Resembles(l, CommonPasswords[5]);
    } else if password == [] {
      assert OccursAt(CommonPasswords[0], l, 0);
      assert Resembles(l, CommonPasswords[0]);
    }
  }

  /** A random-looking 12-character password is reported as common. */
  lemma CommonPasswordFlagsRandomString()
    ensures IsCommonPassword("Xk9#vQ2!mZ7@")
  {
    CommonPasswordAsWritten("Xk9#vQ2!mZ7@");
  }

  /**
   * The heuristic as evidently intended: the password contains an entry, or
   * is an entry with at most two characters missing.
   */
  predicate ResemblesIntended(lower: string, common: string) {
    || Contains(lower, common)
    || (Contains(common, lower) && |common| - |lower| <= 2)
  }

  predicate IsCommonPasswordIntended(password: string) {
    exists k | 0 <= k < |CommonPasswords| :: ResemblesIntended(Lower(password), CommonPasswords[k])
  }

  /**
   * The intended check only flags passwords that the written one flags, and
   * a password longer than every entry is flagged only if it contains one.
   */
  lemma IntendedCommonCheck(password: string)
    ensures IsCommonPasswordIntended(password) ==> IsCommonPassword(password)
    ensures |password| > 11 && IsCommonPasswordIntended(password) ==>
      exists k :: 0 <= k < |CommonPasswords| && Contains(Lower(password), CommonPasswords[k])
    ensures password == [] ==> !IsCommonPasswordIntended(password)
  {
    var l := Lower(password);
    if IsCommonPasswordIntended(password) {
      var k :| 0 <= k < |CommonPasswords| && ResemblesIntended(l, CommonPasswords[k]);
      assert Resembles(l, CommonPasswords[k]);
    }
  }

  /** The progress-bar percentage of a strength: a quarter per tier. */
  function StrengthPercentage(s: Strength): (r: int)
    ensures r == 25 * (StrengthRank(s) + 1)
  {
    match s
    case Weak => 25
    case Fair => 50
    case Good => 75
    case Strong => 100
  }

  /** The text colour class of a strength. */
  function StrengthColor(s: Strength): (r: string)
    ensures StrengthRank(s) == 0 <==> r == "text-red-500"
    ensures StrengthRank(s) == 1 <==> r == "text-orange-500"
    ensures StrengthRank(s) == 2 <==> r == "text-yellow-500"
    ensures StrengthRank(s) == 3 <==> r == "text-green-500"
  {
    match s
    case Weak => "text-red-500"
    case Fair => "text-orange-500"
    case Good => "text-yellow-500"
    case Strong => "text-green-500"
  }

  /** Distinct strengths have distinct colours. */
  lemma StrengthColorInjective(a: Strength, b: Strength)
    ensures StrengthColor(a) == StrengthColor(b) ==> a == b
  {
  }
}
