/**
 * The pure helpers of lib/profileService.ts: the profile-form validators
 * and the plan display helpers. The asynchronous API methods are not
 * modelled.
 */
module Profiles {
  import opened Optional
  import opened Text
  import opened PlanOrder
  import opened Records

  /** The `{ isValid, error? }` record a field validator returns. */
  datatype Check = Valid | Invalid(error: string)

  // ---------------------------------------------------------------------
  // Email
  // ---------------------------------------------------------------------

  /** The regex class `[^\s@]`. */
  predicate EmailChar(c: char) { !IsSpace(c) && c != '@' }

  /**
   * `/^[^\s@]+@[^\s@]+\.[^\s@]+$/` matches with the `@` at `at` and the
   * chosen `.` at `dot`: three nonempty runs of `[^\s@]` around them.
   */
  ghost predicate EmailSplit(s: string, at: int, dot: int) {
    && 0 < at && at + 1 < dot && dot + 1 < |s|
    && s[at] == '@' && s[dot] == '.'
    && forall k :: 0 <= k < |s| && k != at ==> EmailChar(s[k])
  }

  /** The regex accepts `s`, read off its definition. */
  ghost predicate MatchesEmailRegex(s: string) {
    exists at, dot :: EmailSplit(s, at, dot)
  }

  /** Position of the first `@`, if any. */
  function FirstAt(s: string, i: nat): (r: Option<nat>)
    requires i <= |s|
    ensures r.Some? ==> i <= r.value < |s| && s[r.value] == '@'
    ensures r.Some? ==> forall k :: i <= k < r.value ==> s[k] != '@'
    ensures r.None? ==> forall k :: i <= k < |s| ==> s[k] != '@'
    decreases |s| - i
  {
    if i == |s| then None else if s[i] == '@' then Some(i) else FirstAt(s, i + 1)
  }

  /**
   * The shape the regex asks for, checked directly: no whitespace, exactly
   * one `@` with something before it, and a `.` strictly inside the domain.
   */
  predicate EmailShaped(s: string) {
    var at := FirstAt(s, 0);
    && at.Some?
    && 0 < at.value
    && (forall k | 0 <= k < |s| :: k == at.value || EmailChar(s[k]))
    && (exists d | at.value + 1 < d < |s| - 1 :: s[d] == '.')
  }

  /** The direct check accepts exactly what the regex accepts. */
  lemma EmailShapedMatchesRegex(s: string)
    ensures EmailShaped(s) <==> MatchesEmailRegex(s)
  {
    if EmailShaped(s) {
      var at := FirstAt(s, 0).value;
      var d :| at + 1 < d < |s| - 1 && s[d] == '.';
      assert EmailSplit(s, at, d);
    }
    if MatchesEmailRegex(s) {
      var at, d :| EmailSplit(s, at, d);
      var first := FirstAt(s, 0);
      assert s[at] == '@';
      assert first.Some? && first.value <= at;
      assert !EmailChar(s[first.value]);
    }
  }

  /** `validateEmail`. */
  function ValidateEmail(email: string): (r: Check)
    ensures All(email, IsSpace) ==> r == Invalid("Email is required")
    ensures !All(email, IsSpace) ==>
      (r == Valid <==> MatchesEmailRegex(email))
      && (r.Invalid? ==> r.error == "Please enter a valid email address")
  {
    EmailShapedMatchesRegex(email);
    if Trim(email) == [] then Invalid("Email is required")
    else if !EmailShaped(email) then Invalid("Please enter a valid email address")
    else Valid
  }

  // ---------------------------------------------------------------------
  // Names
  // ---------------------------------------------------------------------

  /** The regex class `[a-zA-Z\s\-']`. */
  predicate NameChar(c: char) { IsLetter(c) || IsSpace(c) || c == '-' || c == '\'' }

  /** `validateName`: the checks apply to the trimmed name, and the first failure is reported. */
  function ValidateName(name: string, fieldName: string): (r: Check)
    ensures var t := Trim(name);
      && (t == [] ==> r == Invalid(fieldName + " is required"))
      && (t != [] && |t| < 2 ==> r == Invalid(fieldName + " must be at least 2 characters long"))
      && (2 <= |t| && |t| > 50 ==> r == Invalid(fieldName + " must be no more than 50 characters long"))
      && (2 <= |t| <= 50 && !All(t, NameChar) ==>
            r == Invalid(fieldName + " can only contain letters, spaces, hyphens, and apostrophes"))
      && (r == Valid <==> 2 <= |t| <= 50 && All(t, NameChar))
  {
    var t := Trim(name);
    if t == [] then Invalid(fieldName + " is required")
    else if |t| < 2 then Invalid(fieldName + " must be at least 2 characters long")
    else if |t| > 50 then Invalid(fieldName + " must be no more than 50 characters long")
    else if !All(t, NameChar) then
      Invalid(fieldName + " can only contain letters, spaces, hyphens, and apostrophes")
    else Valid
  }

  /** Surrounding whitespace never changes a name's verdict. */
  lemma ValidateNameIgnoresSurroundingSpace(name: string, fieldName: string)
    ensures ValidateName(Trim(name), fieldName) == ValidateName(name, fieldName)
  {
    TrimIdempotent(name);
  }

  // ---------------------------------------------------------------------
  // Whole form
  // ---------------------------------------------------------------------

  datatype ProfileForm = ProfileForm(firstName: string, lastName: string, email: string)

  datatype FormValidation = FormValidation(isValid: bool, errors: seq<string>)

  function ErrorsOf(c: Check): (r: seq<string>)
    ensures c.Valid? <==> r == []
    ensures c.Invalid? ==> r == [c.error]
  {
    if c.Invalid? then [c.error] else []
  }

  /**
   * The form verdict from the three field verdicts: the errors of the first
   * name, of the last name when one is given, and of the email, in that order.
   */
  function CombineChecks(first: Check, last: Check, lastGiven: bool, email: Check): (r: FormValidation)
    ensures r.isValid <==> r.errors == []
    ensures |r.errors| <= 3
    ensures r.isValid <==> first.Valid? && (!lastGiven || last.Valid?) && email.Valid?
    ensures first.Invalid? ==> r.errors[0] == first.error
    ensures email.Invalid? ==> r.errors[|r.errors| - 1] == email.error
    ensures !lastGiven ==> |r.errors| == |ErrorsOf(first)| + |ErrorsOf(email)|
    ensures r.errors == ErrorsOf(first) + (if lastGiven then ErrorsOf(last) else []) + ErrorsOf(email)
  {
    var errors := ErrorsOf(first) + (if lastGiven then ErrorsOf(last) else []) + ErrorsOf(email);
    FormValidation(|errors| == 0, errors)
  }

  /** `validateProfileData`: first name, then last name when not blank, then email. */
  function ValidateProfileData(data: ProfileForm): (r: FormValidation)
    ensures r.isValid <==> r.errors == []
    ensures |r.errors| <= 3
    ensures var first := ValidateName(data.firstName, "First name");
      var last := ValidateName(data.lastName, "Last name");
      var email := ValidateEmail(data.email);
      && (r.isValid <==> first.Valid? && (All(data.lastName, IsSpace) || last.Valid?) && email.Valid?)
      && (first.Invalid? ==> r.errors[0] == first.error)
      && (email.Invalid? ==> r.errors[|r.errors| - 1] == email.error)
      && (All(data.lastName, IsSpace) ==> |r.errors| == |ErrorsOf(first)| + |ErrorsOf(email)|)
      && r.errors == ErrorsOf(first) + (if !All(data.lastName, IsSpace) then ErrorsOf(last) else []) + ErrorsOf(email)
  {
    CombineChecks(
      ValidateName(data.firstName, "First name"),
      ValidateName(data.lastName, "Last name"),
      Trim(data.lastName) != [],
      ValidateEmail(data.email))
  }

  /** A blank last name is optional: the verdict is the one for an empty last name. */
  lemma BlankLastNameIsOptional(data: ProfileForm)
    requires All(data.lastName, IsSpace)
    ensures ValidateProfileData(data) == ValidateProfileData(data.(lastName := ""))
  {
  }

  // ---------------------------------------------------------------------
  // Plans
  // ---------------------------------------------------------------------

  const DisplayNames: map<string, string> := map["Free" := "Free Plan", "Basic" := "Basic Plan", "Pro" := "Pro Plan"]

  /** `getPlanDisplayName`: the display name of a known plan; any other name unchanged. */
  function PlanDisplayName(plan: string): (r: string)
    ensures IsKnownPlan(plan) ==> r == plan + " Plan"
    ensures !IsKnownPlan(plan) ==> r == plan
  {
    if plan in DisplayNames then DisplayNames[plan] else plan
  }

  /**
   * Two names share a display name only when one is a known plan and the
   * other is already that plan's display name, as "Free" and "Free Plan".
   */
  lemma PlanDisplayNameCollisions(a: string, b: string)
    ensures PlanDisplayName(a) == PlanDisplayName(b) && a != b <==>
      (IsKnownPlan(a) && b == a + " Plan") || (IsKnownPlan(b) && a == b + " Plan")
  {
  }

  /** A number or a label, as in `monthlyPdfs: number | string`. */
  datatype NumberOrText = Number(n: int) | Text(s: string)

  datatype DisplayLimits = DisplayLimits(dailyPdfs: int, monthlyPdfs: NumberOrText, maxFileSize: string)

  const LimitTable: map<string, DisplayLimits> := map[
    "Free" := DisplayLimits(2, Number(10), "10 MB"),
    "Basic" := DisplayLimits(30, Number(200), "40 MB"),
    "Pro" := DisplayLimits(200, Text("Unlimited"), "1 GB")]

  /** `getPlanLimits`: the limits of a known plan, the Free limits for any other name. */
  function PlanLimits(plan: string): (r: DisplayLimits)
    ensures IsKnownPlan(plan) ==> r == LimitTable[plan]
    ensures !IsKnownPlan(plan) ==> r == LimitTable["Free"]
    ensures r.monthlyPdfs.Text? <==> plan == "Pro"
  {
    if plan in LimitTable then LimitTable[plan] else LimitTable["Free"]
  }

  /** `canUpgrade`: every plan but the last on the path, including unknown ones (index -1). */
  function CanUpgrade(currentPlan: string): (r: bool)
    ensures r <==> currentPlan != "Pro"
    ensures r <==> NextPlan(currentPlan).Some?
  {
    PlanIndex(currentPlan) < |UpgradeOrder| - 1
  }
}
