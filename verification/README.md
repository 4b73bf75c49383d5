# Password policy and plan helpers, modelled in Dafny

This project models the deterministic core of a document-chat web
application's client library.

- **Password policy engine** (`lib/passwordUtils.ts`):
  - `validatePassword` runs nine ordered rule checks, producing an ordered error list and a 0..8 score;
  - the repeated-character and sequential-pattern detectors;
  - the four-tier strength classifier;
  - the suggestion generator;
  - the common-password heuristic;
  - the strength-to-colour and strength-to-percentage mappings.
- **Pure helpers of the service modules:**
  - the profile-form validators and plan display helpers (`lib/profileService.ts`);
  - the plan catalogue, price and limit rendering, and the upgrade order (`lib/paymentService.ts`);
  - the analytics plan-limit table, usage colouring and growth (`lib/analyticsService.ts`);
  - the error handler's message, status, toast and retry decisions (`lib/errorHandler.ts`).

Modules, one per file:

| file | module | models |
|---|---|---|
| `text.dfy` | `Optional`, `Text` | JavaScript character classes, `toLowerCase`, `trim`, `includes` |
| `decimal.dfy` | `Decimal` | integer-to-decimal rendering, with a parser as its inverse |
| `passwords.dfy` | `Passwords` | the password policy engine |
| `plans.dfy` | `PlanOrder` | the upgrade path shared by two services |
| `plans.dfy` | `Records` | JavaScript object-literal lookup |
| `profiles.dfy` | `Profiles` | `lib/profileService.ts` |
| `payments.dfy` | `Payments` | `lib/paymentService.ts` |
| `analytics.dfy` | `Analytics` | `lib/analyticsService.ts` |
| `errors.dfy` | `Errors` | `lib/errorHandler.ts` |
| `plan_tables.dfy` | `PlanTables` | how the three copies of the plan limits agree |

**Password validation.** `ValidatePassword` is built in four steps:

- `Observe` records what each check sees.
- `RuleCheck` turns observation `k` into a verdict and an error.
- `Collect` pushes the errors of the failing checks in order.
- `Score` counts the points.

Two independent definitions state what the result means:

- `Violates` says rule by rule which errors a password deserves.
- `PassesAllChecks` says when a password is acceptable.

The lemmas prove that the error list and the validity flag agree with these definitions for every password and every policy.

**The suggestion generator.** Randomness is a parameter. The draws `Math.floor(Math.random() * n)` become a sequence of 12 indices, and the random-comparator sort becomes an arbitrary sequence of transpositions. No claim is made about the distribution.

## Model

| member | source | states |
|---|---|---|
| Passwords.FirstForbidden | lib/passwordUtils.ts:100-107 | The forbidden-pattern loop stops at a pattern that occurs in the password ignoring case, and every earlier pattern does not occur. It finds nothing exactly when no pattern occurs. |
| Passwords.HasRepeatedRun | lib/passwordUtils.ts:110-114 | The repeat test holds exactly when some position starts three equal characters that are not line terminators. |
| Passwords.IsSequentialPattern | lib/passwordUtils.ts:153-174 | The result holds exactly when the lower-cased password contains a width-3 forward window of the digit row, the alphabet or one of the three keyboard rows. |
| Passwords.SpecialRangesMatchClass | lib/passwordUtils.ts:94-98 | The special-character class, read as four code-point ranges, holds exactly the thirty characters it lists. |
| Passwords.ClassScore | lib/passwordUtils.ts:73-98 | A character-class check scores one point exactly when the class is present, whether or not it is required. |
| Passwords.Collect | lib/passwordUtils.ts:59-121 | Running the checks in order produces an error list in strict rule order, so no rule contributes twice. |
| Passwords.CollectExact | lib/passwordUtils.ts:59-121 | An error is in the collected list exactly when the check of its rule fails with that error. |
| Passwords.CalculateStrength | lib/passwordUtils.ts:138-148 | Strong iff score >= 7 and length >= 16; otherwise Good iff score >= 5 and length >= 12; otherwise Fair iff score >= 3 and length >= 8; otherwise Weak. |
| Passwords.PasswordScore | lib/passwordUtils.ts:56-121 | The score is at most 8, with one point per length bound met, per character class present and per pattern check passed. The forbidden-pattern check never scores. |
| Passwords.ValidatePassword | lib/passwordUtils.ts:51-133 | The result is valid iff its error list is empty. The errors are in rule order, the score is in 0..8 and counts the points above, and the strength is the tier of that score and the password's length. |
| Passwords.ErrorsAreViolations | lib/passwordUtils.ts:59-121 | An error is reported exactly when the password breaks its rule. So a disabled class requirement never reports, and the single forbidden-pattern error names the first pattern in list order that occurs. |
| Passwords.FirstForbiddenIsFirstMatch | lib/passwordUtils.ts:100-107 | The loop's stopping index is exactly the first pattern, in list order, that the password contains ignoring case. |
| Passwords.ValidIffPassesAllChecks | lib/passwordUtils.ts:59-125 | A password is valid exactly when it meets both length bounds, contains every required class, contains no forbidden pattern, and has neither a repeated run nor a sequential pattern. |
| Passwords.ValidPasswordPassesChecks | lib/passwordUtils.ts:59-125 | The forward direction: a valid password passes every check. |
| Passwords.PassingPasswordIsValid | lib/passwordUtils.ts:59-125 | The reverse direction: a password passing every check is valid. |
| Passwords.ScoreIgnoresRequirementFlags | lib/passwordUtils.ts:73-107 | Toggling class requirements or changing the forbidden list never changes the score. |
| Passwords.StrengthMonotone | lib/passwordUtils.ts:138-148 | A higher score and a greater length never give a lower tier. |
| Passwords.ValidDefaultPasswordTier | lib/passwordUtils.ts:30-46 | Under the default policy a password passing every check, which is a valid one, scores 8. Its tier is then Fair, Good or Strong by length alone (8, 12, 16). |
| Passwords.EmptyPasswordExample | lib/passwordUtils.ts:51-133 | Under the default policy the empty password scores 3 (maximum length plus both pattern checks), is Weak, and is invalid. |
| Passwords.RepeatExamples | lib/passwordUtils.ts:110 | "xaaay" has a repeated run; three newlines and "aabbaa" do not. |
| Passwords.AscendingRunIsSequential | lib/passwordUtils.ts:153-174 | Any three consecutive ascending letters (either case) or digits anywhere in the password are a sequential pattern. |
| Passwords.Drawn | lib/passwordUtils.ts:179-198 | Before the shuffle, the 12 drawn characters start with an uppercase letter, a lowercase letter, a digit and a special character, and all come from the full alphabet. |
| Passwords.DrawCharacters | lib/passwordUtils.ts:179-198 | The seeding and filling loop produces exactly the drawn characters. |
| Passwords.Shuffle | lib/passwordUtils.ts:200 | The shuffle keeps the length and is a permutation of its input. |
| Passwords.GeneratePasswordSuggestion | lib/passwordUtils.ts:179-201 | A suggestion has 12 characters and is a permutation of the drawn characters. All come from the generator's alphabet, and it contains an uppercase letter, a lowercase letter, a digit and a character of the validator's special class. |
| Passwords.GeneratorSpecialsAreSpecial | lib/passwordUtils.ts:183 | Every special character the generator can emit is accepted by the validator's special class. |
| Passwords.SuggestionMeetsDefaultClassRules | lib/passwordUtils.ts:179-201 | Under the default policy a suggestion gets no length or class error and scores at least 6; only pattern errors remain possible. |
| Passwords.CommonPasswordAsWritten | lib/passwordUtils.ts:231-235 | As written, every password of 3 to 13 characters, and the empty password, counts as common. |
| Passwords.CommonPasswordFlagsRandomString | lib/passwordUtils.ts:206-236 | As written, the random-looking "Xk9#vQ2!mZ7@" counts as common. |
| Passwords.IntendedCommonCheck | lib/passwordUtils.ts:231-235 | The corrected check flags only passwords the written one flags. A password longer than every entry is flagged only if it contains one. The empty password is not flagged. |
| Passwords.IsCommonPassword | lib/passwordUtils.ts:206-236 | As written, a password is common exactly when its lower-cased form resembles some entry of the twenty-entry list: it contains the entry, is contained in it, or is within two characters of its length. |
| Passwords.MessageRoundTrip | lib/passwordUtils.ts:60-118 | Every rule's error message, the length bound or forbidden pattern included, can be read back to the error that produced it. |
| Passwords.MessageInjective | lib/passwordUtils.ts:60-118 | Distinct errors never share a message. |
| Passwords.StrengthPercentage | lib/passwordUtils.ts:259-272 | The percentage is a quarter per tier: 25, 50, 75 or 100 in tier order. |
| Passwords.StrengthColorInjective | lib/passwordUtils.ts:241-254 | Distinct strengths get distinct colour classes. |
| Passwords.StrengthColor | lib/passwordUtils.ts:241-254 | Each tier has its own colour class by rank: red for Weak, orange for Fair, yellow for Good and green for Strong. |
| Profiles.EmailShapedMatchesRegex | lib/profileService.ts:98 | The direct email check accepts exactly what the email regex accepts: three nonempty runs without whitespace or '@', around one '@' and a '.'. |
| Profiles.ValidateEmail | lib/profileService.ts:92-104 | A blank input is "Email is required". Otherwise the email is valid iff the untrimmed string matches the regex, and the error otherwise is the invalid-address message. |
| Profiles.ValidateName | lib/profileService.ts:109-129 | On the trimmed name, the first failing check among nonempty, length >= 2, length <= 50 and allowed characters gives the error. The name is valid iff all of them pass. |
| Profiles.ValidateNameIgnoresSurroundingSpace | lib/profileService.ts:109-129 | Surrounding whitespace never changes a name's verdict. |
| Profiles.ValidateProfileData | lib/profileService.ts:134-161 | The error list is exactly the first-name error, then the last-name error only when the last name is not blank, then the email error, each present only when that field fails. The form is valid iff the list is empty. |
| Profiles.BlankLastNameIsOptional | lib/profileService.ts:144-149 | A whitespace-only last name gives the same verdict as an empty one. |
| Profiles.PlanDisplayName | lib/profileService.ts:166-174 | A known plan is displayed as "<plan> Plan"; any other name is returned unchanged. |
| Profiles.PlanDisplayNameCollisions | lib/profileService.ts:166-174 | Two different names get the same display name exactly when one is a known plan and the other is that plan's display name, such as "Free" and "Free Plan". |
| Profiles.PlanLimits | lib/profileService.ts:179-203 | A known plan gets its own limits and an unknown name the Free limits. Only Pro shows a text monthly limit. |
| Profiles.CanUpgrade | lib/profileService.ts:208-212 | Upgrading is possible for every name but "Pro", unknown names included, exactly when a next plan exists. |
| PlanOrder.IndexOf | lib/profileService.ts:209 | `indexOf` returns the first position of the name, or -1 exactly when it is absent. |
| PlanOrder.NextPlan | lib/profileService.ts:217-226 | Free goes to Basic, Basic to Pro, Pro to nothing, and an unknown name to Free. A next plan is always one step further along the path. |
| Payments.AvailablePlans | lib/paymentService.ts:99-126 | The catalogue lists Free, Basic and Pro in upgrade order, at strictly rising prices, all monthly. |
| Payments.LimitTextInjective | lib/paymentService.ts:146-147 | Distinct limits, "Unlimited" included, are displayed differently. |
| Payments.FormatPrice | lib/paymentService.ts:131-134 | Zero is "Free". Any other whole-rupee price is the rupee sign followed by a canonical numeral, with no leading zero, that parses back to the price in rupees. |
| Payments.FormatPriceInjective | lib/paymentService.ts:131-134 | Distinct whole-rupee prices are displayed differently. |
| Payments.LimitText | lib/paymentService.ts:146-147 | A limit is shown as "Unlimited" exactly when it is -1. Any other limit is shown as a canonical numeral that parses back to the limit. |
| Payments.DisplayedDigitsAreToString | lib/paymentService.ts:133-147 | The digits of a price and of a limit are exactly the numeral `toString` writes for the value, so the contracts fix the displayed text. |
| Payments.PlanLimits | lib/paymentService.ts:139-151 | Each limit is shown by that rendering and the file size with " MB". Storage is "1 TB" for Pro, "40 GB" for Basic and "10 GB" otherwise. |
| Payments.OnlyProIsUnlimited | lib/paymentService.ts:99-151 | In the catalogue, only Pro shows an unlimited monthly allowance, and no daily limit is unlimited. |
| Payments.CanUpgrade | lib/paymentService.ts:156-161 | An unknown target is never an upgrade, an unknown current plan may move to any known target, and a plan never upgrades to itself. |
| Payments.CanUpgradeTransitive | lib/paymentService.ts:156-161 | The upgrade relation is transitive and asymmetric. |
| Payments.CanUpgradeFollowsCatalogue | lib/paymentService.ts:99-161 | For catalogue positions i and j, plan i can upgrade to plan j exactly when i < j. |
| Payments.NextPlanIsUpgrade | lib/paymentService.ts:156-175 | Every next plan is an upgrade, and there is none only for Pro. |
| Analytics.DefaultLimitsAreFree | lib/analyticsService.ts:277-282 | The default record's limits are exactly the Free plan's limits from the lookup. |
| Analytics.LimitTableOrdered | lib/analyticsService.ts:436-455 | Only Pro has an unlimited monthly limit. Daily limit, file size and storage rise strictly from Free to Basic to Pro. |
| Analytics.PlanLimitsAsWritten | lib/analyticsService.ts:435-458 | As written, the lookup gives a table entry for a listed plan, and the Free limits for other names, except the names every object inherits, which yield an inherited member. |
| Analytics.PrototypeKeyEscapesFallback | lib/analyticsService.ts:457 | As written, "toString" and "constructor" yield an inherited member instead of a limits record. |
| Analytics.PlanLimits | lib/analyticsService.ts:435-458 | Corrected lookup: a listed plan gets its own limits, any other name the Free limits, and only Pro is unlimited monthly. |
| Analytics.AsWrittenAgreesOffPrototype | lib/analyticsService.ts:435-458 | The lookup as written agrees with the corrected one exactly on the names that are not inherited members. |
| Analytics.UsageStatusColor | lib/analyticsService.ts:417-422 | Red iff usage >= 90, orange iff in [75, 90), yellow iff in [50, 75), and green iff below 50. |
| Analytics.UsageSeverityMonotone | lib/analyticsService.ts:417-422 | Higher usage never shows a less severe colour. |
| Analytics.Growth | lib/analyticsService.ts:427-430 | With a zero baseline the growth is 100 iff there is current usage, else 0. Otherwise its sign follows the change relative to the baseline. |
| Analytics.GrowthRecoversCurrent | lib/analyticsService.ts:427-430 | With a nonzero baseline, applying the growth percentage to the previous value gives back the current one. |
| PlanTables.AnalyticsMatchesCatalogue | lib/analyticsService.ts:436-455 | The analytics table lists exactly the catalogue's plans with the same daily, monthly and file-size limits. |
| PlanTables.StorageTextMatchesStorageLimit | lib/paymentService.ts:149 | The storage text of the payment screen is the analytics storage limit in binary units. |
| PlanTables.ProfileDisplayMatchesCatalogue | lib/profileService.ts:184-202 | The profile table shows the catalogue's daily and monthly limits, with "Unlimited" exactly for -1. |
| PlanTables.ProfileFileSizeMatchesCatalogue | lib/profileService.ts:184-202 | The profile table's file-size text is the payment screen's, except Pro, whose 1024 MB shows as "1 GB". |
| PlanTables.FallbacksAreFree | lib/analyticsService.ts:457 | The analytics lookup as written gives an unknown plan the Free limits unless the name is an inherited member. The corrected analytics lookup and the profile lookup give every unknown plan the Free limits, and these equal the analytics default record. |
| Errors.ExtractErrorMessage | lib/errorHandler.ts:21-32 | The message is never empty. With a response body it is its `message`, else its `error`, else "An error occurred". Without one it is the client message, else "An unexpected error occurred". |
| Errors.ExtractStatusCode | lib/errorHandler.ts:37-39 | The status is the response's when it is present and nonzero, otherwise 500. |
| Errors.IsTimeoutError | lib/errorHandler.ts:195-197 | An error is a timeout iff its code is ECONNABORTED or its message contains "timeout". |
| Errors.ErrorToast | lib/errorHandler.ts:44-134 | Each recognised status gets its fixed title, with either a fixed description or the extracted message. Any other status gets "Network Error" with the connection advice iff the error looks like a network failure, and otherwise "Error" with the extracted message. |
| Errors.NoResponseIsServerError | lib/errorHandler.ts:37-39 | An error without a response is reported under the "Server Error" title. |
| Errors.CreateApiError | lib/errorHandler.ts:175-183 | The message is the one `extractErrorMessage` picks and the status the one `extractStatusCode` picks, so both are nonempty or nonzero. The `error` field is the body's and is absent without a body. |
| Errors.RetryDelay | lib/errorHandler.ts:209-211 | The delay is between 1 and 30 seconds, one second at first, and never more than 1000 * 2^n. Below the cap it is exactly 1000 * 2^n. |
| Errors.RetryDelayMonotone | lib/errorHandler.ts:209-211 | A later retry never waits less. |
| Errors.RetryDelayCapped | lib/errorHandler.ts:209-211 | From the fifth retry on the delay is exactly the 30-second cap. |
| Errors.RetryCondition | lib/errorHandler.ts:212-215 | A request is retried iff no response came back to a sent request, or the response status is at least 500. |
| Errors.RetriedResponsesAreServerSide | lib/errorHandler.ts:212-215 | A retried error with a response is one whose extracted status is at least 500. |
| Decimal.IntToStringRoundTrip | lib/paymentService.ts:133 | Rendering an integer in decimal and parsing it back gives the integer. |
| Decimal.CanonicalIsIntToString | lib/paymentService.ts:133 | Every canonical numeral (no leading zero, no "-0") is the rendering of its own value, so two canonical numerals with the same value are equal. |

## Left out

- HTTP, I/O and UI: the asynchronous service methods, the axios client, the toasts being shown, and `handleApiSuccess`, `handleApiWarning` and `handleApiInfo`. `Errors.ErrorToast` returns the toast's title and description instead of showing it.
- `getRetryConfig`'s `retries` count: it only passes through its argument.
- The `details` field of `createApiError`: it is untyped response data.
- `isNetworkError` is a predicate with no contract of its own; `Errors.RetryCondition` states it.
- `Math.random` and the random-comparator sort: they are parameters (draws and transpositions). No claim is made about the distribution or about which permutations the sort can reach.
- Floating point, for the following:
  - `formatFileSize` and `formatPercentage`;
  - the progress-bar percentage rounding.
- Analytics.Growth: computed in exact real arithmetic, so the division branch ignores floating-point rounding.
- Payments.FormatPrice: only prices that are whole rupees (multiples of 100 paise). Fractional prices go through floating-point division and number formatting.
- The default analytics record outside its `limits` block: it holds dates and usage placeholders.
- `Text.Lower` lower-cases only the ASCII letters. JavaScript's `toLowerCase` also maps non-ASCII characters, and a few of them map to ASCII: the Kelvin sign U+212A becomes "k", and U+0130 becomes "i" followed by a combining dot. Such characters change the sequential-pattern and forbidden-pattern verdicts, and with them the score: `isSequentialPattern("\u212Alm")` holds in the source but `Passwords.IsSequentialPattern` is false there. A non-ASCII forbidden pattern would also be matched case-sensitively.
- A character stands for one UTF-16 code unit of a basic-multilingual-plane string. Surrogate pairs are not modelled.
- Profiles.PlanDisplayName and Profiles.PlanLimits: use own-key lookup. In the source, the names every object inherits (such as "toString") would return an inherited member, just as in `Analytics.PlanLimitsAsWritten`.
- Errors.RetryDelay: defined for natural retry counts only. The source would return fractions of a second for negative counts.
- The source's numbers are unbounded integers here. The table constants and the scores are far below any floating-point precision limit.
- Decimal.IntToString, and with it Payments.FormatPrice, Payments.LimitText and the length messages of Passwords.PasswordError: rendered as plain digits for every integer. JavaScript writes magnitudes from 10^21 on in exponent notation ("1e+21") and holds integers exactly only below 2^53, so the rendering agrees with the source only below those bounds.
- Analytics.UsageStatusColor: the percentage is an exact real, so NaN is not modelled. The source colours a NaN percentage green, since every comparison with it is false.

## Scoring notes

Three consequences of the scoring code:

- A character class that is not required scores a point only when present.
- The forbidden-pattern check never adds to the score.
- "password" under the default policy is Fair. It has no uppercase letter, digit or special character, but it still scores 5 points: both length bounds, the lowercase class and the two pattern checks. Its length of 8 puts it in the Fair tier.

## Findings

| source | as written | input that shows it | evidently intended | confidence | as-written member | corrected member |
|---|---|---|---|---|---|---|
| lib/passwordUtils.ts:231-235 | `Math.abs(lowerPassword.length - common.length) <= 2` flags any password whose length is within 2 of some entry. Every length from 3 to 13 is therefore "common", and the empty password is contained in every entry. | "Xk9#vQ2!mZ7@" (12 random characters) is reported as common | flag a password that contains an entry, or is an entry with at most two characters missing | not executed | Passwords.CommonPasswordAsWritten | Passwords.IntendedCommonCheck |
| lib/analyticsService.ts:457 | `limits[planName] \|\| limits.Free` reads inherited object members, so a plan name such as "toString" returns a function instead of the Free limits | `getPlanLimits("toString")` | the Free limits for every name outside the table | not executed | Analytics.PrototypeKeyEscapesFallback | Analytics.PlanLimits |
