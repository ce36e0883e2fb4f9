# Salary calculation and sign-up/sign-in checks

This project models the core of a mobile salary tracker: the salary engine
in `utils/calculations.ts` and the form checks of the sign-up and sign-in
screens.

The salary engine works on a list of daily earnings and three deduction
percentages:

- **Rates.** Each percentage is clamped to [0, 100]. A missing or NaN rate counts as 0.
- **Gross salary.** The gross is the sum of the valid amounts only. An entry is valid when it is present and its amount is a non-negative number.
- **Working days.** Every entry counts as a working day, valid or not.
- **Deductions.** Each deduction is rounded to cents on its own.
- **Total.** The total deduction is the sum of the three rounded deductions.
- **Net salary.** The net is the gross minus the total, and it never goes below 0.
- **Derived metrics.**
  - The daily average divides by the number of valid entries.
  - The monthly projection multiplies the daily average by 22 days unless told otherwise.
  - The effective rate is the total as a percentage of the gross, and 0 for a zero gross.

The two screens each build an error record before they send anything:

- **Sign-up.** A message appears for each blank name or username. A blank field is empty after `trim`. A message also appears for a password shorter than four UTF-16 code units; the password is not trimmed. Editing a field blanks that field's message.
- **Sign-in.** A message appears for a blank username and for a blank password.

Money is modelled as `real`. `Math.round(x * 100) / 100` becomes `Money.RoundCents`, which is the floor of `100x + 1/2`, divided by 100. That is JavaScript's `Math.round` taken to cents, and it rounds halves upwards. The untyped boundaries become `Option`:

- a null earnings array;
- a null entry;
- an amount that is not a number or is NaN;
- an unset or NaN rate.

Products and quotients of money are named functions (`Money.PercentOf`, `Money.Times`, `Money.Mean`, `Money.AsPercentOf`). Their arithmetic facts are proved once, in `money.dfy`.

The screens are React components whose state lives in hooks. Each screen's state is a class (`Register.RegisterScreen`, `Login.LoginScreen`). Its event handlers are methods on that class:

- `HandleRegister` returns the form it would submit instead of calling the account service.
- `HandleLogin` returns the credentials it would send instead of calling the sign-in service.

Each check is a method that builds the error record one `if` at a time (`ValidateRegistration`, `ValidateLogin`). Each method is specified by a predicate (`IsRegistrationErrors`, `IsLoginErrors`). The predicate states, per field, exactly when a message is present and what the message says.

## Model

| member | source | states |
|---|---|---|
| Money.RoundCents | utils/calculations.ts:43 | the result is a whole number of cents within half a cent of the input (above by at most 0.005, below by less), and non-negative for a non-negative input |
| Money.RoundCentsOfSum | utils/calculations.ts:39 | rounding a sum of three cent amounts changes nothing, so the total is exactly the sum of the rounded deductions |
| Money.RoundCentsMinusCents | utils/calculations.ts:40 | rounding the unrounded gross minus a cent amount equals the rounded gross minus that amount |
| Money.ShortfallAtMostOneCent | utils/calculations.ts:35-40 | three parts whose sum is at most the gross, each rounded to cents, exceed the rounded gross by one cent at most |
| Money.ShortfallOfOneCentIsReached | utils/calculations.ts:35-48 | one cent at rates 50/50/0 gives deductions of two cents, so the gross minus the total can be -0.01 and the floor at 0 is needed |
| Calculations.ClampRate | utils/calculations.ts:22-24 | a rate lands in [0, 100]; unset or NaN gives 0; an in-range rate is kept; the result is the point of [0, 100] nearest the rate |
| Calculations.ValidateTaxRates | utils/calculations.ts:102-108 | each field is clamped on its own to the nearest point of [0, 100] (unset or NaN gives 0), so every returned rate is in range, and rates already in range are returned unchanged |
| Calculations.ValidateTaxRatesIdempotent | utils/calculations.ts:102-108 | validating twice equals validating once; the rates are a fixed point exactly when they are in range |
| Calculations.ValidEarnings | utils/calculations.ts:28-29 | the filter keeps exactly the valid entries: everything kept is valid and came from the input, every valid input entry is kept, and nothing is dropped exactly when all entries are valid |
| Calculations.ValidEarningsMultiplicity | utils/calculations.ts:28-29 | the filter keeps each valid entry exactly as many times as it occurs and drops every other entry |
| Calculations.ValidEarningsOfSingle | utils/calculations.ts:29 | a single entry is kept exactly when it is valid |
| Calculations.ValidEarningsAppend | utils/calculations.ts:28-29 | the filter distributes over concatenation, so the valid entries stay in their original order |
| Calculations.SumAmounts | utils/calculations.ts:30 | the sum of valid amounts is non-negative |
| Calculations.GrossIsSumOfContributions | utils/calculations.ts:27-30 | filtering then summing equals summing every entry's contribution, where an invalid entry contributes 0 |
| Calculations.GrossOrderIndependent | utils/calculations.ts:28-30 | the gross does not depend on the order of the entries, and the gross of two lists joined is the sum of their grosses |
| Calculations.Deduction | utils/calculations.ts:35-37 | a deduction at a rate in [0, 100] is a cent amount within half a cent of gross × rate / 100 (above by at most 0.005, below by less), and between 0 and the rounded gross |
| Calculations.Breakdown | utils/calculations.ts:20-50 | the general formula: working days is the entry count; gross is the rounded sum of contributions; each deduction is gross × clamped rate / 100 rounded to cents; the total is the sum of the three deductions; the net is the gross minus the total, floored at 0 |
| Calculations.CalculateSalary | utils/calculations.ts:3-51 | null or empty input gives all zeros; working days counts every entry; gross is the rounded sum of valid amounts; for a non-empty array each deduction is the rounded sum of contributions × its clamped rate / 100, rounded to cents; all six money fields are cents; each deduction lies in [0, gross]; total is the sum of the deductions; net is max(0, gross - total) |
| Calculations.SalaryExample | utils/calculations.ts:20-50 | entries grossing 1000 at rates 10, 10 and 5 give deductions 100, 100 and 50, a total of 250 and a net of 750 |
| Calculations.ValidatedRatesGiveSameSalary | utils/calculations.ts:21-25 | clamping the rates with validateTaxRates before calling calculateSalary gives the same result |
| Calculations.EmptyFastPathAgrees | utils/calculations.ts:8-18 | the early return for an empty array agrees with the general formula, and a null array behaves like an empty one |
| Calculations.InvalidEntryCountedNotSummed | utils/calculations.ts:28-32 | appending an invalid entry adds a working day but changes neither the gross nor the daily average |
| Calculations.NetShortfallAtMostOneCent | utils/calculations.ts:35-48 | when the clamped rates add up to at most 100, the gross minus the total is at least -0.01 |
| Calculations.CalculateDailyAverage | utils/calculations.ts:80-95 | the result is cents and non-negative; it is 0 when no entry is valid; otherwise it is the rounded mean of the contributions over the number of valid entries |
| Calculations.DailyAverageBetweenExtremes | utils/calculations.ts:93-94 | the daily average lies between the rounded smallest and the rounded largest valid amount |
| Calculations.CalculateMonthlyProjection | utils/calculations.ts:97-100 | the projection is a cent amount |
| Calculations.ProjectionDefaultsTo22 | utils/calculations.ts:97 | leaving out the number of days is the same as passing 22 |
| Calculations.ProjectionNonNegative | utils/calculations.ts:97-100 | a non-negative number of days gives a non-negative projection |
| Calculations.ProjectionExactForWholeDays | utils/calculations.ts:99 | for a whole number of days the final rounding loses nothing: the projection is the daily average times the days |
| Calculations.CalculateEffectiveTaxRate | utils/calculations.ts:110-116 | zero gross gives 0 with no division; otherwise the result is total/gross*100 rounded to cents with halves going up (above it by at most 0.005, below by less); it lies in [0, 100] when 0 <= total <= gross |
| Calculations.PercentBound | utils/calculations.ts:115 | a part between 0 and a positive whole is, rounded to cents, between 0% and 100% of it |
| Calculations.EffectiveRateOfSalaryNonNegative | utils/calculations.ts:110-116 | the effective rate of any computed salary is non-negative |
| Calculations.FormatCurrency | utils/calculations.ts:53-57 | a non-number or NaN gives "₺0,00" and never reaches the locale formatter |
| Calculations.FormatNumber | utils/calculations.ts:67-71 | a non-number or NaN gives "0" and never reaches the locale formatter |
| JsString.TrimStart | app/auth/register.tsx:38 | the result is a suffix of the input; what was cut is all whitespace; the result does not start with whitespace |
| JsString.TrimEnd | app/auth/register.tsx:38 | the result is a prefix of the input; what was cut is all whitespace; the result does not end with whitespace |
| JsString.Trim | app/auth/register.tsx:38 | the result is a slice of the input with only whitespace before and after it; it is empty exactly when the input is whitespace only, and otherwise neither starts nor ends with whitespace |
| JsString.CutBothEnds | app/auth/register.tsx:38 | cutting a whitespace prefix and then a whitespace suffix leaves a slice with whitespace on both sides, empty exactly when the whole string is whitespace |
| JsString.IsBlank | app/auth/register.tsx:38 | `!s.trim()` holds exactly when s is whitespace only |
| JsString.Utf16Length | app/auth/register.tsx:47 | the length in code units is between one and two per character, and equals the character count exactly when no character lies outside the Basic Multilingual Plane |
| JsString.Utf16LengthAppend | app/auth/register.tsx:47 | the length of a concatenation is the sum of the lengths |
| JsString.Utf16LengthOfChar | app/auth/register.tsx:47 | one character is one code unit, or two outside the Basic Multilingual Plane; with the append law this fixes every length |
| JsString.Utf16LengthOfEmojiExamples | app/auth/register.tsx:47 | "a" plus an emoji is 3 code units, and "ab" plus an emoji is 4 |
| Register.FormData.With | app/auth/register.tsx:29 | the spread update sets the edited field and leaves every other field as it was |
| Register.UpdateFormData | app/auth/register.tsx:28-33 | the edited field takes the value and no other field changes; the edited field's message is no longer shown; other messages stay; no key is added or removed |
| Register.UpdateFormDataLastWriteWins | app/auth/register.tsx:29 | editing a field twice leaves the form as editing it once with the second value |
| Register.ValidateRegistration | app/auth/register.tsx:36-49 | a message for first name, last name or username is recorded exactly when that input is whitespace only; a password message exactly when the password has fewer than 4 code units; the role never gets a message; each message has its fixed text |
| Register.RegistrationErrorsUnique | app/auth/register.tsx:36-49 | the recorded messages are determined by the form |
| Register.NoErrorsIffAcceptable | app/auth/register.tsx:53-55 | the record is empty exactly when all four checks pass |
| Register.RegisterScreen.constructor | app/auth/register.tsx:18-25 | the screen starts with empty inputs, the individual role and no messages |
| Register.RegisterScreen.Edit | app/auth/register.tsx:28-33 | the screen state becomes what UpdateFormData computes from the previous state |
| Register.RegisterScreen.HandleRegister | app/auth/register.tsx:35-58 | the form is unchanged; the stored messages are those of the form; a request is made exactly when every check passes, and it carries the form |
| Login.ValidateLogin | app/auth/login.tsx:24-31 | a username message exactly when the username is whitespace only; a password message exactly when the password is whitespace only; each message has its fixed text |
| Login.LoginErrorsUnique | app/auth/login.tsx:24-31 | the recorded messages are determined by the inputs |
| Login.NoErrorsIffAcceptable | app/auth/login.tsx:35-37 | the record is empty exactly when neither input is blank |
| Login.WhitespacePasswordRegistersButCannotLogIn | app/auth/login.tsx:29-31 | a password of four or more whitespace characters passes the sign-up check, but the sign-in check refuses it |
| Login.LoginScreen.constructor | app/auth/login.tsx:18-20 | the screen starts with empty inputs and no messages |
| Login.LoginScreen.SetUsername | app/auth/login.tsx:87 | typing sets the username; the password and the messages are unchanged |
| Login.LoginScreen.SetPassword | app/auth/login.tsx:97 | typing sets the password; the username and the messages are unchanged |
| Login.LoginScreen.HandleLogin | app/auth/login.tsx:23-40 | the inputs are unchanged; the stored messages are those of the inputs; the credentials are sent exactly when neither input is blank, and they are the current inputs |

## Left out

- Numbers are exact reals, not IEEE doubles. The model has no rounding error in sums and products, no Infinity and no `-0`. Summation order therefore does not matter in the model, although it can in floating point.
- `Calculations.ClampRate`: an infinite rate is not modelled. A rate given as a non-number (for example a string) is treated like an unset rate, whereas JavaScript would coerce it.
- The rates object itself is never null in the model. The source reads `taxRates.tax` only after the empty check, so a null rates object with a non-empty array would throw.
- `Calculations.CalculateMonthlyProjection`: its own contract states only that the result is cents. The default of 22, non-negativity and exactness are proved as separate lemmas. A NaN number of days, which would give NaN, is not modelled.
- `Calculations.FormatCurrency` and `Calculations.FormatNumber`: the `Intl.NumberFormat` formatting (tr-TR, TRY, digit settings) is a function parameter. Only the fallbacks for a non-number or NaN are modelled.
- Side effects are left out of both screens. This covers the asynchronous `register` and `login` calls, the loading flag, navigation on success and the alert on failure. React's batched state updates are modelled as immediate assignments.
- `JsString`: a JavaScript string is modelled as a sequence of Unicode scalar values, so lone surrogates cannot be expressed.
- `Register.UpdateFormData`: the field names are the five that the screen passes. An arbitrary string key, which would add a new property, is not modelled.
- Rendering, styling, layout sizes and input focus state are not modelled.
