/** The salary calculation engine of utils/calculations.ts: gross and net
    salary from a list of daily earnings and three deduction percentages,
    and the derived metrics (daily average, monthly projection, effective
    rate). Every operation is a pure, total function. Money is `real`. */
module Calculations {
  import opened Wrappers
  import opened Money

  /** One day's earning. `amount` is None when the stored value is not a
      number or is NaN (both fail `typeof amount === 'number' && amount >= 0`). */
  datatype DailyEarning = DailyEarning(id: string, date: string, amount: Option<real>)

  /** An element of the earnings array; None is a null or undefined element. */
  type Entry = Option<DailyEarning>

  /** The three deduction percentages; None is an unset or NaN rate. */
  datatype TaxRates = TaxRates(tax: Option<real>, retirement: Option<real>, insurance: Option<real>)

  datatype SalaryCalculation = SalaryCalculation(
    grossSalary: real,
    taxDeduction: real,
    retirementDeduction: real,
    insuranceDeduction: real,
    totalDeductions: real,
    netSalary: real,
    workingDays: nat)

  const ZeroCalculation := SalaryCalculation(0.0, 0.0, 0.0, 0.0, 0.0, 0.0, 0)

  /** The default of `workingDaysPerMonth` in calculateMonthlyProjection. */
  const DefaultWorkingDaysPerMonth: real := 22.0

  /** A null or undefined earnings array behaves as an empty one. */
  function Entries(dailyEarnings: Option<seq<Entry>>): (es: seq<Entry>) {
    if dailyEarnings.None? then [] else dailyEarnings.value
  }

  // ---------------------------------------------------------------------
  // Rates

  /** `Math.max(0, Math.min(100, rate || 0))`: an unset, NaN or zero rate is
      0, and any other rate is moved to the nearest point of [0, 100]. */
  function ClampRate(rate: Option<real>): (r: real)
    ensures 0.0 <= r <= 100.0
    ensures rate.None? ==> r == 0.0
    ensures rate.Some? && 0.0 <= rate.value <= 100.0 ==> r == rate.value
    ensures rate.Some? ==> forall y: real :: 0.0 <= y <= 100.0 ==> Dist(r, rate.value) <= Dist(y, rate.value)
  {
    match rate
    case None => 0.0
    case Some(x) => Max(0.0, Min(100.0, x))
  }

  /** Every rate is set and lies in [0, 100]. */
  predicate InRange(rates: TaxRates) {
    && rates.tax.Some? && 0.0 <= rates.tax.value <= 100.0
    && rates.retirement.Some? && 0.0 <= rates.retirement.value <= 100.0
    && rates.insurance.Some? && 0.0 <= rates.insurance.value <= 100.0
  }

  /** validateTaxRates: clamp each rate on its own. Its result is always in
      range, and rates already in range come back unchanged. */
  function ValidateTaxRates(taxRates: TaxRates): (r: TaxRates)
    ensures InRange(r)
    ensures InRange(taxRates) ==> r == taxRates
    ensures r.tax == Some(ClampRate(taxRates.tax))
    ensures r.retirement == Some(ClampRate(taxRates.retirement))
    ensures r.insurance == Some(ClampRate(taxRates.insurance))
  {
    TaxRates(
      Some(ClampRate(taxRates.tax)),
      Some(ClampRate(taxRates.retirement)),
      Some(ClampRate(taxRates.insurance)))
  }

  /** Applying validateTaxRates twice is the same as once, and a
      configuration is left alone exactly when it is already in range. */
  lemma ValidateTaxRatesIdempotent(taxRates: TaxRates)
    ensures ValidateTaxRates(ValidateTaxRates(taxRates)) == ValidateTaxRates(taxRates)
    ensures ValidateTaxRates(taxRates) == taxRates <==> InRange(taxRates)
  {
  }

  // ---------------------------------------------------------------------
  // Gross salary

  /** The filter `earning && typeof earning.amount === 'number' && earning.amount >= 0`. */
  predicate IsValidEarning(e: Entry) {
    e.Some? && e.value.amount.Some? && e.value.amount.value >= 0.0
  }

  predicate AllValid(vs: seq<Entry>) {
    forall i :: 0 <= i < |vs| ==> IsValidEarning(vs[i])
  }

  /** `dailyEarnings.filter(...)`: the valid entries, in order. */
  function ValidEarnings(es: seq<Entry>): (vs: seq<Entry>)
    ensures |vs| <= |es|
    ensures AllValid(vs)
    ensures forall e :: e in vs ==> e in es
    ensures forall e :: e in es && IsValidEarning(e) ==> e in vs
    ensures |vs| == |es| <==> AllValid(es)
  {
    if es == [] then []
    else if IsValidEarning(es[0]) then [es[0]] + ValidEarnings(es[1..])
    else ValidEarnings(es[1..])
  }

  /** The filter keeps every valid entry as many times as it occurs, and no
      other entry. */
  lemma {:induction false} ValidEarningsMultiplicity(es: seq<Entry>)
    ensures forall e :: multiset(ValidEarnings(es))[e] == if IsValidEarning(e) then multiset(es)[e] else 0
  {
    if es != [] {
      ValidEarningsMultiplicity(es[1..]);
      assert es == [es[0]] + es[1..];
    }
  }

  /** `.reduce((sum, earning) => sum + earning.amount, 0)` over valid entries. */
  function SumAmounts(vs: seq<Entry>): (s: real)
    requires AllValid(vs)
    ensures s >= 0.0
  {
    if vs == [] then 0.0 else vs[0].value.amount.value + SumAmounts(vs[1..])
  }

  /** What one entry adds to the gross salary: its amount if valid, else 0. */
  function Contribution(e: Entry): (amount: real) {
    if IsValidEarning(e) then e.value.amount.value else 0.0
  }

  /** Reference definition of the gross salary: every entry's contribution. */
  function SumContributions(es: seq<Entry>): (total: real) {
    if es == [] then 0.0 else Contribution(es[0]) + SumContributions(es[1..])
  }

  /** The unrounded gross salary as the source computes it: filter, then sum. */
  function Gross(es: seq<Entry>): (gross: real) {
    SumAmounts(ValidEarnings(es))
  }

  /** Filter-then-sum equals the sum of contributions: negative, NaN or
      missing amounts and null entries contribute nothing. */
  lemma {:induction false} GrossIsSumOfContributions(es: seq<Entry>)
    ensures Gross(es) == SumContributions(es)
  {
    if es != [] {
      GrossIsSumOfContributions(es[1..]);
      if IsValidEarning(es[0]) {
        assert ValidEarnings(es) == [es[0]] + ValidEarnings(es[1..]);
        assert ([es[0]] + ValidEarnings(es[1..]))[1..] == ValidEarnings(es[1..]);
      }
    }
  }

  lemma {:induction false} SumContributionsAppend(a: seq<Entry>, b: seq<Entry>)
    ensures SumContributions(a + b) == SumContributions(a) + SumContributions(b)
  {
    if a != [] {
      assert (a + b)[1..] == a[1..] + b;
      SumContributionsAppend(a[1..], b);
    } else {
      assert a + b == b;
    }
  }

  /** The order of the entries does not matter to the gross salary. */
  lemma GrossOrderIndependent(a: seq<Entry>, b: seq<Entry>)
    ensures Gross(a + b) == Gross(b + a)
    ensures Gross(a + b) == Gross(a) + Gross(b)
  {
    GrossIsSumOfContributions(a + b);
    GrossIsSumOfContributions(b + a);
    GrossIsSumOfContributions(a);
    GrossIsSumOfContributions(b);
    SumContributionsAppend(a, b);
    SumContributionsAppend(b, a);
  }

  // ---------------------------------------------------------------------
  // calculateSalary

  /** One deduction: `Math.round(gross * rate / 100 * 100) / 100`. */
  function Deduction(gross: real, rate: real): (d: real)
    requires gross >= 0.0 && 0.0 <= rate <= 100.0
    ensures IsCents(d)
    ensures PercentOf(gross, rate) - 0.005 < d <= PercentOf(gross, rate) + 0.005
    ensures 0.0 <= d <= RoundCents(gross)
  {
    PercentOfBound(gross, rate);
    RoundCentsMonotone(PercentOf(gross, rate), gross);
    RoundCents(PercentOf(gross, rate))
  }

  /** The general formula of calculateSalary, used for a non-empty array. */
  function Breakdown(es: seq<Entry>, taxRates: TaxRates): (c: SalaryCalculation)
    ensures c.workingDays == |es|
    ensures c.grossSalary == RoundCents(SumContributions(es))
    ensures c.taxDeduction == RoundCents(PercentOf(SumContributions(es), ClampRate(taxRates.tax)))
    ensures c.retirementDeduction == RoundCents(PercentOf(SumContributions(es), ClampRate(taxRates.retirement)))
    ensures c.insuranceDeduction == RoundCents(PercentOf(SumContributions(es), ClampRate(taxRates.insurance)))
    ensures IsCents(c.totalDeductions) && IsCents(c.netSalary)
    ensures c.totalDeductions == c.taxDeduction + c.retirementDeduction + c.insuranceDeduction
    ensures c.netSalary == Max(0.0, c.grossSalary - c.totalDeductions)
  {
    var gross := Gross(es);
    var taxDeduction := Deduction(gross, ClampRate(taxRates.tax));
    var retirementDeduction := Deduction(gross, ClampRate(taxRates.retirement));
    var insuranceDeduction := Deduction(gross, ClampRate(taxRates.insurance));
    var totalDeductions := RoundCents(taxDeduction + retirementDeduction + insuranceDeduction);
    var netSalary := RoundCents(gross - totalDeductions);
    GrossIsSumOfContributions(es);
    RoundCentsOfSum(taxDeduction, retirementDeduction, insuranceDeduction);
    RoundCentsMinusCents(gross, totalDeductions);
    SalaryCalculation(
      RoundCents(gross),
      taxDeduction,
      retirementDeduction,
      insuranceDeduction,
      totalDeductions,
      Max(0.0, netSalary),
      |es|)
  }

  /** calculateSalary. A null or empty array short-circuits to all zeros
      before any rate is looked at; otherwise `workingDays` counts every
      entry, valid or not, while only valid amounts reach the gross. Every
      money field is a whole number of cents and non-negative, no deduction
      exceeds the gross, the total is exactly the sum of the three rounded
      deductions and the net is the gross minus the total, floored at 0. */
  function CalculateSalary(dailyEarnings: Option<seq<Entry>>, taxRates: TaxRates): (c: SalaryCalculation)
    ensures c.workingDays == |Entries(dailyEarnings)|
    ensures Entries(dailyEarnings) == [] ==> c == ZeroCalculation
    ensures c.grossSalary == RoundCents(SumContributions(Entries(dailyEarnings)))
    ensures Entries(dailyEarnings) != [] ==>
      c.taxDeduction == RoundCents(PercentOf(SumContributions(Entries(dailyEarnings)), ClampRate(taxRates.tax)))
    ensures Entries(dailyEarnings) != [] ==>
      c.retirementDeduction == RoundCents(PercentOf(SumContributions(Entries(dailyEarnings)), ClampRate(taxRates.retirement)))
    ensures Entries(dailyEarnings) != [] ==>
      c.insuranceDeduction == RoundCents(PercentOf(SumContributions(Entries(dailyEarnings)), ClampRate(taxRates.insurance)))
    ensures IsCents(c.grossSalary) && IsCents(c.taxDeduction) && IsCents(c.retirementDeduction)
    ensures IsCents(c.insuranceDeduction) && IsCents(c.totalDeductions) && IsCents(c.netSalary)
    ensures 0.0 <= c.taxDeduction <= c.grossSalary
    ensures 0.0 <= c.retirementDeduction <= c.grossSalary
    ensures 0.0 <= c.insuranceDeduction <= c.grossSalary
    ensures c.totalDeductions == c.taxDeduction + c.retirementDeduction + c.insuranceDeduction
    ensures c.netSalary >= 0.0
    ensures c.netSalary == Max(0.0, c.grossSalary - c.totalDeductions)
  {
    var es := Entries(dailyEarnings);
    if |es| == 0 then
      assert IsCents(0.0);
      ZeroCalculation
    else
      Breakdown(es, taxRates)
  }

  /** Normalising the rates first with validateTaxRates changes nothing. */
  lemma ValidatedRatesGiveSameSalary(dailyEarnings: Option<seq<Entry>>, taxRates: TaxRates)
    ensures CalculateSalary(dailyEarnings, ValidateTaxRates(taxRates)) == CalculateSalary(dailyEarnings, taxRates)
  {
  }

  /** The empty fast path agrees with the general formula: with an empty
      array every field of the general formula is zero too. */
  lemma EmptyFastPathAgrees(taxRates: TaxRates)
    ensures Breakdown([], taxRates) == ZeroCalculation
    ensures CalculateSalary(None, taxRates) == CalculateSalary(Some([]), taxRates)
  {
  }

  /** An invalid entry is counted as a working day but adds nothing to the
      gross salary nor to the daily average. */
  lemma InvalidEntryCountedNotSummed(es: seq<Entry>, e: Entry, taxRates: TaxRates)
    requires !IsValidEarning(e)
    ensures CalculateSalary(Some(es + [e]), taxRates).workingDays == |es| + 1
    ensures CalculateSalary(Some(es + [e]), taxRates).grossSalary == CalculateSalary(Some(es), taxRates).grossSalary
    ensures CalculateDailyAverage(Some(es + [e])) == CalculateDailyAverage(Some(es))
  {
    SumContributionsAppend(es, [e]);
    assert SumContributions([e]) == 0.0;
    ValidEarningsAppend(es, [e]);
    assert ValidEarnings([e]) == [];
    assert ValidEarnings(es + [e]) == ValidEarnings(es);
  }

  /** A single entry is kept exactly when it is valid. */
  lemma ValidEarningsOfSingle(e: Entry)
    ensures ValidEarnings([e]) == if IsValidEarning(e) then [e] else []
  {
    assert [e][1..] == [];
  }

  /** The filter distributes over concatenation, so with ValidEarningsOfSingle
      it keeps the valid entries in their original order. */
  lemma {:induction false} ValidEarningsAppend(a: seq<Entry>, b: seq<Entry>)
    ensures ValidEarnings(a + b) == ValidEarnings(a) + ValidEarnings(b)
  {
    if a == [] {
      assert a + b == b;
    } else {
      assert (a + b)[1..] == a[1..] + b;
      ValidEarningsAppend(a[1..], b);
    }
  }

  /** A month grossing 1000 at rates 10, 10 and 5 gives deductions of 100,
      100 and 50, a total of 250 and a net of 750. */
  lemma SalaryExample(es: seq<Entry>)
    requires es != [] && SumContributions(es) == 1000.0
    ensures var c := CalculateSalary(Some(es), TaxRates(Some(10.0), Some(10.0), Some(5.0)));
      && c.grossSalary == 1000.0 && c.taxDeduction == 100.0 && c.retirementDeduction == 100.0
      && c.insuranceDeduction == 50.0 && c.totalDeductions == 250.0 && c.netSalary == 750.0
  {
    assert PercentOf(1000.0, 10.0) == 100.0 && PercentOf(1000.0, 5.0) == 50.0;
    RoundCentsOfCents(1000.0);
    RoundCentsOfCents(100.0);
    RoundCentsOfCents(50.0);
  }

  /** Rates that add up to at most 100% can still make the gross minus the
      total negative through rounding, but by one cent at most. */
  lemma NetShortfallAtMostOneCent(es: seq<Entry>, taxRates: TaxRates)
    requires ClampRate(taxRates.tax) + ClampRate(taxRates.retirement) + ClampRate(taxRates.insurance) <= 100.0
    ensures var c := CalculateSalary(Some(es), taxRates);
      c.grossSalary - c.totalDeductions >= -0.01
  {
    if es != [] {
      RatesShortfallAtMostOneCent(Gross(es), ClampRate(taxRates.tax), ClampRate(taxRates.retirement), ClampRate(taxRates.insurance));
    }
  }

  // ---------------------------------------------------------------------
  // Derived metrics

  /** calculateDailyAverage: 0 when no entry is valid, otherwise the rounded
      mean of the valid amounts; the divisor is the number of VALID entries,
      not the `workingDays` of calculateSalary. */
  function CalculateDailyAverage(dailyEarnings: Option<seq<Entry>>): (avg: real)
    ensures IsCents(avg) && avg >= 0.0
    ensures |ValidEarnings(Entries(dailyEarnings))| == 0 ==> avg == 0.0
    ensures |ValidEarnings(Entries(dailyEarnings))| > 0 ==>
      avg == RoundCents(Mean(SumContributions(Entries(dailyEarnings)), |ValidEarnings(Entries(dailyEarnings))|))
  {
    var es := Entries(dailyEarnings);
    if |es| == 0 then
      assert IsCents(0.0);
      0.0
    else
      var validEarnings := ValidEarnings(es);
      if |validEarnings| == 0 then
        assert IsCents(0.0);
        0.0
      else
        GrossIsSumOfContributions(es);
        RoundCents(Mean(SumAmounts(validEarnings), |validEarnings|))
  }

  lemma {:induction false} SumAmountsBounds(vs: seq<Entry>, lo: real, hi: real)
    requires AllValid(vs)
    requires forall i :: 0 <= i < |vs| ==> lo <= vs[i].value.amount.value <= hi
    ensures Times(|vs| as real, lo) <= SumAmounts(vs) <= Times(|vs| as real, hi)
  {
    if vs == [] {
      TimesZero(lo);
      TimesZero(hi);
    } else {
      SumAmountsBounds(vs[1..], lo, hi);
      TimesSucc(|vs[1..]| as real, lo);
      TimesSucc(|vs[1..]| as real, hi);
      assert |vs[1..]| as real + 1.0 == |vs| as real;
    }
  }

  /** The daily average lies between the (rounded) smallest and largest
      valid amount. */
  lemma DailyAverageBetweenExtremes(es: seq<Entry>, lo: real, hi: real)
    requires |ValidEarnings(es)| > 0
    requires forall e :: e in es && IsValidEarning(e) ==> lo <= e.value.amount.value <= hi
    ensures RoundCents(lo) <= CalculateDailyAverage(Some(es)) <= RoundCents(hi)
  {
    var vs := ValidEarnings(es);
    forall i | 0 <= i < |vs| ensures lo <= vs[i].value.amount.value <= hi {
      assert vs[i] in vs;
    }
    SumAmountsBounds(vs, lo, hi);
    var mean := Mean(SumAmounts(vs), |vs|);
    MeanBetween(SumAmounts(vs), |vs|, lo, hi);
    RoundCentsMonotone(lo, mean);
    RoundCentsMonotone(mean, hi);
  }

  /** calculateMonthlyProjection: the daily average times the number of
      working days (22 when not given), rounded to cents. */
  function CalculateMonthlyProjection(dailyEarnings: Option<seq<Entry>>, workingDaysPerMonth: Option<real>): (p: real)
    ensures IsCents(p)
  {
    var days := if workingDaysPerMonth.None? then DefaultWorkingDaysPerMonth else workingDaysPerMonth.value;
    var dailyAverage := CalculateDailyAverage(dailyEarnings);
    RoundCents(Times(dailyAverage, days))
  }

  /** Leaving out the number of days is the same as passing 22. */
  lemma ProjectionDefaultsTo22(dailyEarnings: Option<seq<Entry>>)
    ensures CalculateMonthlyProjection(dailyEarnings, None) == CalculateMonthlyProjection(dailyEarnings, Some(22.0))
  {
  }

  /** A non-negative number of days gives a non-negative projection. */
  lemma ProjectionNonNegative(dailyEarnings: Option<seq<Entry>>, days: real)
    requires days >= 0.0
    ensures CalculateMonthlyProjection(dailyEarnings, Some(days)) >= 0.0
  {
    TimesNonNegative(CalculateDailyAverage(dailyEarnings), days);
  }

  /** For a whole number of days the projection is exact: no cent is lost. */
  lemma ProjectionExactForWholeDays(dailyEarnings: Option<seq<Entry>>, days: nat)
    ensures CalculateMonthlyProjection(dailyEarnings, Some(days as real)) == Times(CalculateDailyAverage(dailyEarnings), days as real)
  {
    var avg := CalculateDailyAverage(dailyEarnings);
    CentsTimesNat(avg, days);
    RoundCentsOfCents(Times(avg, days as real));
  }

  /** calculateEffectiveTaxRate: 0 for a zero gross (no division by zero),
      otherwise the total deductions as a percentage of the gross, to the
      nearest cent. */
  function CalculateEffectiveTaxRate(calculation: SalaryCalculation): (r: real)
    ensures IsCents(r)
    ensures calculation.grossSalary == 0.0 ==> r == 0.0
    ensures calculation.grossSalary != 0.0 ==>
      AsPercentOf(calculation.totalDeductions, calculation.grossSalary) - 0.005 < r
    ensures calculation.grossSalary != 0.0 ==>
      r <= AsPercentOf(calculation.totalDeductions, calculation.grossSalary) + 0.005
    ensures calculation.grossSalary > 0.0 && 0.0 <= calculation.totalDeductions <= calculation.grossSalary ==>
      0.0 <= r <= 100.0
  {
    if calculation.grossSalary == 0.0 then
      assert IsCents(0.0);
      0.0
    else
      PercentBound(calculation.totalDeductions, calculation.grossSalary);
      RoundCents(AsPercentOf(calculation.totalDeductions, calculation.grossSalary))
  }

  /** A part of a positive whole is between 0% and 100% of it, also after
      rounding to cents. */
  lemma PercentBound(part: real, whole: real)
    requires whole != 0.0
    ensures whole > 0.0 && 0.0 <= part <= whole ==> 0.0 <= RoundCents(AsPercentOf(part, whole)) <= 100.0
  {
    if whole > 0.0 && 0.0 <= part <= whole {
      AsPercentOfBetween(part, whole);
      RoundCentsMonotone(AsPercentOf(part, whole), 100.0);
      RoundCentsOfCents(100.0);
    }
  }

  /** The effective rate of a computed salary is never negative. */
  lemma EffectiveRateOfSalaryNonNegative(dailyEarnings: Option<seq<Entry>>, taxRates: TaxRates)
    ensures CalculateEffectiveTaxRate(CalculateSalary(dailyEarnings, taxRates)) >= 0.0
  {
    var c := CalculateSalary(dailyEarnings, taxRates);
    if c.grossSalary != 0.0 {
      AsPercentOfNonNegative(c.totalDeductions, c.grossSalary);
    }
  }

  // ---------------------------------------------------------------------
  // Formatting fallbacks

  /** What formatCurrency returns for a non-number or NaN. */
  const CurrencyFallback := "₺0,00"

  /** What formatNumber returns for a non-number or NaN. */
  const NumberFallback := "0"

  /** formatCurrency: the locale formatter (Intl.NumberFormat, tr-TR, TRY)
      is a parameter; a non-number or NaN never reaches it. */
  function FormatCurrency(amount: Option<real>, localeFormat: real -> string): (s: string)
    ensures amount.None? ==> s == CurrencyFallback
    ensures amount.Some? ==> s == localeFormat(amount.value)
  {
    if amount.None? then CurrencyFallback else localeFormat(amount.value)
  }

  /** formatNumber, with the same treatment. */
  function FormatNumber(num: Option<real>, localeFormat: real -> string): (s: string)
    ensures num.None? ==> s == NumberFallback
    ensures num.Some? ==> s == localeFormat(num.value)
  {
    if num.None? then NumberFallback else localeFormat(num.value)
  }
}
