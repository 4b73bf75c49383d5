/**
 * The pure helpers of lib/analyticsService.ts: the plan-limit table, the
 * fallback limits of the default analytics record, usage colouring and the
 * growth percentage. JavaScript numbers are modelled as exact reals where
 * they can be fractional and as integers where they are table constants.
 */
module Analytics {
  import opened Records

  /** `UsageAnalytics['limits']`; sizes in MB, -1 means unlimited. */
  datatype Limits = Limits(dailyPdfLimit: int, monthlyPdfLimit: int, maxFileSize: int, storageLimit: int)

  const FreeLimits: Limits := Limits(2, 10, 10, 10240)

  /** The `limits` object literal of `getPlanLimits`. */
  const LimitTable: map<string, Limits> := map[
    "Free" := FreeLimits,
    "Basic" := Limits(30, 200, 40, 40960),
    "Pro" := Limits(200, -1, 1024, 1048576)]

  /** The `limits` block of the record `getDefaultAnalytics` falls back to. */
  const DefaultLimits: Limits := Limits(2, 10, 10, 10240)

  /** The default record's limits are exactly the Free plan's. */
  lemma DefaultLimitsAreFree()
    ensures DefaultLimits == PlanLimits("Free")
  {
  }

  /** Within the table, only Pro is unlimited, and the other limits rise from Free to Basic to Pro. */
  lemma LimitTableOrdered()
    ensures forall p | p in LimitTable :: LimitTable[p].monthlyPdfLimit == -1 <==> p == "Pro"
    ensures var f, b, p := LimitTable["Free"], LimitTable["Basic"], LimitTable["Pro"];
      && f.dailyPdfLimit < b.dailyPdfLimit < p.dailyPdfLimit
      && f.maxFileSize < b.maxFileSize < p.maxFileSize
      && f.storageLimit < b.storageLimit < p.storageLimit
      && f.monthlyPdfLimit < b.monthlyPdfLimit
  {
  }

  // ---------------------------------------------------------------------
  // Plan limits lookup
  // ---------------------------------------------------------------------

  /**
   * What `limits[planName] || limits.Free` can evaluate to: a limits record,
   * or a member inherited from `Object.prototype` (a function, or for
   * "__proto__" the prototype object itself; truthy either way, so it is
   * returned instead of the fallback).
   */
  datatype LimitsValue = Record(limits: Limits) | PrototypeMember(key: string)

  /** `getPlanLimits` as written. */
  function PlanLimitsAsWritten(planName: string): (r: LimitsValue)
    ensures r.PrototypeMember? <==> planName !in LimitTable && planName in PrototypeKeys
    ensures planName in LimitTable ==> r == Record(LimitTable[planName])
    ensures planName !in LimitTable && planName !in PrototypeKeys ==> r == Record(FreeLimits)
  {
    match Get(LimitTable, planName)
    case Own(v) => Record(v)
    case Inherited(k) => PrototypeMember(k)
    case Undefined => Record(LimitTable["Free"])
  }

  /** A plan name such as "toString" yields a function, not a limits record. */
  lemma PrototypeKeyEscapesFallback()
    ensures PlanLimitsAsWritten("toString") == PrototypeMember("toString")
    ensures PlanLimitsAsWritten("constructor").PrototypeMember?
  {
  }

  /** `getPlanLimits` as intended: the plan's own limits, the Free limits for any other name. */
  function PlanLimits(planName: string): (r: Limits)
    ensures planName in LimitTable ==> r == LimitTable[planName]
    ensures planName !in LimitTable ==> r == FreeLimits
    ensures r.monthlyPdfLimit == -1 <==> planName == "Pro"
  {
    if planName in LimitTable then LimitTable[planName] else LimitTable["Free"]
  }

  /** The code as written agrees with the intended lookup except on inherited member names. */
  lemma AsWrittenAgreesOffPrototype(planName: string)
    ensures planName !in PrototypeKeys ==> PlanLimitsAsWritten(planName) == Record(PlanLimits(planName))
    ensures planName in PrototypeKeys ==> PlanLimitsAsWritten(planName) != Record(PlanLimits(planName))
  {
    assert forall k | k in PrototypeKeys :: k !in LimitTable;
  }

  // ---------------------------------------------------------------------
  // Usage colour
  // ---------------------------------------------------------------------

  const Red := "text-red-500"
  const Orange := "text-orange-500"
  const Yellow := "text-yellow-500"
  const Green := "text-green-500"

  /** Severity of a usage colour, green lowest. */
  function Severity(color: string): (r: nat)
    ensures color == Green ==> r == 0
    ensures color == Yellow ==> r == 1
    ensures color == Orange ==> r == 2
    ensures color == Red ==> r == 3
  {
    if color == Red then 3 else if color == Orange then 2 else if color == Yellow then 1 else 0
  }

  /** `getUsageStatusColor`. */
  function UsageStatusColor(percentage: real): (r: string)
    ensures r == Red <==> percentage >= 90.0
    ensures r == Orange <==> 75.0 <= percentage < 90.0
    ensures r == Yellow <==> 50.0 <= percentage < 75.0
    ensures r == Green <==> percentage < 50.0
  {
    if percentage >= 90.0 then Red
    else if percentage >= 75.0 then Orange
    else if percentage >= 50.0 then Yellow
    else Green
  }

  /** Higher usage never shows a less severe colour. */
  lemma UsageSeverityMonotone(p: real, q: real)
    requires p <= q
    ensures Severity(UsageStatusColor(p)) <= Severity(UsageStatusColor(q))
  {
  }

  // ---------------------------------------------------------------------
  // Growth
  // ---------------------------------------------------------------------

  /** `calculateGrowth`, in exact arithmetic. */
  function Growth(current: real, previous: real): (r: real)
    ensures previous == 0.0 ==> (r == 100.0 <==> current > 0.0) && (r == 0.0 <==> current <= 0.0)
    ensures previous > 0.0 ==> (r > 0.0 <==> current > previous) && (r == 0.0 <==> current == previous)
    ensures previous < 0.0 ==> (r > 0.0 <==> current < previous) && (r == 0.0 <==> current == previous)
  {
    if previous == 0.0 then (if current > 0.0 then 100.0 else 0.0)
    else (current - previous) / previous * 100.0
  }

  /** Away from zero, the growth percentage recovers the current value from the previous one. */
  lemma GrowthRecoversCurrent(current: real, previous: real)
    requires previous != 0.0
    ensures previous + previous * Growth(current, previous) / 100.0 == current
  {
  }
}
