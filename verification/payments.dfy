/**
 * The pure helpers of lib/paymentService.ts: the plan catalogue, price and
 * limit rendering, and the upgrade relation between plans.
 */
module Payments {
  import opened Optional
  import opened Text
  import opened Decimal
  import opened PlanOrder

  /** The `Plan` interface; prices are in paise, limits of -1 mean unlimited. */
  datatype Plan = Plan(
    name: string,
    price: int,
    interval: string,
    dailyPdfLimit: int,
    monthlyPdfLimit: int,
    maxFileSizeMb: int,
    razorpayPlanId: Option<string>)

  /**
   * `getAvailablePlans`: the catalogue lists the plans of the upgrade path,
   * one per step, at strictly rising prices, all billed monthly.
   */
  function AvailablePlans(): (r: seq<Plan>)
    ensures |r| == |UpgradeOrder|
    ensures forall i :: 0 <= i < |r| ==> r[i].name == UpgradeOrder[i]
    ensures forall i, j :: 0 <= i < j < |r| ==> r[i].price < r[j].price
    ensures forall i :: 0 <= i < |r| ==> r[i].interval == "monthly"
  {
    [Plan("Free", 0, "monthly", 2, 10, 10, None),
     Plan("Basic", 150000, "monthly", 30, 200, 40, None),
     Plan("Pro", 300000, "monthly", 200, -1, 1024, None)]
  }

  // ---------------------------------------------------------------------
  // Prices
  // ---------------------------------------------------------------------

  const Rupee: char := '\U{20B9}'

  /**
   * `formatPrice` for a whole number of rupees: "Free" for zero, otherwise
   * the rupee sign followed by the price in rupees.
   */
  function FormatPrice(price: int): (r: string)
    requires price % 100 == 0
    ensures price == 0 <==> r == "Free"
    ensures price != 0 ==> |r| > 1 && r[0] == Rupee && ParseInt(r[1..]) == Some(price / 100)
    ensures price != 0 ==> Canonical(r[1..])
  {
    if price == 0 then "Free"
    else
      var rupees := IntToString(price / 100);
      IntToStringRoundTrip(price / 100);
      assert ([Rupee] + rupees)[1..] == rupees;
      [Rupee] + rupees
  }

  /** Distinct prices are displayed differently. */
  lemma FormatPriceInjective(a: int, b: int)
    requires a % 100 == 0 && b % 100 == 0
    ensures FormatPrice(a) == FormatPrice(b) ==> a == b
  {
    if FormatPrice(a) == FormatPrice(b) && a != 0 && b != 0 {
      assert a / 100 == b / 100;
    }
  }

  // ---------------------------------------------------------------------
  // Limits
  // ---------------------------------------------------------------------

  /** One limit for display: "Unlimited" for -1, otherwise its decimal digits. */
  function LimitText(limit: int): (r: string)
    ensures r == "Unlimited" <==> limit == -1
    ensures limit != -1 ==> ParseInt(r) == Some(limit) && Canonical(r)
  {
    if limit == -1 then "Unlimited"
    else
      IntToStringRoundTrip(limit);
      assert IntToString(limit) != "Unlimited" by {
        var s := IntToString(limit);
        assert s[0] == '-' || IsDigit(s[0]);
      }
      IntToString(limit)
  }

  /**
   * The digits `FormatPrice` and `LimitText` show are exactly the numeral
   * `toString` writes; by `CanonicalIsIntToString` their contracts alone
   * already pin that text down.
   */
  lemma DisplayedDigitsAreToString(price: int, limit: int)
    requires price % 100 == 0
    ensures price != 0 ==> FormatPrice(price)[1..] == IntToString(price / 100)
    ensures limit != -1 ==> LimitText(limit) == IntToString(limit)
  {
  }

  /** Distinct limits are displayed differently, "Unlimited" included. */
  lemma LimitTextInjective(a: int, b: int)
    ensures LimitText(a) == LimitText(b) ==> a == b
  {
  }

  datatype LimitDisplay = LimitDisplay(dailyPdfs: string, monthlyPdfs: string, maxFileSize: string, storage: string)

  /** `getPlanLimits`: the limits of a plan as display strings. */
  function PlanLimits(plan: Plan): (r: LimitDisplay)
    ensures r.dailyPdfs == LimitText(plan.dailyPdfLimit)
    ensures r.monthlyPdfs == LimitText(plan.monthlyPdfLimit)
    ensures r.maxFileSize == IntToString(plan.maxFileSizeMb) + " MB"
    ensures plan.name == "Pro" ==> r.storage == "1 TB"
    ensures plan.name == "Basic" ==> r.storage == "40 GB"
    ensures plan.name != "Pro" && plan.name != "Basic" ==> r.storage == "10 GB"
  {
    LimitDisplay(
      LimitText(plan.dailyPdfLimit),
      LimitText(plan.monthlyPdfLimit),
      IntToString(plan.maxFileSizeMb) + " MB",
      if plan.name == "Pro" then "1 TB" else if plan.name == "Basic" then "40 GB" else "10 GB")
  }

  /** Only the Pro plan of the catalogue shows an unlimited monthly allowance. */
  lemma OnlyProIsUnlimited(i: nat)
    requires i < |AvailablePlans()|
    ensures PlanLimits(AvailablePlans()[i]).monthlyPdfs == "Unlimited" <==> AvailablePlans()[i].name == "Pro"
    ensures PlanLimits(AvailablePlans()[i]).dailyPdfs != "Unlimited"
  {
  }

  // ---------------------------------------------------------------------
  // Upgrades
  // ---------------------------------------------------------------------

  /** `canUpgrade(current, target)`: the target lies further along the path (unknown plans at -1). */
  function CanUpgrade(current: string, target: string): (r: bool)
    ensures !IsKnownPlan(target) ==> !r
    ensures !IsKnownPlan(current) ==> (r <==> IsKnownPlan(target))
    ensures current == target ==> !r
    ensures IsKnownPlan(current) && r ==> target != "Free"
  {
    PlanIndex(target) > PlanIndex(current)
  }

  /** The upgrade relation is a strict order. */
  lemma CanUpgradeTransitive(a: string, b: string, c: string)
    ensures CanUpgrade(a, b) && CanUpgrade(b, c) ==> CanUpgrade(a, c)
    ensures CanUpgrade(a, b) ==> !CanUpgrade(b, a)
  {
  }

  /** Along the catalogue, one can upgrade exactly to the plans listed later. */
  lemma CanUpgradeFollowsCatalogue(i: nat, j: nat)
    requires i < |AvailablePlans()| && j < |AvailablePlans()|
    ensures CanUpgrade(AvailablePlans()[i].name, AvailablePlans()[j].name) <==> i < j
  {
    assert PlanIndex(AvailablePlans()[i].name) == i;
    assert PlanIndex(AvailablePlans()[j].name) == j;
  }

  /** The next plan is always an upgrade. */
  lemma NextPlanIsUpgrade(current: string)
    ensures NextPlan(current).Some? ==> CanUpgrade(current, NextPlan(current).value)
    ensures NextPlan(current).None? <==> current == "Pro"
  {
  }
}
