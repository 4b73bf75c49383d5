/**
 * The plan limits are written out three times: in the payment catalogue,
 * in the analytics limit table and in the profile display table. This
 * module states how the three agree.
 */
module PlanTables {
  import opened Optional
  import opened Decimal
  import opened PlanOrder
  import Payments
  import Analytics
  import Profiles
  import Records

  /** The catalogue entry of a plan on the upgrade path. */
  function CatalogueEntry(name: string): (r: Payments.Plan)
    requires IsKnownPlan(name)
    ensures r in Payments.AvailablePlans() && r.name == name
  {
    Payments.AvailablePlans()[PlanIndex(name)]
  }

  /** The analytics table has exactly the plans of the upgrade path, and the catalogue's limits. */
  lemma AnalyticsMatchesCatalogue(name: string)
    ensures name in Analytics.LimitTable <==> IsKnownPlan(name)
    ensures IsKnownPlan(name) ==>
      var plan, limits := CatalogueEntry(name), Analytics.PlanLimits(name);
      && limits.dailyPdfLimit == plan.dailyPdfLimit
      && limits.monthlyPdfLimit == plan.monthlyPdfLimit
      && limits.maxFileSize == plan.maxFileSizeMb
  {
  }

  /** Storage shown by the payment screen is the analytics storage limit in binary units. */
  lemma StorageTextMatchesStorageLimit(name: string)
    requires IsKnownPlan(name)
    ensures var shown := Payments.PlanLimits(CatalogueEntry(name)).storage;
      var mb := Analytics.PlanLimits(name).storageLimit;
      && (shown == "10 GB" ==> mb == 10 * 1024)
      && (shown == "40 GB" ==> mb == 40 * 1024)
      && (shown == "1 TB" ==> mb == 1024 * 1024)
  {
  }

  /** The profile display table shows the catalogue's daily and monthly limits. */
  lemma ProfileDisplayMatchesCatalogue(name: string)
    requires IsKnownPlan(name)
    ensures var plan, shown := CatalogueEntry(name), Profiles.PlanLimits(name);
      && shown.dailyPdfs == plan.dailyPdfLimit
      && (shown.monthlyPdfs.Number? ==> shown.monthlyPdfs.n == plan.monthlyPdfLimit)
      && (shown.monthlyPdfs.Text? <==> plan.monthlyPdfLimit == -1)
      && (shown.monthlyPdfs.Text? ==> shown.monthlyPdfs.s == Payments.LimitText(-1))
  {
  }

  /** The decimal texts of the two file sizes given in MB. */
  lemma FileSizeDigits()
    ensures IntToString(10) == "10" && IntToString(40) == "40"
  {
    assert NatToString(10) == NatToString(1) + [DigitChar(0)];
    assert NatToString(40) == NatToString(4) + [DigitChar(0)];
  }

  /** The payment screen shows the Free and Basic file sizes as "10 MB" and "40 MB". */
  lemma CatalogueFileSizeTexts()
    ensures Payments.PlanLimits(Payments.AvailablePlans()[0]).maxFileSize == "10 MB"
    ensures Payments.PlanLimits(Payments.AvailablePlans()[1]).maxFileSize == "40 MB"
  {
    FileSizeDigits();
    assert Payments.AvailablePlans()[0].maxFileSizeMb == 10;
    assert Payments.AvailablePlans()[1].maxFileSizeMb == 40;
  }

  /** The file-size text in the profile table names the catalogue's size; for Pro it is given in GB. */
  lemma ProfileFileSizeMatchesCatalogue(name: string)
    requires IsKnownPlan(name)
    ensures var plan, shown := CatalogueEntry(name), Profiles.PlanLimits(name);
      && (name != "Pro" ==> shown.maxFileSize == Payments.PlanLimits(plan).maxFileSize)
      && (name == "Pro" ==> shown.maxFileSize == "1 GB" && plan.maxFileSizeMb == 1024)
  {
    CatalogueFileSizeTexts();
  }

  /**
   * Every source of fallback limits gives the Free plan's limits; the
   * analytics lookup as written does so for every name it does not inherit.
   */
  lemma FallbacksAreFree(name: string)
    requires !IsKnownPlan(name)
    ensures name !in Records.PrototypeKeys ==>
      Analytics.PlanLimitsAsWritten(name) == Analytics.Record(Analytics.DefaultLimits)
    ensures Analytics.PlanLimits(name) == Analytics.DefaultLimits
    ensures Profiles.PlanLimits(name) == Profiles.PlanLimits("Free")
  {
  }
}
