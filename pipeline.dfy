/** The calculation effect of App.tsx (lines 53-116): from the catalogue, the
    category and the bracket selection to the ranked calculated plans and their
    variant groups. */
module Pipeline {
  import opened Seqs
  import opened Types
  import opened Lives
  import opened Eligibility
  import opened Pricing
  import opened Ranking
  import opened Grouping

  /** `availablePlans.map(...)`: every plan priced for the active brackets. */
  function PriceAll(plans: seq<HealthPlan>, active: Selection): (r: seq<CalculatedPlan>)
    ensures |r| == |plans|
    ensures forall i :: 0 <= i < |plans| ==> r[i] == Calculate(plans[i], active)
  {
    seq(|plans|, i requires 0 <= i < |plans| => Calculate(plans[i], active))
  }

  /** `calculatedPlans`: nothing when no bracket holds a life, otherwise the
      eligible plans, priced and ranked. */
  function Quote(catalog: seq<HealthPlan>, c: Option<QuoteCategory>, sel: Selection): (r: seq<CalculatedPlan>)
    ensures |r| <= |catalog|
    ensures forall i, j :: 0 <= i < j < |r| ==>
              Weight(r[i].plan) < Weight(r[j].plan) ||
              (Weight(r[i].plan) == Weight(r[j].plan) && r[i].totalPrice <= r[j].totalPrice)
  {
    var active := ActiveAges(sel);
    if active == [] then []
    else Rank(PriceAll(Eligible(catalog, c, IsSoloMinor(sel)), active))
  }

  /** The calculation effect. The pricing loop runs once per eligible plan, the
      ranked list is then grouped by variant key in one pass. */
  method RunCalculation(catalog: seq<HealthPlan>, c: Option<QuoteCategory>, sel: Selection)
    returns (calculated: seq<CalculatedPlan>, grouped: seq<seq<CalculatedPlan>>)
    ensures calculated == Quote(catalog, c, sel)
    ensures grouped == GroupBy(calculated, VariantKey)
  {
    var active := ActiveAges(sel);
    var available := Eligible(catalog, c, IsSoloMinor(sel));
    if |active| == 0 {
      calculated, grouped := [], [];
      GroupByEmpty(VariantKey);
      return;
    }
    var results := PriceEach(available, active);
    calculated := Rank(results);
    var keys;
    keys, grouped := GroupInOrder(calculated, VariantKey);
  }

  /** `availablePlans.map(...)`: the pricing loop run once per plan, in
      order. */
  method PriceEach(plans: seq<HealthPlan>, active: Selection) returns (results: seq<CalculatedPlan>)
    ensures results == PriceAll(plans, active)
  {
    results := [];
    for i := 0 to |plans|
      invariant results == PriceAll(plans[..i], active)
    {
      var cp := PricePlan(plans[i], active);
      results := results + [cp];
    }
    assert plans[..|plans|] == plans;
  }

  /** With no lives entered, both the calculated plans and the groups are
      empty. */
  lemma QuoteEmptyWithoutLives(catalog: seq<HealthPlan>, c: Option<QuoteCategory>, sel: Selection)
    requires TotalLives(sel) == 0
    ensures Quote(catalog, c, sel) == []
    ensures GroupBy(Quote(catalog, c, sel), VariantKey) == []
  {
    NoActiveIffNoLives(sel);
    GroupByEmpty(VariantKey);
  }

  /** Once a life is entered, every eligible plan is quoted exactly once, missing
      prices or not: the quote is a rearrangement of the priced eligible plans. */
  lemma QuoteKeepsEveryEligiblePlan(catalog: seq<HealthPlan>, c: Option<QuoteCategory>, sel: Selection)
    requires TotalLives(sel) > 0
    ensures var priced := PriceAll(Eligible(catalog, c, IsSoloMinor(sel)), ActiveAges(sel));
            multiset(Quote(catalog, c, sel)) == multiset(priced) &&
            |Quote(catalog, c, sel)| == |Eligible(catalog, c, IsSoloMinor(sel))|
  {
    NoActiveIffNoLives(sel);
  }

  /** Every quoted plan is an eligible catalogue plan priced for the selection:
      it lists the category, it is not a Fênix plan in a PF solo-minor quote,
      and its total is the price of the whole selection. */
  lemma QuotedPlansAreEligible(catalog: seq<HealthPlan>, c: Option<QuoteCategory>, sel: Selection, cp: CalculatedPlan)
    requires cp in Quote(catalog, c, sel)
    ensures cp.plan in catalog && c.Some? && c.value in cp.plan.categories
    ensures !(c == Some(PF) && IsSoloMinor(sel) && IsFenix(cp.plan))
    ensures cp == Calculate(cp.plan, ActiveAges(sel))
    ensures cp.totalPrice == Cost(cp.plan, sel)
  {
    var active := ActiveAges(sel);
    var priced := PriceAll(Eligible(catalog, c, IsSoloMinor(sel)), active);
    assert cp in multiset(Quote(catalog, c, sel));
    assert cp in priced;
    var i :| 0 <= i < |priced| && priced[i] == cp;
    ActiveCostIsFullCost(cp.plan, sel);
  }

  /** Conversely, each eligible plan appears in the quote with its price. */
  lemma EligiblePlansAreQuoted(catalog: seq<HealthPlan>, c: Option<QuoteCategory>, sel: Selection, p: HealthPlan)
    requires TotalLives(sel) > 0
    requires p in Eligible(catalog, c, IsSoloMinor(sel))
    ensures Calculate(p, ActiveAges(sel)) in Quote(catalog, c, sel)
  {
    NoActiveIffNoLives(sel);
    var e := Eligible(catalog, c, IsSoloMinor(sel));
    var priced := PriceAll(e, ActiveAges(sel));
    var i :| 0 <= i < |e| && e[i] == p;
    assert priced[i] in multiset(priced);
  }
}
