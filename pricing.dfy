/** Step 3 of the quote pipeline (App.tsx:67-76): the price breakdown of one
    plan for the active brackets. */
module Pricing {
  import opened Types
  import opened Seqs
  import opened Lives

  /** `plan.prices[range] || 0`: a bracket the plan has no price for costs 0. */
  function UnitPrice(p: HealthPlan, r: AgeRange): int
  {
    if r in p.prices then p.prices[r] else 0
  }

  /** The breakdown line of one bracket. */
  function DetailOf(p: HealthPlan, e: Entry): Detail
  {
    Detail(e.range, e.count, UnitPrice(p, e.range), UnitPrice(p, e.range) * e.count)
  }

  /** One breakdown line per entry, in entry order. */
  function Details(p: HealthPlan, active: Selection): (ds: seq<Detail>)
    ensures |ds| == |active|
  {
    seq(|active|, i requires 0 <= i < |active| => DetailOf(p, active[i]))
  }

  /** The price of the entries for plan `p`: each bracket's unit price times
      its count, added up left to right. */
  function Cost(p: HealthPlan, sel: Selection): int
  {
    if sel == [] then 0
    else Cost(p, sel[..|sel| - 1]) + UnitPrice(p, sel[|sel| - 1].range) * sel[|sel| - 1].count
  }

  /** The subtotals of a breakdown, in order. */
  function Subtotals(ds: seq<Detail>): (r: seq<int>)
    ensures |r| == |ds|
  {
    seq(|ds|, i requires 0 <= i < |ds| => ds[i].subtotal)
  }

  /** The calculated plan the source builds for `p`. */
  function Calculate(p: HealthPlan, active: Selection): CalculatedPlan
  {
    CalculatedPlan(p, Cost(p, active), Details(p, active))
  }

  /** The pricing loop: the breakdown lists exactly the given brackets, in
      order, with their unit price (0 when missing), count and subtotal, and
      the total is the sum of the subtotals. */
  method PricePlan(p: HealthPlan, active: Selection) returns (cp: CalculatedPlan)
    ensures cp == Calculate(p, active)
    ensures cp.plan == p && |cp.details| == |active|
    ensures forall i :: 0 <= i < |active| ==>
              cp.details[i].ageRange == active[i].range &&
              cp.details[i].count == active[i].count &&
              cp.details[i].unitPrice == UnitPrice(p, active[i].range) &&
              cp.details[i].subtotal == cp.details[i].unitPrice * cp.details[i].count
    ensures cp.totalPrice == Sum(Subtotals(cp.details))
  {
    var total := 0;
    var details: seq<Detail> := [];
    for i := 0 to |active|
      invariant total == Cost(p, active[..i])
      invariant details == Details(p, active[..i])
    {
      var range := active[i].range;
      var count := active[i].count;
      var price := UnitPrice(p, range);
      var subtotal := price * count;
      total := total + subtotal;
      details := details + [Detail(range, count, price, subtotal)];
      assert active[..i + 1][..i] == active[..i];
    }
    assert active[..|active|] == active;
    cp := CalculatedPlan(p, total, details);
    TotalIsSumOfSubtotals(p, active);
  }

  /** A calculated plan's breakdown adds up to its total exactly. */
  lemma {:induction false} TotalIsSumOfSubtotals(p: HealthPlan, active: Selection)
    ensures Sum(Subtotals(Calculate(p, active).details)) == Calculate(p, active).totalPrice
    decreases |active|
  {
    if active != [] {
      var n := |active| - 1;
      var subs := Subtotals(Details(p, active));
      assert subs[..n] == Subtotals(Details(p, active[..n]));
      assert subs[n] == UnitPrice(p, active[n].range) * active[n].count;
      TotalIsSumOfSubtotals(p, active[..n]);
    }
  }

  /** Pricing only the active brackets gives the same total as pricing the
      whole selection: a bracket with no lives adds nothing. */
  lemma {:induction false} ActiveCostIsFullCost(p: HealthPlan, sel: Selection)
    ensures Cost(p, ActiveAges(sel)) == Cost(p, sel)
    decreases |sel|
  {
    if sel != [] {
      var init := sel[..|sel| - 1];
      var last := sel[|sel| - 1];
      assert sel == init + [last];
      FilterSnoc(init, last, IsActive);
      ActiveCostIsFullCost(p, init);
      if IsActive(last) {
        var a := ActiveAges(init) + [last];
        assert a[..|a| - 1] == ActiveAges(init);
      }
    }
  }

  /** With no negative price in the table, no total is negative. */
  lemma {:induction false} CostNonNegative(p: HealthPlan, sel: Selection)
    requires forall r :: r in p.prices ==> p.prices[r] >= 0
    ensures Cost(p, sel) >= 0
    decreases |sel|
  {
    if sel != [] {
      CostNonNegative(p, sel[..|sel| - 1]);
    }
  }

  /** Adding one life to a bracket adds that bracket's unit price. */
  lemma {:induction false} CostOfOneMoreLife(p: HealthPlan, sel: Selection, e: Entry)
    ensures Cost(p, sel + [Entry(e.range, e.count + 1)]) == Cost(p, sel + [e]) + UnitPrice(p, e.range)
  {
    assert (sel + [Entry(e.range, e.count + 1)])[..|sel|] == sel;
    assert (sel + [e])[..|sel|] == sel;
  }
}
