/** The quote-flow state of App.tsx: the current screen, the chosen category,
    the bracket counters, the comparison selection and the expanded operator
    headers, with the handlers that move between screens. */
module Flow {
  import opened Seqs
  import opened Types
  import opened Lives
  import opened Pipeline
  import opened Grouping

  /** `AppStep`. */
  datatype Step = TypeSelection | LivesSelection | AgeInput | Results

  /** `handleContinueToResults`'s guard: some lives, exactly one for PME_1, at
      least two for PME_2, and not only minors on a business quote. */
  predicate CanContinue(c: Option<QuoteCategory>, sel: Selection): (b: bool)
    ensures b ==> TotalLives(sel) >= 1
    ensures b && c == Some(PME_1) ==> TotalLives(sel) == 1
    ensures b && c == Some(PME_2) ==> TotalLives(sel) >= 2
  {
    var total := TotalLives(sel);
    !(total == 0) &&
    !(c == Some(PME_1) && total > 1) &&
    !(c == Some(PME_2) && total < 2) &&
    !(IsBusiness(c) && IsSoloMinor(sel))
  }

  /** The `disabled` expression of the continue button. */
  predicate ContinueDisabled(c: Option<QuoteCategory>, sel: Selection): (d: bool)
    ensures d <==> !CanContinue(c, sel)
  {
    var total := TotalLives(sel);
    total == 0 ||
    (IsBusiness(c) && IsSoloMinor(sel)) ||
    (c == Some(PME_1) && total > 1) ||
    (c == Some(PME_2) && total == 1)
  }

  /** The button is disabled exactly when the handler would refuse. */
  lemma ButtonMatchesGuard(c: Option<QuoteCategory>, sel: Selection)
    ensures ContinueDisabled(c, sel) <==> !CanContinue(c, sel)
  {
  }

  /** The guard in terms of the lives entered: at least one life; exactly one
      for PME_1; at least two for PME_2; and for a business quote, some life
      outside the "0-18" bracket. */
  lemma ContinueRules(c: Option<QuoteCategory>, sel: Selection)
    requires Distinct(RangesOf(sel))
    ensures CanContinue(c, sel) <==>
            TotalLives(sel) > 0 &&
            (c == Some(PME_1) ==> TotalLives(sel) == 1) &&
            (c == Some(PME_2) ==> TotalLives(sel) >= 2) &&
            (IsBusiness(c) ==> exists i :: 0 <= i < |sel| && sel[i].range != Range0To18 && sel[i].count > 0)
  {
    SoloMinorMeansOnlyMinors(sel);
    TotalSplits(sel, Range0To18);
    LivesExceptZero(sel, Range0To18);
  }

  /** `getCategoryTitle`. */
  function CategoryTitle(c: Option<QuoteCategory>): (t: string)
    ensures t == "" <==> c.None?
  {
    match c
    case Some(PF) => "Pessoa Física"
    case Some(PME_1) => "CNPJ / MEI (1 Vida)"
    case Some(PME_2) => "CNPJ / MEI (2-29 Vidas)"
    case Some(PME_30) => "CNPJ / MEI (+30 Vidas)"
    case None => ""
  }

  /** Each category has its own non-empty title; no category has none. */
  lemma CategoryTitlesDistinct(c: Option<QuoteCategory>, d: Option<QuoteCategory>)
    ensures CategoryTitle(c) == "" <==> c.None?
    ensures CategoryTitle(c) == CategoryTitle(d) <==> c == d
  {
  }

  /** `expandedOperators[op]`: a missing key reads as collapsed. */
  predicate IsExpanded(m: map<string, bool>, op: string)
  {
    op in m && m[op]
  }

  /** The counter after `Math.max(0, n - 1)`. */
  function Decremented(n: nat): (m: nat)
    ensures n > 0 ==> m + 1 == n
    ensures n == 0 ==> m == 0
  {
    if n > 0 then n - 1 else 0
  }

  class QuoteFlow {
    /** `AGE_RANGES`, the brackets offered. */
    const ranges: seq<AgeRange>
    var step: Step
    var category: Option<QuoteCategory>
    var showLimitAlert: bool
    var comparison: Option<seq<CalculatedPlan>>
    var selection: Selection
    var calculated: seq<CalculatedPlan>
    var grouped: seq<seq<CalculatedPlan>>
    var expanded: map<string, bool>

    /** The selection holds one entry per offered bracket, in `AGE_RANGES`
        order, and the limit alert is never raised (no handler sets it). */
    predicate Valid()
      reads this`selection, this`showLimitAlert
    {
      Distinct(ranges) && RangesOf(selection) == ranges && !showLimitAlert
    }

    constructor(ranges: seq<AgeRange>)
      requires Distinct(ranges)
      ensures Valid()
      ensures this.ranges == ranges && selection == Zeroed(ranges)
      ensures step == TypeSelection && category == None && !showLimitAlert
      ensures comparison == None && calculated == [] && grouped == [] && expanded == map[]
    {
      this.ranges := ranges;
      step := TypeSelection;
      category := None;
      showLimitAlert := false;
      comparison := None;
      selection := Zeroed(ranges);
      calculated := [];
      grouped := [];
      expanded := map[];
    }

    /** `selectCategory`: choose the category, reset every counter, close the
        comparison and go to the age screen. */
    method SelectCategory(c: QuoteCategory)
      requires Valid()
      modifies this
      ensures Valid()
      ensures category == Some(c) && selection == Zeroed(ranges) && TotalLives(selection) == 0
      ensures !showLimitAlert && comparison == None && step == AgeInput
      ensures calculated == old(calculated) && grouped == old(grouped) && expanded == old(expanded)
    {
      category := Some(c);
      selection := Zeroed(ranges);
      ZeroedHasNoLives(ranges);
      showLimitAlert := false;
      comparison := None;
      step := AgeInput;
    }

    /** `goBack`: results to the age screen (closing the comparison); the age
        screen back to the start for PF (dropping the category) or to the
        business-size screen; the business-size screen back to the start. */
    method GoBack()
      requires Valid()
      modifies this
      ensures Valid()
      ensures old(step) == Results ==> step == AgeInput && comparison == None && category == old(category)
      ensures old(step) == AgeInput && old(category) == Some(PF) ==>
                step == TypeSelection && category == None && comparison == old(comparison)
      ensures old(step) == AgeInput && old(category) != Some(PF) ==>
                step == LivesSelection && category == old(category) && comparison == old(comparison)
      ensures old(step) == LivesSelection ==>
                step == TypeSelection && category == old(category) && comparison == old(comparison)
      ensures old(step) == TypeSelection ==>
                step == TypeSelection && category == old(category) && comparison == old(comparison)
      ensures selection == old(selection) && showLimitAlert == old(showLimitAlert)
      ensures calculated == old(calculated) && grouped == old(grouped) && expanded == old(expanded)
    {
      if step == Results {
        step := AgeInput;
        comparison := None;
      } else if step == AgeInput {
        if category == Some(PF) {
          step := TypeSelection;
          category := None;
        } else {
          step := LivesSelection;
        }
      } else if step == LivesSelection {
        step := TypeSelection;
      }
    }

    /** The header logo: back to the start with no category. */
    method GoHome()
      requires Valid()
      modifies this
      ensures Valid()
      ensures step == TypeSelection && category == None
      ensures selection == old(selection) && comparison == old(comparison) && showLimitAlert == old(showLimitAlert)
      ensures calculated == old(calculated) && grouped == old(grouped) && expanded == old(expanded)
    {
      step := TypeSelection;
      category := None;
    }

    /** The "CNPJ e MEI" choice: on to the business-size screen. */
    method ChooseBusiness()
      requires Valid()
      modifies this
      ensures Valid()
      ensures step == LivesSelection
      ensures category == old(category) && selection == old(selection) && comparison == old(comparison)
      ensures showLimitAlert == old(showLimitAlert)
      ensures calculated == old(calculated) && grouped == old(grouped) && expanded == old(expanded)
    {
      step := LivesSelection;
    }

    /** `switchToGroupPlan`, `switchToPME1` and `switchToPF`: change the
        category in place, keeping the screen and the counters. */
    method SwitchTo(c: QuoteCategory)
      requires Valid()
      modifies this
      ensures Valid()
      ensures category == Some(c) && !showLimitAlert
      ensures step == old(step) && selection == old(selection) && comparison == old(comparison)
      ensures calculated == old(calculated) && grouped == old(grouped) && expanded == old(expanded)
    {
      category := Some(c);
      showLimitAlert := false;
    }

    /** `handleIncrement`: one more life in bracket `r`; no other bracket
        changes. */
    method Increment(r: AgeRange)
      requires Valid() && r in ranges
      modifies this
      ensures Valid()
      ensures selection == SetCount(old(selection), r, old(Count(selection, r)) + 1)
      ensures Count(selection, r) == old(Count(selection, r)) + 1
      ensures forall q :: q != r ==> Count(selection, q) == old(Count(selection, q))
      ensures TotalLives(selection) == old(TotalLives(selection)) + 1
      ensures !showLimitAlert
      ensures step == old(step) && category == old(category) && comparison == old(comparison)
      ensures calculated == old(calculated) && grouped == old(grouped) && expanded == old(expanded)
    {
      var n := Count(selection, r) + 1;
      var next := SetCount(selection, r, n);
      forall q ensures Count(next, q) == if q == r then n else Count(selection, q) {
        CountAfterSetCount(selection, r, n, q);
      }
      TotalAfterSetCount(selection, r, n);
      StoreSelection(next);
    }

    /** `handleDecrement`: one life less in bracket `r`, never below zero; no
        other bracket changes. */
    method Decrement(r: AgeRange)
      requires Valid() && r in ranges
      modifies this
      ensures Valid()
      ensures selection == SetCount(old(selection), r, Decremented(old(Count(selection, r))))
      ensures Count(selection, r) == Decremented(old(Count(selection, r)))
      ensures forall q :: q != r ==> Count(selection, q) == old(Count(selection, q))
      ensures TotalLives(selection) == old(TotalLives(selection)) - old(Count(selection, r)) + Count(selection, r)
      ensures !showLimitAlert
      ensures step == old(step) && category == old(category) && comparison == old(comparison)
      ensures calculated == old(calculated) && grouped == old(grouped) && expanded == old(expanded)
    {
      var n := Decremented(Count(selection, r));
      var next := SetCount(selection, r, n);
      forall q ensures Count(next, q) == if q == r then n else Count(selection, q) {
        CountAfterSetCount(selection, r, n, q);
      }
      TotalAfterSetCount(selection, r, n);
      StoreSelection(next);
    }

    /** The counter update shared by both handlers; it also hides the limit
        alert. */
    method StoreSelection(next: Selection)
      requires Valid() && RangesOf(next) == ranges
      modifies this
      ensures Valid()
      ensures selection == next && !showLimitAlert
      ensures step == old(step) && category == old(category) && comparison == old(comparison)
      ensures calculated == old(calculated) && grouped == old(grouped) && expanded == old(expanded)
    {
      selection := next;
      showLimitAlert := false;
    }

    /** `handleComparePlans`. */
    method ComparePlans(plans: seq<CalculatedPlan>)
      requires Valid()
      modifies this
      ensures Valid()
      ensures comparison == Some(plans)
      ensures step == old(step) && category == old(category) && selection == old(selection)
      ensures showLimitAlert == old(showLimitAlert)
      ensures calculated == old(calculated) && grouped == old(grouped) && expanded == old(expanded)
    {
      comparison := Some(plans);
    }

    /** The comparison modal's `onClose`. */
    method CloseComparison()
      requires Valid()
      modifies this
      ensures Valid()
      ensures comparison == None
      ensures step == old(step) && category == old(category) && selection == old(selection)
      ensures showLimitAlert == old(showLimitAlert)
      ensures calculated == old(calculated) && grouped == old(grouped) && expanded == old(expanded)
    {
      comparison := None;
    }

    /** `handleContinueToResults`: go to the results when the guard allows;
        entering the results collapses every operator header. */
    method ContinueToResults()
      requires Valid()
      modifies this
      ensures Valid()
      ensures CanContinue(old(category), old(selection)) ==> step == Results
      ensures !CanContinue(old(category), old(selection)) ==> step == old(step)
      ensures expanded == if old(step) != Results && step == Results then map[] else old(expanded)
      ensures category == old(category) && selection == old(selection) && comparison == old(comparison)
      ensures showLimitAlert == old(showLimitAlert)
      ensures calculated == old(calculated) && grouped == old(grouped)
    {
      if !CanContinue(category, selection) {
        return;
      }
      if step != Results {
        expanded := map[];
      }
      step := Results;
    }

    /** `toggleOperator`: flip one operator header, collapsed when missing. */
    method ToggleOperator(op: string)
      requires Valid()
      modifies this
      ensures Valid()
      ensures IsExpanded(expanded, op) == !old(IsExpanded(expanded, op))
      ensures forall o :: o != op ==> IsExpanded(expanded, o) == old(IsExpanded(expanded, o))
      ensures expanded == old(expanded)[op := !IsExpanded(old(expanded), op)]
      ensures step == old(step) && category == old(category) && selection == old(selection)
      ensures comparison == old(comparison) && showLimitAlert == old(showLimitAlert)
      ensures calculated == old(calculated) && grouped == old(grouped)
    {
      expanded := expanded[op := !IsExpanded(expanded, op)];
    }

    /** The calculation effect, run after the selection or the category
        changed. */
    method Recalculate(catalog: seq<HealthPlan>)
      requires Valid()
      modifies this
      ensures Valid()
      ensures calculated == Quote(catalog, category, selection)
      ensures grouped == GroupBy(calculated, VariantKey)
      ensures step == old(step) && category == old(category) && selection == old(selection)
      ensures comparison == old(comparison) && showLimitAlert == old(showLimitAlert) && expanded == old(expanded)
    {
      var plans, groups := RunCalculation(catalog, category, selection);
      Store(plans, groups);
    }

    /** The two state updates at the end of the effect. */
    method Store(plans: seq<CalculatedPlan>, groups: seq<seq<CalculatedPlan>>)
      requires Valid()
      modifies this
      ensures Valid()
      ensures calculated == plans && grouped == groups
      ensures step == old(step) && category == old(category) && selection == old(selection)
      ensures comparison == old(comparison) && showLimitAlert == old(showLimitAlert) && expanded == old(expanded)
    {
      calculated := plans;
      grouped := groups;
    }
  }
}
