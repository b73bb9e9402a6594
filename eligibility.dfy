/** Step 1 of the quote pipeline (App.tsx:55-59): the catalogue plans offered
    for the chosen category, less the Fênix plans for an individual quote made
    only for minors. */
module Eligibility {
  import opened Seqs
  import opened Text
  import opened Types

  /** `quoteCategory && p.categories.includes(quoteCategory)`. */
  function InCategory(c: Option<QuoteCategory>): HealthPlan -> bool
  {
    (p: HealthPlan) => c.Some? && c.value in p.categories
  }

  /** `p.operator.toLowerCase().includes('fênix')`: only the accented spelling
      matches. */
  predicate IsFenix(p: HealthPlan): (b: bool)
    ensures b <==> exists i :: OccursAt(Lower(p.operator), "fênix", i)
  {
    ContainsAt(Lower(p.operator), "fênix");
    Contains(Lower(p.operator), "fênix")
  }

  predicate NotFenix(p: HealthPlan)
  {
    !IsFenix(p)
  }

  /** `availablePlans`: the plans of `catalog` listing the category, in
      catalogue order; when the category is PF and the quote is solo-minor,
      the Fênix plans are dropped as well. */
  function Eligible(catalog: seq<HealthPlan>, c: Option<QuoteCategory>, soloMinor: bool): (r: seq<HealthPlan>)
    ensures |r| <= |catalog|
    ensures forall p :: p in r <==>
              p in catalog && c.Some? && c.value in p.categories &&
              !(c == Some(PF) && soloMinor && IsFenix(p))
  {
    var byCategory := Filter(catalog, InCategory(c));
    if c == Some(PF) && soloMinor then Filter(byCategory, NotFenix) else byCategory
  }

  /** Without a category no plan is offered. */
  lemma {:induction false} NoCategoryNoPlans(catalog: seq<HealthPlan>, soloMinor: bool)
    ensures Eligible(catalog, None, soloMinor) == []
  {
    FilterNoneSatisfy(catalog, InCategory(None));
  }

  /** Filtering keeps catalogue order: the plans offered from two halves of a
      catalogue are those of the first half followed by those of the second. */
  lemma EligibleKeepsOrder(a: seq<HealthPlan>, b: seq<HealthPlan>, c: Option<QuoteCategory>, soloMinor: bool)
    ensures Eligible(a + b, c, soloMinor) == Eligible(a, c, soloMinor) + Eligible(b, c, soloMinor)
  {
    FilterConcat(a, b, InCategory(c));
    FilterConcat(Filter(a, InCategory(c)), Filter(b, InCategory(c)), NotFenix);
  }

  /** Outside the PF solo-minor case the category is the only criterion, so a
      Fênix plan listing the category is offered. */
  lemma FenixKeptOutsideSoloMinorPF(catalog: seq<HealthPlan>, c: QuoteCategory, soloMinor: bool, p: HealthPlan)
    requires p in catalog && c in p.categories && IsFenix(p)
    requires c != PF || !soloMinor
    ensures p in Eligible(catalog, Some(c), soloMinor)
  {
  }

  /** The exclusion matches the accented 'ê' only: an operator name with no
      'ê' or 'Ê' in it, such as "Fenix", is never excluded. */
  lemma UnaccentedNeverExcluded(p: HealthPlan)
    requires forall i :: 0 <= i < |p.operator| ==> p.operator[i] != 'ê' && p.operator[i] != 'Ê'
    ensures !IsFenix(p)
  {
    NotContainsFenix(Lower(p.operator));
  }

  lemma {:induction false} NotContainsFenix(s: string)
    requires forall i :: 0 <= i < |s| ==> s[i] != 'ê'
    ensures !Contains(s, "fênix")
    decreases |s|
  {
    if |s| >= 5 {
      assert s[..5] != "fênix" by { assert s[1] != 'ê'; }
    }
    if |s| > 0 {
      NotContainsFenix(s[1..]);
    }
  }
}
