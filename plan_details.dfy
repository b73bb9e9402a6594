/** The plan details modal (components/PlanDetailsModal.tsx): which plan and
    variants it shows, and its grace-period tabs. */
module PlanDetails {
  import opened Seqs
  import opened Types

  /** `planOrVariants`: a variant group or a single catalogue plan. */
  datatype ModalInput = Variants(group: seq<CalculatedPlan>) | SinglePlan(plan: HealthPlan)

  datatype ModalContent = ModalContent(basePlan: HealthPlan, variants: seq<CalculatedPlan>)

  /** The base plan and the variant list; an empty group renders nothing. */
  function ContentOf(input: ModalInput): (r: Option<ModalContent>)
    ensures r.None? <==> input == Variants([])
    ensures input.Variants? && r.Some? ==>
              r.value.basePlan == input.group[0].plan && r.value.variants == input.group
    ensures input.SinglePlan? ==> r == Some(ModalContent(input.plan, []))
  {
    match input
    case Variants(group) => if |group| == 0 then None else Some(ModalContent(group[0].plan, group))
    case SinglePlan(plan) => Some(ModalContent(plan, []))
  }

  /** The values `gracePeriodTab` is ever set to. */
  datatype Tab = Normal | Red1 | Red2 | Standard | Reduced

  const AmhemedOperator := "Amhemed"
  const FenixOperator := "Fênix Medical"

  /** The initial tab: 'standard' for Fênix Medical, 'normal' otherwise. */
  function InitialTab(base: HealthPlan): Tab
  {
    if base.operator == FenixOperator then Standard else Normal
  }

  /** The tab buttons the modal offers for an operator. */
  function TabButtons(base: HealthPlan): seq<Tab>
  {
    if base.operator == AmhemedOperator then [Normal, Red1, Red2]
    else if base.operator == FenixOperator then [Standard, Reduced]
    else []
  }

  /** Where the grace periods shown come from: a row of the Amhemed table, the
      standard or reduced Fênix table, or the plan's own list. */
  datatype GraceSource = AmhemedTable(tab: Tab) | FenixTable(reduced: bool) | PlanList(periods: seq<string>)

  /** `renderGracePeriodContent`'s choice of data. */
  function GraceContent(base: HealthPlan, tab: Tab): (r: GraceSource)
    ensures r.AmhemedTable? <==> base.operator == AmhemedOperator
    ensures r.FenixTable? <==> base.operator == FenixOperator
    ensures r.AmhemedTable? ==> r.tab == tab
    ensures r.FenixTable? ==> (r.reduced <==> tab == Reduced)
    ensures r.PlanList? ==> r.periods == base.gracePeriods
  {
    if base.operator == AmhemedOperator then AmhemedTable(tab)
    else if base.operator == FenixOperator then FenixTable(tab == Reduced)
    else PlanList(base.gracePeriods)
  }

  /** The Fênix 'standard' button is lit for 'standard' and for 'normal'. */
  predicate FenixStandardActive(tab: Tab)
  {
    tab == Standard || tab == Normal
  }

  /** Operators other than Amhemed and Fênix Medical show their own list,
      whatever the tab; Fênix shows the reduced table only on 'reduced'. */
  lemma GraceContentCases(base: HealthPlan, tab: Tab)
    ensures base.operator != AmhemedOperator && base.operator != FenixOperator ==>
              GraceContent(base, tab) == PlanList(base.gracePeriods)
    ensures base.operator == FenixOperator ==>
              (GraceContent(base, tab) == FenixTable(true) <==> tab == Reduced)
  {
  }

  /** The tab state of one open modal. */
  class GraceTabs {
    const basePlan: HealthPlan
    var tab: Tab

    /** The tab is always one the Amhemed table has a row for (for Amhemed),
        one of the two Fênix tabs (for Fênix Medical), or 'normal'. */
    predicate Valid()
      reads this
    {
      (basePlan.operator == AmhemedOperator ==> tab in [Normal, Red1, Red2]) &&
      (basePlan.operator == FenixOperator ==> tab in [Standard, Reduced]) &&
      (basePlan.operator != AmhemedOperator && basePlan.operator != FenixOperator ==> tab == Normal)
    }

    constructor(base: HealthPlan)
      ensures Valid()
      ensures basePlan == base && tab == InitialTab(base)
    {
      basePlan := base;
      tab := InitialTab(base);
    }

    /** A tab button click. */
    method Select(t: Tab)
      requires Valid() && t in TabButtons(basePlan)
      modifies this
      ensures Valid()
      ensures tab == t
    {
      tab := t;
    }

    /** On an open Fênix modal the 'standard' button is lit exactly when the
        standard table is shown. */
    lemma FenixButtonMatchesData()
      requires Valid() && basePlan.operator == FenixOperator
      ensures FenixStandardActive(tab) <==> GraceContent(basePlan, tab) == FenixTable(false)
    {
    }
  }
}
