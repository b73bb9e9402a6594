/** The price summary table (components/PriceSummaryTable.tsx): one row per
    variant group with the "without" and "with coparticipation" totals, styled
    after the operator's logo colour; clicking a row opens its details. */
module PriceSummary {
  import opened Seqs
  import opened Text
  import opened Types
  import opened PlanCard
  import opened PlanDetails

  datatype Styles = Styles(borderLeft: string, text: string, bgHover: string, badge: string)

  const GrayStyles := Styles("border-l-gray-400", "text-gray-700", "group-hover:bg-gray-50", "bg-gray-100 text-gray-600")
  const Blue900Styles := Styles("border-l-blue-900", "text-blue-900", "group-hover:bg-blue-50", "bg-blue-100 text-blue-900")
  const Teal600Styles := Styles("border-l-teal-600", "text-teal-700", "group-hover:bg-teal-50", "bg-teal-100 text-teal-700")
  const Slate900Styles := Styles("border-l-slate-900", "text-slate-900", "group-hover:bg-slate-100", "bg-slate-200 text-slate-900")
  const Orange500Styles := Styles("border-l-orange-500", "text-orange-600", "group-hover:bg-orange-50", "bg-orange-100 text-orange-700")
  const Amber600Styles := Styles("border-l-amber-600", "text-amber-700", "group-hover:bg-amber-50", "bg-amber-100 text-amber-800")
  const Amber500Styles := Styles("border-l-amber-500", "text-amber-600", "group-hover:bg-amber-50", "bg-amber-100 text-amber-700")
  const Orange700Styles := Styles("border-l-orange-700", "text-orange-800", "group-hover:bg-orange-50", "bg-orange-100 text-orange-800")
  const Slate600Styles := Styles("border-l-slate-600", "text-slate-700", "group-hover:bg-slate-100", "bg-slate-200 text-slate-700")
  const Green600Styles := Styles("border-l-green-600", "text-green-700", "group-hover:bg-green-50", "bg-green-100 text-green-700")
  const Blue600Styles := Styles("border-l-blue-600", "text-blue-700", "group-hover:bg-blue-50", "bg-blue-100 text-blue-700")
  const BrandTealStyles := Styles("border-l-[#009CA6]", "text-[#009CA6]", "group-hover:bg-teal-50", "bg-teal-100 text-[#009CA6]")

  /** `getPlanStyles`: the if-chain on the logo colour class, gray otherwise. */
  function PlanStyles(logoColorClass: string): (r: Styles)
    ensures r in [GrayStyles, Blue900Styles, Teal600Styles, Slate900Styles, Orange500Styles, Amber600Styles,
                  Amber500Styles, Orange700Styles, Slate600Styles, Green600Styles, Blue600Styles, BrandTealStyles]
    ensures Contains(logoColorClass, "blue-900") ==> r == Blue900Styles
  {
    var c := logoColorClass;
    if Contains(c, "blue-900") then Blue900Styles
    else if Contains(c, "teal-600") then Teal600Styles
    else if Contains(c, "slate-900") then Slate900Styles
    else if Contains(c, "orange-500") then Orange500Styles
    else if Contains(c, "amber-600") then Amber600Styles
    else if Contains(c, "amber-500") then Amber500Styles
    else if Contains(c, "orange-700") then Orange700Styles
    else if Contains(c, "slate-600") then Slate600Styles
    else if Contains(c, "green-600") then Green600Styles
    else if Contains(c, "blue-600") then Blue600Styles
    else if Contains(c, "009CA6") then BrandTealStyles
    else GrayStyles
  }

  /** A colour substring and the styles it selects. */
  datatype StyleRule = StyleRule(needle: string, styles: Styles)

  /** The colours in the order they are tested. */
  const StyleRules: seq<StyleRule> := [
    StyleRule("blue-900", Blue900Styles),
    StyleRule("teal-600", Teal600Styles),
    StyleRule("slate-900", Slate900Styles),
    StyleRule("orange-500", Orange500Styles),
    StyleRule("amber-600", Amber600Styles),
    StyleRule("amber-500", Amber500Styles),
    StyleRule("orange-700", Orange700Styles),
    StyleRule("slate-600", Slate600Styles),
    StyleRule("green-600", Green600Styles),
    StyleRule("blue-600", Blue600Styles),
    StyleRule("009CA6", BrandTealStyles)
  ]

  /** The styles of the first rule whose colour occurs in `c`, gray if none. */
  function FirstMatchStyles(rules: seq<StyleRule>, c: string): Styles
  {
    if rules == [] then GrayStyles
    else if Contains(c, rules[0].needle) then rules[0].styles
    else FirstMatchStyles(rules[1..], c)
  }

  /** The search returns the styles of the earliest matching rule. */
  lemma {:induction false} FirstMatchStylesIsEarliest(rules: seq<StyleRule>, c: string, i: nat)
    requires i < |rules| && Contains(c, rules[i].needle)
    requires forall j :: 0 <= j < i ==> !Contains(c, rules[j].needle)
    ensures FirstMatchStyles(rules, c) == rules[i].styles
  {
    if i > 0 {
      assert !Contains(c, rules[0].needle);
      assert rules[1..][i - 1] == rules[i];
      FirstMatchStylesIsEarliest(rules[1..], c, i - 1);
    }
  }

  /** With no matching rule the search returns gray. */
  lemma {:induction false} FirstMatchStylesNone(rules: seq<StyleRule>, c: string)
    requires forall j :: 0 <= j < |rules| ==> !Contains(c, rules[j].needle)
    ensures FirstMatchStyles(rules, c) == GrayStyles
  {
    if rules != [] {
      assert !Contains(c, rules[0].needle);
      FirstMatchStylesNone(rules[1..], c);
    }
  }

  /** `getPlanStyles` is the first-match reading of the rule list, so a class
      holding both "blue-900" and "blue-600" (or "amber-600" and "amber-500")
      gets the earlier rule's styles. */
  lemma PlanStylesIsFirstMatch(c: string)
    ensures PlanStyles(c) == FirstMatchStyles(StyleRules, c)
  {
    var rs := StyleRules;
    StyleRulesRows();
    var k: nat := 0;
    while k < |rs| && !Contains(c, rs[k].needle)
      invariant k <= |rs|
      invariant forall j :: 0 <= j < k ==> !Contains(c, rs[j].needle)
    {
      k := k + 1;
    }
    if k < |rs| {
      FirstMatchStylesIsEarliest(rs, c, k);
    } else {
      FirstMatchStylesNone(rs, c);
    }
  }

  lemma StyleRulesRows()
    ensures |StyleRules| == 11
    ensures StyleRules[0] == StyleRule("blue-900", Blue900Styles)
    ensures StyleRules[1] == StyleRule("teal-600", Teal600Styles)
    ensures StyleRules[2] == StyleRule("slate-900", Slate900Styles)
    ensures StyleRules[3] == StyleRule("orange-500", Orange500Styles)
    ensures StyleRules[4] == StyleRule("amber-600", Amber600Styles)
    ensures StyleRules[5] == StyleRule("amber-500", Amber500Styles)
    ensures StyleRules[6] == StyleRule("orange-700", Orange700Styles)
    ensures StyleRules[7] == StyleRule("slate-600", Slate600Styles)
    ensures StyleRules[8] == StyleRule("green-600", Green600Styles)
    ensures StyleRules[9] == StyleRule("blue-600", Blue600Styles)
    ensures StyleRules[10] == StyleRule("009CA6", BrandTealStyles)
  {
  }

  /** A price cell: a total, or "Indisponível". */
  datatype Cell = Amount(total: int) | Unavailable

  function CellOf(v: Option<CalculatedPlan>): Cell
  {
    if v.Some? then Amount(v.value.totalPrice) else Unavailable
  }

  datatype Row = Row(operator: string, name: string, styles: Styles, noCopart: Cell, withCopart: Cell)

  /** The row of one variant group: operator, name and logo colour of its first
      variant, then the two variants' totals. */
  function RowOf(group: seq<CalculatedPlan>): Row
    requires |group| > 0
  {
    var base := group[0].plan;
    Row(base.operator, base.name, PlanStyles(base.logoColor),
        CellOf(NoCopartVariant(group)), CellOf(FullVariant(group)))
  }

  /** One row per group, in the order of the groups. */
  function Rows(groups: seq<seq<CalculatedPlan>>): (rows: seq<Row>)
    requires forall i :: 0 <= i < |groups| ==> |groups[i]| > 0
    ensures |rows| == |groups|
    ensures forall i :: 0 <= i < |groups| ==> rows[i] == RowOf(groups[i])
  {
    seq(|groups|, i requires 0 <= i < |groups| => RowOf(groups[i]))
  }

  /** A row's cells carry the same variants the product card shows: a cell is
      "Indisponível" exactly when the card's slot is empty, and otherwise shows
      the total of the first variant of that kind. */
  lemma RowMatchesCard(group: seq<CalculatedPlan>)
    requires |group| > 0
    ensures var card := CardOf(group).value;
            var row := RowOf(group);
            row.operator == card.basePlan.operator && row.name == card.basePlan.name &&
            (row.withCopart.Unavailable? <==> card.fullBlock.None?) &&
            (row.noCopart.Unavailable? <==> card.showsUnavailable) &&
            (card.fullBlock.Some? ==> row.withCopart == Amount(card.fullBlock.value.totalPrice)) &&
            (card.noCopartBlock.Some? ==> row.noCopart == Amount(card.noCopartBlock.value.totalPrice))
  {
  }

  /** The table's row selection (`selectedGroup`). */
  class SummaryTable {
    var selectedGroup: Option<seq<CalculatedPlan>>

    constructor()
      ensures selectedGroup == None
    {
      selectedGroup := None;
    }

    /** The details modal, open when a row is selected. */
    function Details(): Option<ModalContent>
      reads this
    {
      if selectedGroup.Some? then ContentOf(Variants(selectedGroup.value)) else None
    }

    /** Clicking row `i` selects exactly that group; the modal then shows its
        first variant's plan and all its variants. */
    method SelectRow(groups: seq<seq<CalculatedPlan>>, i: nat)
      requires i < |groups|
      modifies this
      ensures selectedGroup == Some(groups[i])
      ensures |groups[i]| > 0 ==> Details() == Some(ModalContent(groups[i][0].plan, groups[i]))
    {
      selectedGroup := Some(groups[i]);
    }

    /** The modal's `onClose`. */
    method CloseDetails()
      modifies this
      ensures selectedGroup == None && Details() == None
    {
      selectedGroup := None;
    }
  }
}
