/** A product card (components/PlanCard.tsx): one variant group, split into
    its "with coparticipation" variant and its "without (or partial)" variant. */
module PlanCard {
  import opened Seqs
  import opened Types

  predicate IsFull(v: CalculatedPlan)
  {
    v.plan.coparticipationType == Full
  }

  /** `type === 'partial' || type === 'none'`. */
  predicate IsNoCopart(v: CalculatedPlan)
  {
    v.plan.coparticipationType == Partial || v.plan.coparticipationType == NoCopart
  }

  /** `fullCopartVariant`: the first variant with full coparticipation. */
  function FullVariant(vs: seq<CalculatedPlan>): Option<CalculatedPlan>
  {
    Find(vs, IsFull)
  }

  /** `noCopartVariant`: the first variant without full coparticipation. */
  function NoCopartVariant(vs: seq<CalculatedPlan>): Option<CalculatedPlan>
  {
    Find(vs, IsNoCopart)
  }

  /** Every variant is of exactly one of the two kinds. */
  lemma KindsPartition(v: CalculatedPlan)
    ensures IsFull(v) != IsNoCopart(v)
  {
  }

  /** The two slots hold the first variant of each kind; a slot is empty only
      when the group has no variant of that kind. */
  lemma SlotsAreFirstOfKind(vs: seq<CalculatedPlan>)
    ensures FullVariant(vs).None? <==> forall i :: 0 <= i < |vs| ==> vs[i].plan.coparticipationType != Full
    ensures NoCopartVariant(vs).None? <==> forall i :: 0 <= i < |vs| ==> vs[i].plan.coparticipationType == Full
    ensures FullVariant(vs).Some? ==>
              exists i :: 0 <= i < |vs| && vs[i] == FullVariant(vs).value && IsFull(vs[i]) &&
                          forall j :: 0 <= j < i ==> !IsFull(vs[j])
    ensures NoCopartVariant(vs).Some? ==>
              exists i :: 0 <= i < |vs| && vs[i] == NoCopartVariant(vs).value && IsNoCopart(vs[i]) &&
                          forall j :: 0 <= j < i ==> IsFull(vs[j])
  {
  }

  /** The compare button's selection: `[full, noCopart]` when both slots are
      filled, otherwise no button. */
  function CompareSelection(vs: seq<CalculatedPlan>): (r: Option<seq<CalculatedPlan>>)
    ensures r.Some? <==> FullVariant(vs).Some? && NoCopartVariant(vs).Some?
    ensures r.Some? ==> r.value == [FullVariant(vs).value, NoCopartVariant(vs).value]
  {
    match (FullVariant(vs), NoCopartVariant(vs))
    case (Some(full), Some(noCopart)) => Some([full, noCopart])
    case _ => None
  }

  /** The compared pair is one full variant followed by one that is not. */
  lemma ComparedPairDiffers(vs: seq<CalculatedPlan>)
    requires CompareSelection(vs).Some?
    ensures var pair := CompareSelection(vs).value;
            |pair| == 2 && IsFull(pair[0]) && IsNoCopart(pair[1]) && pair[0] != pair[1]
            && pair[0] in vs && pair[1] in vs
  {
  }

  /** What a card shows: the base plan (name, operator, hospitals), the full
      block when there is one, the no-copart block or the "unavailable"
      placeholder, and the compare button. */
  datatype Card = Card(
    basePlan: HealthPlan,
    fullBlock: Option<CalculatedPlan>,
    noCopartBlock: Option<CalculatedPlan>,
    showsUnavailable: bool,
    compare: Option<seq<CalculatedPlan>>)

  /** The card of a variant group; an empty group renders nothing. */
  function CardOf(vs: seq<CalculatedPlan>): (c: Option<Card>)
    ensures c.None? <==> |vs| == 0
    ensures c.Some? ==> c.value.basePlan == vs[0].plan
    ensures c.Some? ==> (c.value.showsUnavailable <==> c.value.noCopartBlock.None?)
  {
    if |vs| == 0 then None
    else
      Some(Card(vs[0].plan, FullVariant(vs), NoCopartVariant(vs),
                NoCopartVariant(vs).None?, CompareSelection(vs)))
  }

  /** `renderCopartLabel`. */
  function CopartLabel(t: CoparticipationType): (l: string)
    ensures l == "Com Coparticipação" <==> t == Full
    ensures l == "Sem Coparticipação" <==> t == NoCopart
  {
    match t
    case Full => "Com Coparticipação"
    case Partial => "Sem Copart. (Exceto Terapias)"
    case NoCopart => "Sem Coparticipação"
  }

  /** The variant header of the details view: the same three texts. */
  function VariantHeader(t: CoparticipationType): string
  {
    if t == NoCopart then "Sem Coparticipação"
    else if t == Partial then "Sem Copart. (Exceto Terapias)"
    else "Com Coparticipação"
  }

  /** The labels tell the three kinds apart, and the header agrees with the
      label. */
  lemma LabelsAreDistinct(s: CoparticipationType, t: CoparticipationType)
    ensures CopartLabel(s) == CopartLabel(t) <==> s == t
    ensures VariantHeader(t) == CopartLabel(t)
  {
  }

  /** The copay fee table is shown for every variant except those without
      coparticipation. */
  predicate ShowsFeeTable(v: CalculatedPlan)
  {
    v.plan.coparticipationType != NoCopart
  }

  /** The full slot always has a fee table; the no-copart slot has one exactly
      when it holds a partial variant. */
  lemma FeeTablesOfSlots(vs: seq<CalculatedPlan>)
    ensures FullVariant(vs).Some? ==> ShowsFeeTable(FullVariant(vs).value)
    ensures NoCopartVariant(vs).Some? ==>
              (ShowsFeeTable(NoCopartVariant(vs).value) <==>
               NoCopartVariant(vs).value.plan.coparticipationType == Partial)
  {
  }
}
