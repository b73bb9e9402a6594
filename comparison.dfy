/** The side-by-side comparison (components/ComparisonModal.tsx): one column
    per compared plan, and one coparticipation row per service any of them
    lists. */
module Comparison {
  import opened Seqs
  import opened Types

  /** The services of one plan's fee table, in table order. */
  function ServicesOf(cp: CalculatedPlan): (ss: seq<string>)
    ensures |ss| == |cp.plan.copayFees|
    ensures forall j :: 0 <= j < |ss| ==> ss[j] == cp.plan.copayFees[j].service
  {
    seq(|cp.plan.copayFees|, j requires 0 <= j < |cp.plan.copayFees| => cp.plan.copayFees[j].service)
  }

  /** Every plan's services, plan after plan (`flatMap`). */
  function ServiceLists(plans: seq<CalculatedPlan>): seq<seq<string>>
  {
    seq(|plans|, i requires 0 <= i < |plans| => ServicesOf(plans[i]))
  }

  /** `allServices`: the services in order of first appearance, each once. */
  function AllServices(plans: seq<CalculatedPlan>): (r: seq<string>)
    ensures Distinct(r)
  {
    Dedup(Flatten(ServiceLists(plans)))
  }

  /** `allServices` lists a service exactly when some compared plan has a fee
      for it, and lists it once. */
  lemma AllServicesComplete(plans: seq<CalculatedPlan>, s: string)
    ensures s in AllServices(plans) <==>
            exists i, j :: 0 <= i < |plans| && 0 <= j < |plans[i].plan.copayFees| &&
                           plans[i].plan.copayFees[j].service == s
    ensures Distinct(AllServices(plans))
  {
    var lists := ServiceLists(plans);
    FlattenMembership(lists, s);
    if s in AllServices(plans) {
      var i :| 0 <= i < |lists| && s in lists[i];
      var j :| 0 <= j < |lists[i]| && lists[i][j] == s;
      assert plans[i].plan.copayFees[j].service == s;
    }
    if exists i, j :: 0 <= i < |plans| && 0 <= j < |plans[i].plan.copayFees| &&
                      plans[i].plan.copayFees[j].service == s {
      var i, j :| 0 <= i < |plans| && 0 <= j < |plans[i].plan.copayFees| &&
                  plans[i].plan.copayFees[j].service == s;
      assert lists[i][j] == s;
    }
  }

  /** `allServices` keeps first-appearance order: a service listed earlier
      first appears earlier in the plans' fee tables, read plan after plan. */
  lemma AllServicesOrder(plans: seq<CalculatedPlan>, a: nat, b: nat)
    requires a < b < |AllServices(plans)|
    ensures var all := Flatten(ServiceLists(plans));
            FirstIndex(all, AllServices(plans)[a]) < FirstIndex(all, AllServices(plans)[b])
  {
    DedupFirstOccurrenceOrder(Flatten(ServiceLists(plans)), a, b);
  }

  function HasService(s: string): CopayFee -> bool
  {
    (f: CopayFee) => f.service == s
  }

  /** A fee cell: the value of the plan's first fee for `service`, or "-". */
  function FeeCell(cp: CalculatedPlan, service: string): (cell: string)
    ensures (forall j :: 0 <= j < |cp.plan.copayFees| ==> cp.plan.copayFees[j].service != service) ==>
              cell == "-"
    ensures forall j :: (0 <= j < |cp.plan.copayFees| && cp.plan.copayFees[j].service == service &&
                         (forall k :: 0 <= k < j ==> cp.plan.copayFees[k].service != service)) ==>
              cell == cp.plan.copayFees[j].value
  {
    match Find(cp.plan.copayFees, HasService(service))
    case Some(fee) => fee.value
    case None => "-"
  }

  /** The coparticipation table: one row per service of `allServices`, one
      cell per compared plan, in input order. */
  function FeeRows(plans: seq<CalculatedPlan>): (rows: seq<(string, seq<string>)>)
    ensures |rows| == |AllServices(plans)|
    ensures forall r :: 0 <= r < |rows| ==>
              rows[r].0 == AllServices(plans)[r] && |rows[r].1| == |plans| &&
              forall c :: 0 <= c < |plans| ==> rows[r].1[c] == FeeCell(plans[c], rows[r].0)
  {
    var services := AllServices(plans);
    seq(|services|, r requires 0 <= r < |services| =>
      (services[r], seq(|plans|, c requires 0 <= c < |plans| => FeeCell(plans[c], services[r]))))
  }

  /** `getCopartLabel`; its 'Padrão' default has no type to match. */
  function CopartLabel(t: CoparticipationType): string
  {
    match t
    case Full => "Com Coparticipação"
    case Partial => "Sem Copart. (exceto terapias)"
    case NoCopart => "Sem Coparticipação"
  }

  /** The labels of the mobile view. */
  function ShortLabel(t: CoparticipationType): string
  {
    if t == NoCopart then "Sem Copart."
    else if t == Partial then "Parcial"
    else "Com Copart."
  }

  /** Each coparticipation type has its own label. */
  lemma LabelsTellTypesApart(t: CoparticipationType, u: CoparticipationType)
    ensures CopartLabel(t) == CopartLabel(u) <==> t == u
  {
  }

  /** The short labels tell the types apart too, and name full
      coparticipation exactly for type full. */
  lemma ShortLabelsTellTypesApart(t: CoparticipationType, u: CoparticipationType)
    ensures ShortLabel(t) == ShortLabel(u) <==> t == u
    ensures ShortLabel(t) == "Com Copart." <==> t == Full
  {
  }

  /** A plan's column: operator, name, label, total and unit price per
      bracket, in breakdown order. */
  datatype Column = Column(operator: string, name: string, copartLabel: string, total: int,
                           unitPrices: seq<(AgeRange, int)>)

  function ColumnOf(cp: CalculatedPlan): Column
  {
    Column(cp.plan.operator, cp.plan.name, CopartLabel(cp.plan.coparticipationType), cp.totalPrice,
           seq(|cp.details|, k requires 0 <= k < |cp.details| => (cp.details[k].ageRange, cp.details[k].unitPrice)))
  }

  /** One column per compared plan, in input order. */
  function Columns(plans: seq<CalculatedPlan>): (cols: seq<Column>)
    ensures |cols| == |plans|
    ensures forall i :: 0 <= i < |plans| ==>
              cols[i].operator == plans[i].plan.operator && cols[i].total == plans[i].totalPrice &&
              |cols[i].unitPrices| == |plans[i].details| &&
              forall k :: 0 <= k < |plans[i].details| ==>
                cols[i].unitPrices[k] == (plans[i].details[k].ageRange, plans[i].details[k].unitPrice)
  {
    seq(|plans|, i requires 0 <= i < |plans| => ColumnOf(plans[i]))
  }
}
