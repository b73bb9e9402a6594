/** Steps 5 and 6 of the quote pipeline: calculated plans are grouped into the
    coparticipation variants of one product (App.tsx:108-114), and those
    groups by operator (App.tsx:119-131); each operator header shows the
    lowest total among its variants (App.tsx:760-761). */
module Grouping {
  import opened Seqs
  import opened Types
  import opened Ranking

  /** The variant key `${operator}|${name}|${type}`, as a tuple. */
  function VariantKey(cp: CalculatedPlan): (string, string, RoomType)
  {
    (cp.plan.operator, cp.plan.name, cp.plan.roomType)
  }

  /** The room type as the string the source puts in the key. */
  function RoomLabel(t: RoomType): string
  {
    match t
    case Enfermaria => "Enfermaria"
    case Apartamento => "Apartamento"
  }

  /** The key as the source builds it: the three parts joined with '|'. */
  function StringKey(cp: CalculatedPlan): string
  {
    cp.plan.operator + "|" + cp.plan.name + "|" + RoomLabel(cp.plan.roomType)
  }

  /** The joined key does not tell the parts apart when a name contains '|':
      operator "A|B" with product "C" and operator "A" with product "B|C"
      share a key, so the source would group two products together. */
  lemma StringKeyCollides(a: CalculatedPlan, b: CalculatedPlan)
    requires a.plan.operator == "A|B" && a.plan.name == "C"
    requires b.plan.operator == "A" && b.plan.name == "B|C"
    requires a.plan.roomType == b.plan.roomType
    ensures StringKey(a) == StringKey(b)
    ensures VariantKey(a) != VariantKey(b)
  {
    var t := RoomLabel(a.plan.roomType);
    assert StringKey(a) == "A|B|C|" + t;
    assert StringKey(b) == "A|B|C|" + t;
  }

  /** The variants of a product keep their rank order: grouping a ranked list
      gives ranked groups. */
  lemma VariantGroupsStayRanked(results: seq<CalculatedPlan>, i: nat)
    requires SortedByKey(results, RankKey)
    requires i < |GroupBy(results, VariantKey)|
    ensures SortedByKey(GroupBy(results, VariantKey)[i], RankKey)
  {
    FilterSorted(results, HasKey(VariantKey, GroupKeys(results, VariantKey)[i]), RankKey);
  }

  /** The variants of one product share operator, name and room type. */
  lemma VariantGroupIsOneProduct(results: seq<CalculatedPlan>, i: nat, a: CalculatedPlan, b: CalculatedPlan)
    requires i < |GroupBy(results, VariantKey)|
    requires a in GroupBy(results, VariantKey)[i] && b in GroupBy(results, VariantKey)[i]
    ensures a.plan.operator == b.plan.operator && a.plan.name == b.plan.name &&
            a.plan.roomType == b.plan.roomType
  {
    GroupByHomogeneous(results, VariantKey, i);
  }

  /** An entry of `operatorGroups`. */
  datatype OperatorGroup = OperatorGroup(operator: string, logoColor: string, plans: seq<seq<CalculatedPlan>>)

  /** `group[0].plan.operator`; an empty group, which the source never builds,
      has no operator. */
  function OperatorOf(g: seq<CalculatedPlan>): string
  {
    if |g| == 0 then "" else g[0].plan.operator
  }

  function LogoOf(g: seq<CalculatedPlan>): string
  {
    if |g| == 0 then "" else g[0].plan.logoColor
  }

  /** `operatorGroups`: one entry per operator, in the order operators first
      appear, holding that operator's variant groups in their original order;
      the logo colour is that of the operator's first group. */
  function OperatorGroups(groups: seq<seq<CalculatedPlan>>): (r: seq<OperatorGroup>)
    ensures |r| == |GroupKeys(groups, OperatorOf)|
    ensures forall i :: 0 <= i < |r| ==> r[i].operator == GroupKeys(groups, OperatorOf)[i]
    ensures forall i :: 0 <= i < |r| ==> r[i].plans == GroupBy(groups, OperatorOf)[i]
  {
    var ks := GroupKeys(groups, OperatorOf);
    var ps := GroupBy(groups, OperatorOf);
    seq(|ks|, i requires 0 <= i < |ks| =>
      OperatorGroup(ks[i], if |ps[i]| > 0 then LogoOf(ps[i][0]) else "", ps[i]))
  }

  /** Appending one variant group either extends its operator's entry or opens
      a new entry at the end. */
  lemma OperatorGroupsSnoc(groups: seq<seq<CalculatedPlan>>, g: seq<CalculatedPlan>)
    ensures var r := OperatorGroups(groups);
            OperatorOf(g) in GroupKeys(groups, OperatorOf) ==>
              var j := FirstIndex(GroupKeys(groups, OperatorOf), OperatorOf(g));
              OperatorGroups(groups + [g]) == r[j := r[j].(plans := r[j].plans + [g])]
    ensures OperatorOf(g) !in GroupKeys(groups, OperatorOf) ==>
              OperatorGroups(groups + [g]) ==
                OperatorGroups(groups) + [OperatorGroup(OperatorOf(g), LogoOf(g), [g])]
  {
    var r, r' := OperatorGroups(groups), OperatorGroups(groups + [g]);
    var ks := GroupKeys(groups, OperatorOf);
    var ps := GroupBy(groups, OperatorOf);
    GroupBySnoc(groups, g, OperatorOf);
    if OperatorOf(g) in ks {
      var j := FirstIndex(ks, OperatorOf(g));
      GroupByHomogeneous(groups, OperatorOf, j);
      assert (ps[j] + [g])[0] == ps[j][0];
      assert r' == r[j := r[j].(plans := r[j].plans + [g])];
    } else {
      assert r' == r + [OperatorGroup(OperatorOf(g), LogoOf(g), [g])];
    }
  }

  /** The `operatorGroups` loop: look each group's operator up among the
      entries built so far and push the group there, or open a new entry. */
  method GroupByOperator(groups: seq<seq<CalculatedPlan>>) returns (r: seq<OperatorGroup>)
    requires forall i :: 0 <= i < |groups| ==> |groups[i]| > 0
    ensures r == OperatorGroups(groups)
  {
    r := [];
    GroupByEmpty(OperatorOf);
    assert groups[..0] == [];
    for i := 0 to |groups|
      invariant r == OperatorGroups(groups[..i])
    {
      var group := groups[i];
      var plan := group[0].plan;
      assert groups[..i + 1] == groups[..i] + [group];
      OperatorGroupsSnoc(groups[..i], group);
      var j := 0;
      while j < |r| && r[j].operator != plan.operator
        invariant j <= |r|
        invariant forall k :: 0 <= k < j ==> r[k].operator != plan.operator
      {
        j := j + 1;
      }
      if j < |r| {
        r := r[j := r[j].(plans := r[j].plans + [group])];
      } else {
        r := r + [OperatorGroup(plan.operator, plan.logoColor, [group])];
      }
    }
    assert groups[..|groups|] == groups;
  }

  /** Each variant group lands in exactly one operator entry, the one of its
      own operator. */
  lemma OperatorGroupsExactlyOnce(groups: seq<seq<CalculatedPlan>>, g: seq<CalculatedPlan>)
    requires g in groups
    ensures exists i :: 0 <= i < |OperatorGroups(groups)| && g in OperatorGroups(groups)[i].plans
    ensures forall i :: 0 <= i < |OperatorGroups(groups)| && g in OperatorGroups(groups)[i].plans ==>
              OperatorGroups(groups)[i].operator == OperatorOf(g)
    ensures forall i, j :: 0 <= i < j < |OperatorGroups(groups)| ==>
              !(g in OperatorGroups(groups)[i].plans && g in OperatorGroups(groups)[j].plans)
  {
    GroupByExactlyOnce(groups, OperatorOf, g);
    var k :| 0 <= k < |GroupBy(groups, OperatorOf)| && g in GroupBy(groups, OperatorOf)[k];
    assert g in OperatorGroups(groups)[k].plans;
    forall i | 0 <= i < |OperatorGroups(groups)| && g in OperatorGroups(groups)[i].plans
      ensures OperatorGroups(groups)[i].operator == OperatorOf(g)
    {
      GroupByHomogeneous(groups, OperatorOf, i);
    }
  }

  /** No two entries share an operator. */
  lemma OperatorsAreDistinct(groups: seq<seq<CalculatedPlan>>, i: nat, j: nat)
    requires i < j < |OperatorGroups(groups)|
    ensures OperatorGroups(groups)[i].operator != OperatorGroups(groups)[j].operator
  {
  }

  /** The running minimum of `reduce((min, p) => p.totalPrice < min ?
      p.totalPrice : min, acc)`. */
  function MinTotal(vs: seq<CalculatedPlan>, acc: int): (m: int)
    ensures m <= acc
    ensures forall i :: 0 <= i < |vs| ==> m <= vs[i].totalPrice
    ensures m == acc || exists i :: 0 <= i < |vs| && m == vs[i].totalPrice
  {
    if vs == [] then acc
    else
      var m := MinTotal(vs[1..], if vs[0].totalPrice < acc then vs[0].totalPrice else acc);
      assert forall i :: 1 <= i < |vs| ==> vs[i] == vs[1..][i - 1];
      m
  }

  /** `minPrice`: the lowest total among the variants, which is the total of
      one of them. */
  function MinPrice(vs: seq<CalculatedPlan>): (m: int)
    requires |vs| > 0
    ensures forall i :: 0 <= i < |vs| ==> m <= vs[i].totalPrice
    ensures exists i :: 0 <= i < |vs| && m == vs[i].totalPrice
  {
    MinTotal(vs, vs[0].totalPrice)
  }

  /** `allVariants[0]` exists: an operator entry built from non-empty groups
      has at least one variant. */
  lemma OperatorGroupHasVariants(groups: seq<seq<CalculatedPlan>>, i: nat)
    requires forall k :: 0 <= k < |groups| ==> |groups[k]| > 0
    requires i < |OperatorGroups(groups)|
    ensures |Flatten(OperatorGroups(groups)[i].plans)| > 0
  {
    var ps := OperatorGroups(groups)[i].plans;
    GroupByHomogeneous(groups, OperatorOf, i);
    assert ps[|ps| - 1] in ps;
  }
}
