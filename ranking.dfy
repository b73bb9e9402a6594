/** Step 4 of the quote pipeline (App.tsx:77-104): the calculated plans are
    sorted by a fixed operator/product weight, then by total price. The source
    calls `Array.prototype.sort`, which is stable, so plans that tie on both keep
    their catalogue order. */
module Ranking {
  import opened Seqs
  import opened Text
  import opened Types

  /** `getPlanWeight`: the first rule that matches the lower-cased operator and
      product name decides. */
  function Weight(p: HealthPlan): (w: int)
    ensures w in {10, 11, 12, 19, 20, 21, 22, 23, 29, 30, 40, 50, 60, 100}
  {
    var op := Lower(p.operator);
    var name := Lower(p.name);
    if Contains(op, "amhemed") then
      if Contains(name, "ideal") then 10
      else if Contains(name, "amhe+") then 11
      else if Contains(name, "plus") then 12
      else 19
    else if Contains(op, "gndi") || Contains(op, "notredame") then
      if Contains(name, "nosso") then 20
      else if Contains(name, "notrelife") then 21
      else if Contains(name, "200") then 22
      else if Contains(name, "400") then 23
      else 29
    else if Contains(op, "eva") then 30
    else if Contains(op, "fênix") || Contains(op, "fenix") then 40
    else if Contains(op, "unimed") then 50
    else if Contains(op, "amil") then 60
    else 100
  }

  /** One row of the weight table: it applies when the operator contains one of
      `operatorAny` and, if `nameHas` is given, the product name contains it. */
  datatype WeightRule = WeightRule(operatorAny: seq<string>, nameHas: Option<string>, weight: int)

  /** The precedence table `getPlanWeight` encodes, earliest row first. */
  const WeightTable: seq<WeightRule> := [
    WeightRule(["amhemed"], Some("ideal"), 10),
    WeightRule(["amhemed"], Some("amhe+"), 11),
    WeightRule(["amhemed"], Some("plus"), 12),
    WeightRule(["amhemed"], None, 19),
    WeightRule(["gndi", "notredame"], Some("nosso"), 20),
    WeightRule(["gndi", "notredame"], Some("notrelife"), 21),
    WeightRule(["gndi", "notredame"], Some("200"), 22),
    WeightRule(["gndi", "notredame"], Some("400"), 23),
    WeightRule(["gndi", "notredame"], None, 29),
    WeightRule(["eva"], None, 30),
    WeightRule(["fênix", "fenix"], None, 40),
    WeightRule(["unimed"], None, 50),
    WeightRule(["amil"], None, 60)
  ]

  /** The weight given to operators no row names. */
  const OtherWeight := 100

  predicate ContainsAny(s: string, needles: seq<string>)
  {
    exists i :: 0 <= i < |needles| && Contains(s, needles[i])
  }

  predicate RuleMatches(rule: WeightRule, op: string, name: string)
  {
    ContainsAny(op, rule.operatorAny) && (rule.nameHas.None? || Contains(name, rule.nameHas.value))
  }

  /** The weight of the first matching row, or `OtherWeight`. */
  function TableWeight(rules: seq<WeightRule>, op: string, name: string): int
  {
    if rules == [] then OtherWeight
    else if RuleMatches(rules[0], op, name) then rules[0].weight
    else TableWeight(rules[1..], op, name)
  }

  /** The table search returns the weight of the earliest matching row. */
  lemma {:induction false} TableWeightFirstMatch(rules: seq<WeightRule>, op: string, name: string, i: nat)
    requires i < |rules| && RuleMatches(rules[i], op, name)
    requires forall j :: 0 <= j < i ==> !RuleMatches(rules[j], op, name)
    ensures TableWeight(rules, op, name) == rules[i].weight
  {
    if i > 0 {
      assert !RuleMatches(rules[0], op, name);
      assert rules[1..][i - 1] == rules[i];
      TableWeightFirstMatch(rules[1..], op, name, i - 1);
    }
  }

  /** When no row matches, the search returns `OtherWeight`. */
  lemma {:induction false} TableWeightNoMatch(rules: seq<WeightRule>, op: string, name: string)
    requires forall j :: 0 <= j < |rules| ==> !RuleMatches(rules[j], op, name)
    ensures TableWeight(rules, op, name) == OtherWeight
  {
    if rules != [] {
      assert !RuleMatches(rules[0], op, name);
      TableWeightNoMatch(rules[1..], op, name);
    }
  }

  lemma ContainsAnyOne(s: string, a: string)
    ensures ContainsAny(s, [a]) <==> Contains(s, a)
  {
    if Contains(s, a) {
      assert [a][0] == a;
    }
  }

  lemma ContainsAnyTwo(s: string, a: string, b: string)
    ensures ContainsAny(s, [a, b]) <==> Contains(s, a) || Contains(s, b)
  {
    if Contains(s, a) {
      assert [a, b][0] == a;
    }
    if Contains(s, b) {
      assert [a, b][1] == b;
    }
  }

  /** A row with a single operator needle. */
  lemma RuleMatchesOne(rule: WeightRule, op: string, name: string)
    requires |rule.operatorAny| == 1
    ensures RuleMatches(rule, op, name) <==>
            Contains(op, rule.operatorAny[0]) && (rule.nameHas.None? || Contains(name, rule.nameHas.value))
  {
    ContainsAnyOne(op, rule.operatorAny[0]);
    assert rule.operatorAny == [rule.operatorAny[0]];
  }

  /** A row with two operator needles. */
  lemma RuleMatchesTwo(rule: WeightRule, op: string, name: string)
    requires |rule.operatorAny| == 2
    ensures RuleMatches(rule, op, name) <==>
            (Contains(op, rule.operatorAny[0]) || Contains(op, rule.operatorAny[1])) &&
            (rule.nameHas.None? || Contains(name, rule.nameHas.value))
  {
    ContainsAnyTwo(op, rule.operatorAny[0], rule.operatorAny[1]);
    assert rule.operatorAny == [rule.operatorAny[0], rule.operatorAny[1]];
  }

  /** What each row of the weight table tests. */
  lemma WeightTableRows(op: string, name: string)
    ensures |WeightTable| == 13
    ensures RuleMatches(WeightTable[0], op, name) <==> Contains(op, "amhemed") && Contains(name, "ideal")
    ensures RuleMatches(WeightTable[1], op, name) <==> Contains(op, "amhemed") && Contains(name, "amhe+")
    ensures RuleMatches(WeightTable[2], op, name) <==> Contains(op, "amhemed") && Contains(name, "plus")
    ensures RuleMatches(WeightTable[3], op, name) <==> Contains(op, "amhemed")
    ensures RuleMatches(WeightTable[4], op, name) <==>
            (Contains(op, "gndi") || Contains(op, "notredame")) && Contains(name, "nosso")
    ensures RuleMatches(WeightTable[5], op, name) <==>
            (Contains(op, "gndi") || Contains(op, "notredame")) && Contains(name, "notrelife")
    ensures RuleMatches(WeightTable[6], op, name) <==>
            (Contains(op, "gndi") || Contains(op, "notredame")) && Contains(name, "200")
    ensures RuleMatches(WeightTable[7], op, name) <==>
            (Contains(op, "gndi") || Contains(op, "notredame")) && Contains(name, "400")
    ensures RuleMatches(WeightTable[8], op, name) <==> Contains(op, "gndi") || Contains(op, "notredame")
    ensures RuleMatches(WeightTable[9], op, name) <==> Contains(op, "eva")
    ensures RuleMatches(WeightTable[10], op, name) <==> Contains(op, "fênix") || Contains(op, "fenix")
    ensures RuleMatches(WeightTable[11], op, name) <==> Contains(op, "unimed")
    ensures RuleMatches(WeightTable[12], op, name) <==> Contains(op, "amil")
  {
    var t := WeightTable;
    RuleMatchesOne(t[0], op, name);
    RuleMatchesOne(t[1], op, name);
    RuleMatchesOne(t[2], op, name);
    RuleMatchesOne(t[3], op, name);
    RuleMatchesTwo(t[4], op, name);
    RuleMatchesTwo(t[5], op, name);
    RuleMatchesTwo(t[6], op, name);
    RuleMatchesTwo(t[7], op, name);
    RuleMatchesTwo(t[8], op, name);
    RuleMatchesOne(t[9], op, name);
    RuleMatchesTwo(t[10], op, name);
    RuleMatchesOne(t[11], op, name);
    RuleMatchesOne(t[12], op, name);
  }

  /** `getPlanWeight` is the first-match reading of the weight table. */
  lemma WeightFollowsTable(p: HealthPlan)
    ensures Weight(p) == TableWeight(WeightTable, Lower(p.operator), Lower(p.name))
  {
    var op, name := Lower(p.operator), Lower(p.name);
    var t := WeightTable;
    WeightTableRows(op, name);
    // The branch of `getPlanWeight` taken names the earliest matching row.
    var k: nat :=
      if Contains(op, "amhemed") then
        if Contains(name, "ideal") then 0
        else if Contains(name, "amhe+") then 1
        else if Contains(name, "plus") then 2
        else 3
      else if Contains(op, "gndi") || Contains(op, "notredame") then
        if Contains(name, "nosso") then 4
        else if Contains(name, "notrelife") then 5
        else if Contains(name, "200") then 6
        else if Contains(name, "400") then 7
        else 8
      else if Contains(op, "eva") then 9
      else if Contains(op, "fênix") || Contains(op, "fenix") then 10
      else if Contains(op, "unimed") then 11
      else if Contains(op, "amil") then 12
      else 13;
    if k < 13 {
      assert Weight(p) == t[k].weight;
      TableWeightFirstMatch(t, op, name, k);
    } else {
      TableWeightNoMatch(t, op, name);
    }
  }

  /** An operator gets the catch-all weight exactly when no row of the table
      names it. */
  lemma OtherOperatorsLast(p: HealthPlan)
    ensures Weight(p) == OtherWeight <==>
            forall i :: 0 <= i < |WeightTable| ==> !ContainsAny(Lower(p.operator), WeightTable[i].operatorAny)
  {
    var op, name := Lower(p.operator), Lower(p.name);
    var t := WeightTable;
    WeightTableRows(op, name);
    // Rows 3 and 8 to 12 test the operator only; every other row shares the
    // operator test of row 3 or row 8.
    forall i | 0 <= i < 13
      ensures ContainsAny(op, t[i].operatorAny) <==>
              RuleMatches(t[if i < 4 then 3 else if i < 9 then 8 else i], op, name)
    {
    }
  }

  /** The comparator passed to `sort`: weight first, then total price. */
  function Compare(a: CalculatedPlan, b: CalculatedPlan): (c: int)
    ensures Weight(a.plan) < Weight(b.plan) ==> c < 0
    ensures Weight(a.plan) > Weight(b.plan) ==> c > 0
    ensures Weight(a.plan) == Weight(b.plan) ==>
              (c < 0 <==> a.totalPrice < b.totalPrice) && (c == 0 <==> a.totalPrice == b.totalPrice)
  {
    var wa := Weight(a.plan);
    var wb := Weight(b.plan);
    if wa != wb then wa - wb else a.totalPrice - b.totalPrice
  }

  /** The sort key: weight, then total price. */
  function RankKey(cp: CalculatedPlan): (int, int)
  {
    (Weight(cp.plan), cp.totalPrice)
  }

  /** The comparator orders two plans exactly as their keys compare. */
  lemma CompareAgreesWithKey(a: CalculatedPlan, b: CalculatedPlan)
    ensures Compare(a, b) <= 0 <==> PairLe(RankKey(a), RankKey(b))
    ensures Compare(a, b) == 0 <==> RankKey(a) == RankKey(b)
    ensures Compare(a, b) == -Compare(b, a)
  {
  }

  /** The ranked list: a rearrangement of `results` in ascending weight and,
      within a weight, ascending total price. */
  function Rank(results: seq<CalculatedPlan>): (r: seq<CalculatedPlan>)
    ensures |r| == |results| && multiset(r) == multiset(results)
    ensures forall i, j :: 0 <= i < j < |r| ==>
              Weight(r[i].plan) < Weight(r[j].plan) ||
              (Weight(r[i].plan) == Weight(r[j].plan) && r[i].totalPrice <= r[j].totalPrice)
  {
    var r := SortByKey(results, RankKey);
    assert forall i, j :: 0 <= i < j < |r| ==> PairLe(RankKey(r[i]), RankKey(r[j]));
    r
  }

  /** Stability: plans with the same weight and total keep their input order. */
  lemma RankIsStable(results: seq<CalculatedPlan>, k: (int, int))
    ensures Filter(Rank(results), HasKey(RankKey, k)) == Filter(results, HasKey(RankKey, k))
  {
    SortByKeyStable(results, RankKey, k);
  }

  /** An Amhemed "Ideal" product ranks before any Unimed product, whatever the
      prices. */
  lemma AmhemedIdealBeforeUnimed(a: CalculatedPlan, b: CalculatedPlan)
    requires Contains(Lower(a.plan.operator), "amhemed") && Contains(Lower(a.plan.name), "ideal")
    requires Weight(b.plan) == 50
    ensures Compare(a, b) < 0
  {
  }
}
