/** Generic sequence operations that the quoting screens build on: order-preserving
    filtering, first-occurrence de-duplication, grouping by key in first-seen order,
    first-match search and a stable sort by an integer pair. */
module Seqs {

  datatype Option<T> = None | Some(value: T)

  // ---------------------------------------------------------------------------
  // Filtering (Array.prototype.filter)
  // ---------------------------------------------------------------------------

  /** The elements of `s` that satisfy `f`, in their original order. */
  function Filter<T(!new)>(s: seq<T>, f: T -> bool): (r: seq<T>)
    ensures |r| <= |s|
    ensures forall x :: x in r <==> x in s && f(x)
  {
    if s == [] then []
    else
      var init, last := s[..|s| - 1], s[|s| - 1];
      assert s == init + [last];
      var r0 := Filter(init, f);
      if f(last) then r0 + [last] else r0
  }

  /** Filtering keeps every copy of a kept element and no copy of a dropped one. */
  lemma {:induction false} FilterMultiset<T(!new)>(s: seq<T>, f: T -> bool, x: T)
    ensures multiset(Filter(s, f))[x] == if f(x) then multiset(s)[x] else 0
    decreases |s|
  {
    if s != [] {
      var init, last := s[..|s| - 1], s[|s| - 1];
      assert s == init + [last];
      FilterMultiset(init, f, x);
    }
  }

  /** Filtering distributes over concatenation: relative order is kept. */
  lemma {:induction false} FilterConcat<T(!new)>(a: seq<T>, b: seq<T>, f: T -> bool)
    ensures Filter(a + b, f) == Filter(a, f) + Filter(b, f)
    decreases |b|
  {
    if b == [] {
      assert a + b == a;
    } else {
      var b0, y := b[..|b| - 1], b[|b| - 1];
      assert b == b0 + [y];
      assert (a + b)[..|a + b| - 1] == a + b0;
      assert (a + b)[|a + b| - 1] == y;
      FilterConcat(a, b0, f);
    }
  }

  /** A predicate that holds of the elements whose key is `k`. */
  function HasKey<T, K(==)>(key: T -> K, k: K): T -> bool
  {
    x => key(x) == k
  }

  // ---------------------------------------------------------------------------
  // Distinctness, first occurrence, de-duplication (Array.from(new Set(...)))
  // ---------------------------------------------------------------------------

  predicate Distinct<T(==)>(s: seq<T>)
  {
    forall i, j :: 0 <= i < j < |s| ==> s[i] != s[j]
  }

  /** The position of the first occurrence of `x` in `s`. */
  function FirstIndex<T(==)>(s: seq<T>, x: T): (i: nat)
    requires x in s
    ensures i < |s| && s[i] == x
    ensures forall j :: 0 <= j < i ==> s[j] != x
  {
    if s[0] == x then 0 else 1 + FirstIndex(s[1..], x)
  }

  lemma {:induction false} FirstIndexOfPrefix<T>(s: seq<T>, n: nat, x: T)
    requires n <= |s| && x in s[..n]
    ensures x in s && FirstIndex(s, x) == FirstIndex(s[..n], x)
  {
    var i := FirstIndex(s[..n], x);
    assert s[i] == x;
    assert forall j :: 0 <= j < i ==> s[j] == s[..n][j];
  }

  /** A one-element sequence is kept or dropped whole. */
  lemma FilterSingleton<T(!new)>(y: T, f: T -> bool)
    ensures Filter([y], f) == if f(y) then [y] else []
  {
    assert [y][..0] == [];
  }

  /** Filtering a sequence whose elements all pass leaves it unchanged. */
  lemma {:induction false} FilterAllPass<T(!new)>(s: seq<T>, f: T -> bool)
    requires forall i :: 0 <= i < |s| ==> f(s[i])
    ensures Filter(s, f) == s
    decreases |s|
  {
    if s != [] {
      var init := s[..|s| - 1];
      assert s == init + [s[|s| - 1]];
      FilterAllPass(init, f);
    }
  }

  /** Filtering a sequence none of whose elements pass leaves nothing. */
  lemma {:induction false} FilterNoneSatisfy<T(!new)>(s: seq<T>, f: T -> bool)
    requires forall i :: 0 <= i < |s| ==> !f(s[i])
    ensures Filter(s, f) == []
    decreases |s|
  {
    if s != [] {
      var init := s[..|s| - 1];
      assert s == init + [s[|s| - 1]];
      FilterNoneSatisfy(init, f);
    }
  }

  /** The distinct elements of `s`, each placed where it first occurs. It scans
      left to right and appends an element the first time it is seen. */
  function Dedup<T(==,!new)>(s: seq<T>): (r: seq<T>)
    ensures forall x :: x in r <==> x in s
    ensures Distinct(r)
    ensures |r| <= |s|
  {
    if s == [] then []
    else
      var init, last := s[..|s| - 1], s[|s| - 1];
      assert s == init + [last];
      var d := Dedup(init);
      if last in d then d else d + [last]
  }

  /** The de-duplicated sequence lists its elements in the order of their first
      occurrence in the input. */
  lemma {:induction false} DedupFirstOccurrenceOrder<T(!new)>(s: seq<T>, i: nat, j: nat)
    requires i < j < |Dedup(s)|
    ensures FirstIndex(s, Dedup(s)[i]) < FirstIndex(s, Dedup(s)[j])
    decreases |s|
  {
    var init, last := s[..|s| - 1], s[|s| - 1];
    assert s == init + [last];
    assert s[..|s| - 1] == init;
    var d := Dedup(init);
    var x, y := Dedup(s)[i], Dedup(s)[j];
    assert x in d;
    FirstIndexOfPrefix(s, |s| - 1, x);
    if last in d || j < |d| {
      assert y in d;
      FirstIndexOfPrefix(s, |s| - 1, y);
      DedupFirstOccurrenceOrder(init, i, j);
    } else {
      assert y == last && last !in init;
      assert forall m :: 0 <= m < |s| - 1 ==> s[m] == init[m];
    }
  }

  // ---------------------------------------------------------------------------
  // First match (Array.prototype.find)
  // ---------------------------------------------------------------------------

  /** The first element of `s` satisfying `f`, if there is one. */
  function Find<T>(s: seq<T>, f: T -> bool): (r: Option<T>)
    ensures r.None? <==> forall i :: 0 <= i < |s| ==> !f(s[i])
    ensures r.Some? ==> exists i :: 0 <= i < |s| && s[i] == r.value && f(s[i])
                                    && forall j :: 0 <= j < i ==> !f(s[j])
  {
    if s == [] then None
    else if f(s[0]) then Some(s[0])
    else
      var r := Find(s[1..], f);
      assert forall j :: 1 <= j < |s| ==> s[j] == s[1..][j - 1];
      r
  }

  // ---------------------------------------------------------------------------
  // Grouping by key in first-seen order
  // ---------------------------------------------------------------------------

  function Keys<T, K>(s: seq<T>, key: T -> K): (ks: seq<K>)
    ensures |ks| == |s|
    ensures forall i :: 0 <= i < |s| ==> ks[i] == key(s[i])
  {
    seq(|s|, i requires 0 <= i < |s| => key(s[i]))
  }

  /** The distinct keys of `s` in first-seen order. */
  function GroupKeys<T, K(==,!new)>(s: seq<T>, key: T -> K): seq<K>
  {
    Dedup(Keys(s, key))
  }

  /** One group per distinct key, in first-seen order; group `i` holds, in their
      original order, exactly the elements whose key is the `i`-th key. */
  function GroupBy<T(!new), K(==,!new)>(s: seq<T>, key: T -> K): seq<seq<T>>
  {
    var ks := GroupKeys(s, key);
    seq(|ks|, i requires 0 <= i < |ks| => Filter(s, HasKey(key, ks[i])))
  }

  lemma KeysSnoc<T, K>(s: seq<T>, x: T, key: T -> K)
    ensures Keys(s + [x], key) == Keys(s, key) + [key(x)]
    ensures Keys(s + [x], key)[..|s|] == Keys(s, key)
  {
    assert Keys(s + [x], key) == Keys(s, key) + [key(x)];
  }

  lemma FilterSnoc<T(!new)>(s: seq<T>, x: T, f: T -> bool)
    ensures Filter(s + [x], f) == Filter(s, f) + (if f(x) then [x] else [])
  {
    assert (s + [x])[..|s|] == s;
  }

  /** A key that does not occur selects nothing. */
  lemma {:induction false} FilterAbsentKey<T(!new), K(!new)>(s: seq<T>, key: T -> K, k: K)
    requires k !in Keys(s, key)
    ensures Filter(s, HasKey(key, k)) == []
    decreases |s|
  {
    if s != [] {
      var init, last := s[..|s| - 1], s[|s| - 1];
      assert s == init + [last];
      KeysSnoc(init, last, key);
      FilterAbsentKey(init, key, k);
    }
  }

  /** Appending one element either extends the group of its key, or opens a new
      group at the end when the key was not seen before. */
  lemma GroupBySnoc<T(!new), K(!new)>(s: seq<T>, x: T, key: T -> K)
    ensures GroupKeys(s + [x], key) ==
              if key(x) in GroupKeys(s, key) then GroupKeys(s, key)
              else GroupKeys(s, key) + [key(x)]
    ensures key(x) in GroupKeys(s, key) ==>
              var j := FirstIndex(GroupKeys(s, key), key(x));
              GroupBy(s + [x], key) == GroupBy(s, key)[j := GroupBy(s, key)[j] + [x]]
    ensures key(x) !in GroupKeys(s, key) ==>
              GroupBy(s + [x], key) == GroupBy(s, key) + [[x]]
  {
    var t := s + [x];
    KeysSnoc(s, x, key);
    var ks := GroupKeys(s, key);
    assert GroupKeys(t, key) == if key(x) in ks then ks else ks + [key(x)];
    var g, h := GroupBy(s, key), GroupBy(t, key);
    if key(x) in ks {
      var j := FirstIndex(ks, key(x));
      forall i | 0 <= i < |h|
        ensures h[i] == g[j := g[j] + [x]][i]
      {
        FilterSnoc(s, x, HasKey(key, ks[i]));
      }
    } else {
      forall i | 0 <= i < |h|
        ensures h[i] == (g + [[x]])[i]
      {
        if i < |g| {
          FilterSnoc(s, x, HasKey(key, ks[i]));
        } else {
          FilterSnoc(s, x, HasKey(key, key(x)));
          FilterAbsentKey(s, key, key(x));
        }
      }
    }
  }

  lemma GroupByEmpty<T(!new), K(!new)>(key: T -> K)
    ensures GroupKeys([], key) == [] && GroupBy([], key) == []
  {
    assert Keys([], key) == [];
  }

  /** Every group is non-empty and holds only elements of its own key. */
  lemma GroupByHomogeneous<T(!new), K(!new)>(s: seq<T>, key: T -> K, i: nat)
    requires i < |GroupBy(s, key)|
    ensures |GroupKeys(s, key)| == |GroupBy(s, key)|
    ensures |GroupBy(s, key)[i]| > 0
    ensures forall x :: x in GroupBy(s, key)[i] ==> x in s && key(x) == GroupKeys(s, key)[i]
  {
    var ks := GroupKeys(s, key);
    var k := ks[i];
    assert k in Keys(s, key);
    var p :| 0 <= p < |s| && Keys(s, key)[p] == k;
    assert s[p] in Filter(s, HasKey(key, k));
  }

  /** Every element of the input lands in exactly one group, with all its copies,
      and no group holds anything that was not in the input. */
  lemma GroupByExactlyOnce<T(!new), K(!new)>(s: seq<T>, key: T -> K, x: T)
    requires x in s
    ensures exists i :: 0 <= i < |GroupBy(s, key)| && x in GroupBy(s, key)[i]
    ensures forall i :: 0 <= i < |GroupBy(s, key)| ==>
              multiset(GroupBy(s, key)[i])[x] ==
                if GroupKeys(s, key)[i] == key(x) then multiset(s)[x] else 0
    ensures forall i, j :: 0 <= i < j < |GroupBy(s, key)| ==>
              !(x in GroupBy(s, key)[i] && x in GroupBy(s, key)[j])
  {
    var ks := GroupKeys(s, key);
    var p :| 0 <= p < |s| && s[p] == x;
    assert Keys(s, key)[p] == key(x);
    var i := FirstIndex(ks, key(x));
    assert |GroupBy(s, key)| == |ks|;
    forall i | 0 <= i < |ks| ensures multiset(GroupBy(s, key)[i])[x] ==
                if ks[i] == key(x) then multiset(s)[x] else 0 {
      FilterMultiset(s, HasKey(key, ks[i]), x);
    }
    assert x in Filter(s, HasKey(key, ks[i]));
    assert x in GroupBy(s, key)[i];
  }

  /** Groups come in the order in which their keys first occur in the input. */
  lemma GroupByFirstSeenOrder<T(!new), K(!new)>(s: seq<T>, key: T -> K, i: nat, j: nat)
    requires i < j < |GroupBy(s, key)|
    ensures FirstIndex(Keys(s, key), GroupKeys(s, key)[i]) < FirstIndex(Keys(s, key), GroupKeys(s, key)[j])
  {
    DedupFirstOccurrenceOrder(Keys(s, key), i, j);
  }

  function Flatten<T>(g: seq<seq<T>>): (r: seq<T>)
    ensures |g| == 0 ==> r == []
  {
    if g == [] then [] else Flatten(g[..|g| - 1]) + g[|g| - 1]
  }

  /** An element is in the concatenation exactly when it is in one of the parts. */
  lemma {:induction false} FlattenMembership<T>(g: seq<seq<T>>, x: T)
    ensures x in Flatten(g) <==> exists j :: 0 <= j < |g| && x in g[j]
    decreases |g|
  {
    if g != [] {
      var init := g[..|g| - 1];
      FlattenMembership(init, x);
      assert forall j :: 0 <= j < |init| ==> init[j] == g[j];
      if x in g[|g| - 1] {
        assert x in Flatten(g);
      }
    }
  }

  lemma {:induction false} FlattenMultiset<T>(g: seq<seq<T>>, j: nat, x: T)
    requires j < |g|
    ensures multiset(Flatten(g[j := g[j] + [x]])) == multiset(Flatten(g)) + multiset{x}
    decreases |g|
  {
    var h := g[j := g[j] + [x]];
    assert h[..|h| - 1] == if j < |g| - 1 then g[..|g| - 1][j := g[j] + [x]] else g[..|g| - 1];
    if j < |g| - 1 {
      FlattenMultiset(g[..|g| - 1], j, x);
    }
  }

  /** Grouping neither loses nor duplicates anything: the groups, laid end to
      end, are a permutation of the input. */
  lemma {:induction false} GroupByPermutation<T(!new), K(!new)>(s: seq<T>, key: T -> K)
    ensures multiset(Flatten(GroupBy(s, key))) == multiset(s)
    decreases |s|
  {
    if s == [] {
      GroupByEmpty(key);
    } else {
      var init, x := s[..|s| - 1], s[|s| - 1];
      assert s == init + [x];
      GroupByPermutation(init, key);
      GroupBySnoc(init, x, key);
      var g := GroupBy(init, key);
      if key(x) in GroupKeys(init, key) {
        var j := FirstIndex(GroupKeys(init, key), key(x));
        FlattenMultiset(g, j, x);
      } else {
        assert (g + [[x]])[..|g|] == g;
      }
    }
  }

  /** Index of `k` in `ks`, or `|ks|` when absent (Map.has / Array.find). */
  method IndexOf<K(==)>(ks: seq<K>, k: K) returns (j: nat)
    requires Distinct(ks)
    ensures j <= |ks|
    ensures j < |ks| <==> k in ks
    ensures j < |ks| ==> ks[j] == k && j == FirstIndex(ks, k)
  {
    j := 0;
    while j < |ks| && ks[j] != k
      invariant j <= |ks|
      invariant forall i :: 0 <= i < j ==> ks[i] != k
    {
      j := j + 1;
    }
  }

  /** The grouping loop: scan the input once, append each element to the group
      of its key, opening a new group the first time a key is seen. */
  method GroupInOrder<T(!new), K(==,!new)>(s: seq<T>, key: T -> K) returns (keys: seq<K>, groups: seq<seq<T>>)
    ensures keys == GroupKeys(s, key)
    ensures groups == GroupBy(s, key)
  {
    keys, groups := [], [];
    GroupByEmpty(key);
    assert s[..0] == [];
    for i := 0 to |s|
      invariant keys == GroupKeys(s[..i], key)
      invariant groups == GroupBy(s[..i], key)
    {
      var x := s[i];
      assert s[..i + 1] == s[..i] + [x];
      GroupBySnoc(s[..i], x, key);
      var j := IndexOf(keys, key(x));
      if j == |keys| {
        keys, groups := keys + [key(x)], groups + [[x]];
      } else {
        groups := groups[j := groups[j] + [x]];
      }
    }
    assert s[..|s|] == s;
  }

  // ---------------------------------------------------------------------------
  // Stable sort by an integer pair, compared lexicographically
  // ---------------------------------------------------------------------------

  predicate PairLe(a: (int, int), b: (int, int))
  {
    a.0 < b.0 || (a.0 == b.0 && a.1 <= b.1)
  }

  predicate SortedByKey<T>(s: seq<T>, key: T -> (int, int))
  {
    forall i, j :: 0 <= i < j < |s| ==> PairLe(key(s[i]), key(s[j]))
  }

  /** Insert `x` before the first element whose key is not smaller than its own. */
  function InsertByKey<T>(x: T, t: seq<T>, key: T -> (int, int)): (r: seq<T>)
    ensures multiset(r) == multiset(t) + multiset{x}
  {
    if t == [] then [x]
    else if PairLe(key(x), key(t[0])) then
      assert t == [t[0]] + t[1..];
      [x] + t
    else
      assert t == [t[0]] + t[1..];
      [t[0]] + InsertByKey(x, t[1..], key)
  }

  lemma {:induction false} InsertByKeySorted<T>(x: T, t: seq<T>, key: T -> (int, int))
    requires SortedByKey(t, key)
    ensures SortedByKey(InsertByKey(x, t, key), key)
    decreases |t|
  {
    if t != [] && !PairLe(key(x), key(t[0])) {
      var t1 := t[1..];
      var rest := InsertByKey(x, t1, key);
      assert SortedByKey(t1, key) by {
        assert forall i :: 0 <= i < |t1| ==> t1[i] == t[i + 1];
      }
      InsertByKeySorted(x, t1, key);
      forall y | y in rest ensures PairLe(key(t[0]), key(y)) {
        assert y in multiset(rest);
        if y != x {
          assert y in t1;
          var p :| 0 <= p < |t1| && t1[p] == y;
          assert t[p + 1] == y;
        }
      }
      var r := [t[0]] + rest;
      forall i, j | 0 <= i < j < |r| ensures PairLe(key(r[i]), key(r[j])) {
        if i == 0 {
          assert r[j] == rest[j - 1];
          assert r[j] in rest;
        } else {
          assert r[i] == rest[i - 1] && r[j] == rest[j - 1];
        }
      }
    }
  }

  /** Insertion sort; earlier elements are inserted after later ones are sorted,
      so that elements with equal keys keep their relative order. */
  function SortByKey<T>(s: seq<T>, key: T -> (int, int)): (r: seq<T>)
    ensures multiset(r) == multiset(s)
    ensures |r| == |s|
    ensures SortedByKey(r, key)
  {
    if s == [] then []
    else
      assert s == [s[0]] + s[1..];
      var t := SortByKey(s[1..], key);
      var r := InsertByKey(s[0], t, key);
      InsertByKeySorted(s[0], t, key);
      assert |r| == |multiset(r)|;
      r
  }

  /** A filtered sorted sequence is still sorted: filtering keeps order. */
  lemma {:induction false} FilterSorted<T(!new)>(s: seq<T>, f: T -> bool, key: T -> (int, int))
    requires SortedByKey(s, key)
    ensures SortedByKey(Filter(s, f), key)
    decreases |s|
  {
    if s != [] {
      var init, x := s[..|s| - 1], s[|s| - 1];
      assert s == init + [x];
      assert SortedByKey(init, key) by {
        assert forall i :: 0 <= i < |init| ==> init[i] == s[i];
      }
      FilterSorted(init, f, key);
      FilterSnoc(init, x, f);
      if f(x) {
        var r := Filter(init, f) + [x];
        forall i, j | 0 <= i < j < |r| ensures PairLe(key(r[i]), key(r[j])) {
          if j == |r| - 1 {
            assert r[i] in init;
            var p :| 0 <= p < |init| && init[p] == r[i];
            assert s[p] == r[i] && s[|s| - 1] == x;
          }
        }
      }
    }
  }

  /** Two elements with different keys commute under a key filter. */
  lemma FilterSwap<T(!new), K(!new)>(a: T, b: T, c: seq<T>, key: T -> K, k: K)
    requires key(a) != key(b)
    ensures Filter([a] + ([b] + c), HasKey(key, k)) == Filter([b] + ([a] + c), HasKey(key, k))
  {
    var f := HasKey(key, k);
    FilterConcat([a], [b] + c, f);
    FilterConcat([b], c, f);
    FilterConcat([b], [a] + c, f);
    FilterConcat([a], c, f);
    FilterSingleton(a, f);
    FilterSingleton(b, f);
  }

  lemma {:induction false} InsertByKeyStable<T(!new)>(x: T, t: seq<T>, key: T -> (int, int), k: (int, int))
    ensures Filter(InsertByKey(x, t, key), HasKey(key, k)) == Filter([x] + t, HasKey(key, k))
    decreases |t|
  {
    var f := HasKey(key, k);
    if t != [] && !PairLe(key(x), key(t[0])) {
      var t0, t1 := t[0], t[1..];
      assert t == [t0] + t1;
      var rest := InsertByKey(x, t1, key);
      assert InsertByKey(x, t, key) == [t0] + rest;
      InsertByKeyStable(x, t1, key, k);
      FilterConcat([t0], rest, f);
      FilterConcat([t0], [x] + t1, f);
      FilterSwap(t0, x, t1, key, k);
    }
  }

  /** Stability: among elements sharing a key, the sorted sequence keeps the
      input order. */
  lemma {:induction false} SortByKeyStable<T(!new)>(s: seq<T>, key: T -> (int, int), k: (int, int))
    ensures Filter(SortByKey(s, key), HasKey(key, k)) == Filter(s, HasKey(key, k))
    decreases |s|
  {
    if s != [] {
      var f := HasKey(key, k);
      var t := SortByKey(s[1..], key);
      SortByKeyStable(s[1..], key, k);
      InsertByKeyStable(s[0], t, key, k);
      FilterConcat([s[0]], t, f);
      FilterConcat([s[0]], s[1..], f);
      assert s == [s[0]] + s[1..];
    }
  }

  // ---------------------------------------------------------------------------
  // Sums
  // ---------------------------------------------------------------------------

  function Sum(s: seq<int>): int
  {
    if s == [] then 0 else Sum(s[..|s| - 1]) + s[|s| - 1]
  }
}
