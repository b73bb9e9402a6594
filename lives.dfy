/** The bracket selection of a quote: how many lives fall into each age
    bracket (App.tsx, `userSelection`, `totalLives`, `isSoloMinor`).

    The selection is a JavaScript object keyed by bracket label; it is modelled
    as the sequence of its entries in insertion order, which is the order
    `Object.entries` and `Object.values` visit them. */
module Lives {
  import opened Seqs
  import opened Types

  type Selection = seq<Entry>

  /** The brackets of a selection, in entry order. */
  function RangesOf(sel: Selection): (rs: seq<AgeRange>)
    ensures |rs| == |sel|
    ensures forall i :: 0 <= i < |sel| ==> rs[i] == sel[i].range
  {
    seq(|sel|, i requires 0 <= i < |sel| => sel[i].range)
  }

  /** `userSelection[r] || 0`: the count stored for `r`, or 0 when `r` has no
      entry. */
  function Count(sel: Selection, r: AgeRange): (n: nat)
    ensures r !in RangesOf(sel) ==> n == 0
    ensures forall i :: (0 <= i < |sel| && sel[i].range == r &&
                         (forall j :: 0 <= j < i ==> sel[j].range != r)) ==> n == sel[i].count
  {
    if sel == [] then 0
    else if sel[0].range == r then sel[0].count
    else Count(sel[1..], r)
  }

  /** No entry holds a life. */
  predicate NoLives(sel: Selection)
  {
    forall i :: 0 <= i < |sel| ==> sel[i].count == 0
  }

  /** `totalLives`: the counts of all entries added up; it is zero exactly
      when no entry holds a life. */
  function TotalLives(sel: Selection): (n: nat)
    ensures n == 0 <==> NoLives(sel)
  {
    if sel == [] then 0 else sel[0].count + TotalLives(sel[1..])
  }

  /** The lives of every bracket other than `r`. */
  function LivesExcept(sel: Selection, r: AgeRange): nat
  {
    if sel == [] then 0
    else (if sel[0].range == r then 0 else sel[0].count) + LivesExcept(sel[1..], r)
  }

  /** With one entry per bracket, the total splits into the lives of `r` and
      those of every other bracket. */
  lemma {:induction false} TotalSplits(sel: Selection, r: AgeRange)
    requires Distinct(RangesOf(sel))
    ensures TotalLives(sel) == Count(sel, r) + LivesExcept(sel, r)
  {
    if sel != [] {
      assert RangesOf(sel[1..]) == RangesOf(sel)[1..];
      TotalSplits(sel[1..], r);
      if sel[0].range == r {
        assert r !in RangesOf(sel[1..]) by {
          forall i | 0 <= i < |sel| - 1 ensures RangesOf(sel[1..])[i] != r {
            assert RangesOf(sel)[i + 1] != RangesOf(sel)[0];
          }
        }
        LivesExceptAbsent(sel[1..], r);
      }
    }
  }

  lemma {:induction false} LivesExceptAbsent(sel: Selection, r: AgeRange)
    requires r !in RangesOf(sel)
    ensures LivesExcept(sel, r) == TotalLives(sel)
  {
    if sel != [] {
      assert RangesOf(sel)[0] == sel[0].range;
      assert RangesOf(sel[1..]) == RangesOf(sel)[1..];
      LivesExceptAbsent(sel[1..], r);
    }
  }

  /** `LivesExcept` is zero exactly when every other bracket is empty. */
  lemma {:induction false} LivesExceptZero(sel: Selection, r: AgeRange)
    ensures LivesExcept(sel, r) == 0 <==>
            forall i :: 0 <= i < |sel| && sel[i].range != r ==> sel[i].count == 0
  {
    if sel != [] {
      LivesExceptZero(sel[1..], r);
      assert forall i :: 1 <= i < |sel| ==> sel[i] == sel[1..][i - 1];
    }
  }

  /** `isSoloMinor`: some lives were entered and all of them are in "0-18". */
  predicate IsSoloMinor(sel: Selection): (b: bool)
    ensures b ==> Count(sel, Range0To18) > 0
  {
    TotalLives(sel) != 0 && Count(sel, Range0To18) == TotalLives(sel)
  }

  /** A selection is solo-minor exactly when "0-18" holds a life and every other
      bracket is empty. */
  lemma SoloMinorMeansOnlyMinors(sel: Selection)
    requires Distinct(RangesOf(sel))
    ensures IsSoloMinor(sel) <==>
            Count(sel, Range0To18) > 0 &&
            forall i :: 0 <= i < |sel| && sel[i].range != Range0To18 ==> sel[i].count == 0
  {
    TotalSplits(sel, Range0To18);
    LivesExceptZero(sel, Range0To18);
  }

  /** A life is counted in bracket `r`. */
  predicate IsActive(e: Entry)
  {
    e.count > 0
  }

  /** `activeAges`: the entries with a positive count, in entry order. */
  function ActiveAges(sel: Selection): (active: Selection)
    ensures forall e :: e in active <==> e in sel && e.count > 0
  {
    Filter(sel, IsActive)
  }

  /** No bracket is active exactly when no life was entered. */
  lemma {:induction false} NoActiveIffNoLives(sel: Selection)
    ensures ActiveAges(sel) == [] <==> TotalLives(sel) == 0
  {
    if sel != [] {
      NoActiveIffNoLives(sel[1..]);
      assert sel == [sel[0]] + sel[1..];
      FilterConcat([sel[0]], sel[1..], IsActive);
      FilterSingleton(sel[0], IsActive);
    }
  }

  /** The active entries hold every life of the selection. */
  lemma {:induction false} ActiveAgesKeepTotal(sel: Selection)
    ensures TotalLives(ActiveAges(sel)) == TotalLives(sel)
  {
    if sel != [] {
      ActiveAgesKeepTotal(sel[1..]);
      assert sel == [sel[0]] + sel[1..];
      FilterConcat([sel[0]], sel[1..], IsActive);
      FilterSingleton(sel[0], IsActive);
      if IsActive(sel[0]) {
        assert ActiveAges(sel) == [sel[0]] + ActiveAges(sel[1..]);
        assert ActiveAges(sel)[1..] == ActiveAges(sel[1..]);
      } else {
        assert ActiveAges(sel) == ActiveAges(sel[1..]);
      }
    }
  }

  /** The initial selection: every bracket of `ranges` at zero. */
  function Zeroed(ranges: seq<AgeRange>): (sel: Selection)
    ensures RangesOf(sel) == ranges
    ensures forall i :: 0 <= i < |sel| ==> sel[i].count == 0
  {
    seq(|ranges|, i requires 0 <= i < |ranges| => Entry(ranges[i], 0))
  }

  lemma {:induction false} ZeroedHasNoLives(ranges: seq<AgeRange>)
    ensures TotalLives(Zeroed(ranges)) == 0
    ensures !IsSoloMinor(Zeroed(ranges))
    decreases |ranges|
  {
    if ranges != [] {
      assert Zeroed(ranges)[1..] == Zeroed(ranges[1..]);
      ZeroedHasNoLives(ranges[1..]);
    }
  }

  /** `{ ...sel, [r]: n }` for a bracket `r` the selection already holds: the
      entry keeps its place and takes the new count. */
  function SetCount(sel: Selection, r: AgeRange, n: nat): Selection
  {
    seq(|sel|, i requires 0 <= i < |sel| => if sel[i].range == r then Entry(r, n) else sel[i])
  }

  /** Setting one bracket changes that bracket's count only, and keeps the
      brackets and their order. */
  lemma {:induction false} CountAfterSetCount(sel: Selection, r: AgeRange, n: nat, q: AgeRange)
    requires r in RangesOf(sel)
    ensures RangesOf(SetCount(sel, r, n)) == RangesOf(sel)
    ensures Count(SetCount(sel, r, n), q) == if q == r then n else Count(sel, q)
  {
    var s := SetCount(sel, r, n);
    assert RangesOf(s) == RangesOf(sel);
    if sel[0].range != r {
      assert s[1..] == SetCount(sel[1..], r, n);
      assert RangesOf(sel[1..]) == RangesOf(sel)[1..];
      CountAfterSetCount(sel[1..], r, n, q);
    } else if q != r {
      assert s[1..] == SetCount(sel[1..], r, n);
      SetCountAbsent(sel[1..], r, n, q);
    }
  }

  lemma {:induction false} SetCountAbsent(sel: Selection, r: AgeRange, n: nat, q: AgeRange)
    requires q != r
    ensures Count(SetCount(sel, r, n), q) == Count(sel, q)
  {
    if sel != [] {
      assert SetCount(sel, r, n)[1..] == SetCount(sel[1..], r, n);
      SetCountAbsent(sel[1..], r, n, q);
    }
  }

  /** With one entry per bracket, setting `r` to `n` moves the total by the
      difference between the new and the old count of `r`. */
  lemma TotalAfterSetCount(sel: Selection, r: AgeRange, n: nat)
    requires Distinct(RangesOf(sel)) && r in RangesOf(sel)
    ensures TotalLives(SetCount(sel, r, n)) == TotalLives(sel) - Count(sel, r) + n
  {
    var s := SetCount(sel, r, n);
    CountAfterSetCount(sel, r, n, r);
    TotalSplits(sel, r);
    TotalSplits(s, r);
    LivesExceptSetCount(sel, r, n);
  }

  lemma {:induction false} LivesExceptSetCount(sel: Selection, r: AgeRange, n: nat)
    ensures LivesExcept(SetCount(sel, r, n), r) == LivesExcept(sel, r)
  {
    if sel != [] {
      assert SetCount(sel, r, n)[1..] == SetCount(sel[1..], r, n);
      LivesExceptSetCount(sel[1..], r, n);
    }
  }
}
