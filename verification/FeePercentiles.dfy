/** Priority fee levels: order statistics of the sampled fees. */
module FeePercentiles {
  import opened TimedStore

  datatype Levels = Levels(min: int, low: int, medium: int, high: int, veryHigh: int)

  // ---------------------------------------------------------------- sorting

  ghost predicate Sorted(s: seq<int>) { forall i, j :: 0 <= i < j < |s| ==> s[i] <= s[j] }

  function Insert(x: int, s: seq<int>): (r: seq<int>)
    ensures |r| == |s| + 1
    ensures forall y :: y in r ==> y == x || y in s
  {
    if s == [] || x <= s[0] then [x] + s else [s[0]] + Insert(x, s[1..])
  }

  /** Python's sort, as far as numbers can tell. */
  function Sort(s: seq<int>): (r: seq<int>)
    ensures |r| == |s|
  {
    if s == [] then [] else Insert(s[0], Sort(s[1..]))
  }

  lemma {:induction false} InsertSorted(x: int, s: seq<int>)
    requires Sorted(s)
    ensures Sorted(Insert(x, s))
  {
    if s != [] && x > s[0] {
      InsertSorted(x, s[1..]);
      var rest := Insert(x, s[1..]);
      forall i | 0 <= i < |rest| ensures s[0] <= rest[i] {
        assert rest[i] in rest;
      }
    }
  }

  lemma HeadAndTail(s: seq<int>)
    requires s != []
    ensures multiset(s) == multiset{s[0]} + multiset(s[1..])
  {
    assert s == [s[0]] + s[1..];
  }

  lemma {:induction false} InsertAdds(x: int, s: seq<int>)
    ensures multiset(Insert(x, s)) == multiset{x} + multiset(s)
  {
    if s != [] && x > s[0] {
      InsertAdds(x, s[1..]);
      HeadAndTail(s);
    }
  }

  lemma {:induction false} SortSorts(s: seq<int>)
    ensures Sorted(Sort(s)) && multiset(Sort(s)) == multiset(s)
  {
    if s != [] {
      SortSorts(s[1..]);
      InsertSorted(s[0], Sort(s[1..]));
      InsertAdds(s[0], Sort(s[1..]));
      HeadAndTail(s);
    }
  }

  lemma SameMembers(s: seq<int>, t: seq<int>, x: int)
    requires multiset(s) == multiset(t) && x in s
    ensures x in t
  {
    assert x in multiset(s);
  }

  lemma SortedHead(s: seq<int>, x: int)
    requires Sorted(s) && x in s
    ensures s[0] <= x
  {}

  lemma SameHead(s: seq<int>, t: seq<int>)
    requires Sorted(s) && Sorted(t) && multiset(s) == multiset(t) && s != []
    ensures t != [] && s[0] == t[0]
  {
    SameMembers(s, t, s[0]);
    SameMembers(t, s, t[0]);
    SortedHead(s, t[0]);
    SortedHead(t, s[0]);
  }

  lemma SameTail(s: seq<int>, t: seq<int>)
    requires multiset(s) == multiset(t) && s != [] && t != [] && s[0] == t[0]
    ensures multiset(s[1..]) == multiset(t[1..])
  {
    HeadAndTail(s);
    HeadAndTail(t);
    assert multiset(s[1..]) == multiset(s) - multiset{s[0]};
    assert multiset(t[1..]) == multiset(t) - multiset{t[0]};
  }

  lemma {:induction false} SortedUnique(s: seq<int>, t: seq<int>)
    requires Sorted(s) && Sorted(t) && multiset(s) == multiset(t)
    ensures s == t
  {
    if s == [] {
      assert |multiset(t)| == 0;
    } else {
      SameHead(s, t);
      SameTail(s, t);
      SortedUnique(s[1..], t[1..]);
      assert s == [s[0]] + s[1..] && t == [t[0]] + t[1..];
    }
  }

  // ---------------------------------------------------------------- the levels

  /** The 95th percentile is only taken from twenty samples on. */
  function VeryHighIndex(n: nat): nat
    requires n > 0
  {
    if n >= 20 then n * 95 / 100 else n - 1
  }

  function Index(n: nat, level: nat): nat
    requires n > 0
  {
    match level
    case 0 => 0
    case 1 => n / 4
    case 2 => n / 2
    case 3 => n * 3 / 4
    case _ => VeryHighIndex(n)
  }

  /** Every index is in range, and they ascend whatever the number of samples. */
  lemma IndicesAscend(n: nat, level: nat, level': nat)
    requires n > 0 && level <= level'
    ensures Index(n, level) <= Index(n, level') < n
  {
    var a, b, c, d := n / 4, n / 2, n * 3 / 4, VeryHighIndex(n);
    assert 0 <= a <= b <= c <= d < n;
  }

  function Pick(samples: seq<int>, level: nat): int
    requires samples != []
  {
    IndicesAscend(|samples|, level, level);
    Sort(samples)[Index(|samples|, level)]
  }

  /** The fees are sorted and five of them picked; without samples there is nothing to pick. */
  method PriorityFees(samples: seq<int>) returns (r: Option<Levels>)
    ensures r == None <==> samples == []
    ensures r.Some? ==>
      r.value == Levels(Pick(samples, 0), Pick(samples, 1), Pick(samples, 2), Pick(samples, 3), Pick(samples, 4))
  {
    if samples == [] {
      return None;
    }
    var fees := Sort(samples);
    var n := |fees|;
    var veryHigh := if n >= 20 then fees[n * 95 / 100] else fees[n - 1];
    r := Some(Levels(fees[0], fees[n / 4], fees[n / 2], fees[n * 3 / 4], veryHigh));
  }

  // ---------------------------------------------------------------- what the levels mean

  lemma LevelsAscend(samples: seq<int>, level: nat, level': nat)
    requires samples != [] && level <= level'
    ensures Pick(samples, level) <= Pick(samples, level')
  {
    IndicesAscend(|samples|, level, level');
    SortSorts(samples);
  }

  function CountAtMost(s: seq<int>, x: int): nat {
    if s == [] then 0 else (if s[0] <= x then 1 else 0) + CountAtMost(s[1..], x)
  }

  function CountAtLeast(s: seq<int>, x: int): nat {
    if s == [] then 0 else (if s[0] >= x then 1 else 0) + CountAtLeast(s[1..], x)
  }

  lemma {:induction false} CountAtMostPositions(s: seq<int>, x: int)
    ensures CountAtMost(s, x) == |set i: nat | i < |s| && s[i] <= x|
  {
    if s != [] {
      var n := |s| - 1;
      CountAtMostPositions(s[..n], x);
      assert s == s[..n] + [s[n]];
      CountsSplit(s[..n], [s[n]], x);
      assert forall i: nat :: i < n ==> s[..n][i] == s[i];
      var before := set i: nat | i < n && s[..n][i] <= x;
      assert (set i: nat | i < |s| && s[i] <= x) == if s[n] <= x then before + {n} else before;
    }
  }

  lemma {:induction false} CountAtLeastPositions(s: seq<int>, x: int)
    ensures CountAtLeast(s, x) == |set i: nat | i < |s| && s[i] >= x|
  {
    if s != [] {
      var n := |s| - 1;
      CountAtLeastPositions(s[..n], x);
      assert s == s[..n] + [s[n]];
      CountsSplit(s[..n], [s[n]], x);
      assert forall i: nat :: i < n ==> s[..n][i] == s[i];
      var before := set i: nat | i < n && s[..n][i] >= x;
      assert (set i: nat | i < |s| && s[i] >= x) == if s[n] >= x then before + {n} else before;
    }
  }

  lemma {:induction false} CountsSplit(s: seq<int>, t: seq<int>, x: int)
    ensures CountAtMost(s + t, x) == CountAtMost(s, x) + CountAtMost(t, x)
    ensures CountAtLeast(s + t, x) == CountAtLeast(s, x) + CountAtLeast(t, x)
  {
    if s == [] {
      assert s + t == t;
    } else {
      assert (s + t)[1..] == s[1..] + t;
      CountsSplit(s[1..], t, x);
    }
  }

  lemma {:induction false} PrefixCounts(s: seq<int>, m: nat, x: int)
    requires m <= |s| && forall k :: 0 <= k < m ==> s[k] <= x
    ensures CountAtMost(s, x) >= m
  {
    if m > 0 {
      PrefixCounts(s[1..], m - 1, x);
    }
  }

  lemma {:induction false} SuffixCounts(s: seq<int>, i: nat, x: int)
    requires i <= |s| && forall k :: i <= k < |s| ==> s[k] >= x
    ensures CountAtLeast(s, x) >= |s| - i
  {
    if s != [] {
      SuffixCounts(s[1..], if i == 0 then 0 else i - 1, x);
    }
  }

  lemma RemoveAt(t: seq<int>, i: nat, x: int)
    requires i < |t|
    ensures multiset(t) == multiset{t[i]} + multiset(t[..i] + t[i + 1..])
    ensures CountAtMost(t, x) == CountAtMost([t[i]], x) + CountAtMost(t[..i] + t[i + 1..], x)
    ensures CountAtLeast(t, x) == CountAtLeast([t[i]], x) + CountAtLeast(t[..i] + t[i + 1..], x)
  {
    assert t == t[..i] + ([t[i]] + t[i + 1..]);
    CountsSplit(t[..i], [t[i]] + t[i + 1..], x);
    CountsSplit([t[i]], t[i + 1..], x);
    CountsSplit(t[..i], t[i + 1..], x);
  }

  lemma RemoveBoth(s: seq<int>, t: seq<int>, i: nat)
    requires multiset(s) == multiset(t) && s != [] && i < |t| && t[i] == s[0]
    ensures multiset(s[1..]) == multiset(t[..i] + t[i + 1..])
  {
    HeadAndTail(s);
    RemoveAt(t, i, 0);
    assert multiset(s[1..]) == multiset(s) - multiset{s[0]};
    assert multiset(t[..i] + t[i + 1..]) == multiset(t) - multiset{t[i]};
  }

  /** Counting does not depend on the order. */
  lemma {:induction false} CountsOfPermutation(s: seq<int>, t: seq<int>, x: int)
    requires multiset(s) == multiset(t)
    ensures CountAtMost(s, x) == CountAtMost(t, x) && CountAtLeast(s, x) == CountAtLeast(t, x)
  {
    if s == [] {
      assert |multiset(t)| == 0;
    } else {
      SameMembers(s, t, s[0]);
      var i :| 0 <= i < |t| && t[i] == s[0];
      RemoveBoth(s, t, i);
      RemoveAt(t, i, x);
      CountsOfPermutation(s[1..], t[..i] + t[i + 1..], x);
    }
  }

  lemma SortedCounts(samples: seq<int>, s: seq<int>, i: nat)
    requires Sorted(s) && multiset(s) == multiset(samples) && i < |s|
    ensures CountAtMost(samples, s[i]) >= i + 1 && CountAtLeast(samples, s[i]) >= |s| - i
  {
    PrefixCounts(s, i + 1, s[i]);
    SuffixCounts(s, i, s[i]);
    CountsOfPermutation(s, samples, s[i]);
  }

  /** A fee picked at index i has at least i + 1 samples no larger and n - i no smaller, in the samples as
      they came. */
  lemma {:induction false} PickIsOrderStatistic(samples: seq<int>, level: nat)
    requires samples != []
    ensures
      var i, x := Index(|samples|, level), Pick(samples, level);
      x in samples && CountAtMost(samples, x) >= i + 1 && CountAtLeast(samples, x) >= |samples| - i
  {
    IndicesAscend(|samples|, level, level);
    SortSorts(samples);
    var s, i := Sort(samples), Index(|samples|, level);
    SameMembers(s, samples, s[i]);
    SortedCounts(samples, s, i);
  }

  /** The percentile that each level stands for. */
  function Percent(level: nat): nat {
    match level
    case 0 => 0
    case 1 => 25
    case 2 => 50
    case 3 => 75
    case _ => 95
  }

  lemma IndexIsPercentile(n: nat, level: nat)
    requires n > 0 && (level < 4 || n >= 20)
    ensures Percent(level) * n < 100 * (Index(n, level) + 1)
    ensures 100 * Index(n, level) <= Percent(level) * n
  {}

  /** A level is a percentile of the samples: more than p per cent of them are no larger and at least
      100 - p per cent no smaller.  For the top level that takes twenty samples. */
  lemma LevelIsPercentile(samples: seq<int>, level: nat)
    requires samples != [] && (level < 4 || |samples| >= 20)
    ensures
      var n, p, x := |samples|, Percent(level), Pick(samples, level);
      && 100 * |set i: nat | i < |samples| && samples[i] <= x| > p * n
      && 100 * |set i: nat | i < |samples| && samples[i] >= x| >= (100 - p) * n
  {
    CountAtMostPositions(samples, Pick(samples, level));
    CountAtLeastPositions(samples, Pick(samples, level));
    IndexIsPercentile(|samples|, level);
    PickIsOrderStatistic(samples, level);
    assert (100 - Percent(level)) * |samples| == 100 * |samples| - Percent(level) * |samples|;
  }

  /** The order in which the samples come does not matter. */
  lemma OrderIrrelevant(samples: seq<int>, shuffled: seq<int>, level: nat)
    requires samples != [] && multiset(samples) == multiset(shuffled)
    ensures shuffled != [] && Pick(samples, level) == Pick(shuffled, level)
  {
    assert |samples| == |multiset(samples)| == |multiset(shuffled)| == |shuffled|;
    SortSorts(samples);
    SortSorts(shuffled);
    SortedUnique(Sort(samples), Sort(shuffled));
  }

  /** Below twenty samples the top level is the dearest sample. */
  lemma VeryHighIsMaximum(samples: seq<int>, x: int)
    requires 0 < |samples| < 20 && x in samples
    ensures x <= Pick(samples, 4)
  {
    SortSorts(samples);
    SameMembers(samples, Sort(samples), x);
  }
}
