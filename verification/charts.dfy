/**
 * The decisions inside the display code of both scripts: which keys `print_stats` lists, and how
 * `print_charts` marks each activity bucket against the median.
 */
module Charts {
  import opened Wrappers
  import opened PySeq
  import opened Sorting

  // ---------------------------------------------------------------- print_stats

  /** A counter's entries in the dict's iteration order: key and count. */
  type Entry = (string, nat)

  function CountOf(e: Entry): int { e.1 }

  /** `sorted(..., key=dataset.get, reverse=True)`: a stable sort on the negated count. */
  function Descending(e: Entry): int { -CountOf(e) }

  function Total(entries: seq<Entry>): nat {
    if entries == [] then 0 else entries[0].1 + Total(entries[1..])
  }

  /** What `print_stats` shows. */
  datatype Listing =
      /** The counts sum to zero: the analyzer prints "No data", the profiler prints nothing. */
    | NoData
      /** The keys printed, in order, with their counts. */
    | Ranked(rows: seq<Entry>)
      /** `max()` of an empty list of key widths raises ValueError before anything is printed. */
    | WidthError

  /** How many keys the loop prints before `i >= top` breaks it: at least one, since the test follows the print. */
  function Shown(top: int, n: nat): nat {
    if top >= 1 then Min(top, n) else 1
  }

  /**
   * `print_stats(dataset, top)`: nothing when the counts sum to zero; otherwise the key widths of
   * `sorted_keys[:top]` must be non-empty (so `top` is neither 0 nor at most minus the number of
   * keys), and then the first `Shown(top, n)` keys of the descending order are printed.
   */
  function TopKeys(entries: seq<Entry>, top: int): (r: Listing)
    ensures r == NoData <==> Total(entries) == 0
    ensures r == WidthError <==> Total(entries) > 0 && (top == 0 || top <= -|entries|)
    ensures r.Ranked? ==> 0 < |r.rows| <= |entries|
  {
    if Total(entries) == 0 then NoData
    else
      TotalPositive(entries);
      if top == 0 || top <= -|entries| then WidthError
      else
        SortByFacts(entries, Descending);
        Ranked(SortBy(entries, Descending)[..Shown(top, |entries|)])
  }

  /** The keys listed are `min(top, n)` of the input (one when `top` < 1), in non-increasing count order. */
  lemma TopKeysRanked(entries: seq<Entry>, top: int)
    requires TopKeys(entries, top).Ranked?
    ensures var rows := TopKeys(entries, top).rows;
            |rows| == Shown(top, |entries|) && 0 < |rows| <= |entries| && (top >= 1 ==> |rows| <= top) &&
            SortedBy(rows, Descending) && multiset(rows) <= multiset(entries)
  {
    TotalPositive(entries);
    var sorted := SortBy(entries, Descending);
    var rows := TopKeys(entries, top).rows;
    SortByFacts(entries, Descending);
    assert rows == sorted[..Shown(top, |entries|)];
    PrefixSorted(sorted, |rows|, Descending);
    PrefixMultiset(sorted, |rows|);
  }

  lemma {:induction false} TotalPositive(entries: seq<Entry>)
    requires Total(entries) > 0
    ensures |entries| > 0
  {
  }

  /**
   * The top-N property: every key left out has a count no larger than the last key printed, so the
   * printed keys are the most frequent ones.
   */
  lemma TopKeysAreTop(entries: seq<Entry>, top: int)
    requires TopKeys(entries, top).Ranked?
    ensures var rows := TopKeys(entries, top).rows;
            forall e :: e in entries ==> e in rows || e.1 <= rows[|rows| - 1].1
  {
    var rows := TopKeys(entries, top).rows;
    var sorted := SortBy(entries, Descending);
    SortByFacts(entries, Descending);
    TopKeysRanked(entries, top);
    assert rows == sorted[..|rows|];
    forall e | e in entries
      ensures e in rows || e.1 <= rows[|rows| - 1].1
    {
      assert e in multiset(sorted);
      var j :| 0 <= j < |sorted| && sorted[j] == e;
      if j >= |rows| {
        assert Descending(sorted[|rows| - 1]) <= Descending(sorted[j]);
      } else {
        assert rows[j] == e;
      }
    }
  }

  /** With `top` 2 and three keys, the two most frequent are listed, larger first. */
  lemma TopKeysExample(entries: seq<Entry>)
    requires entries == [("en", 1), ("es", 5), ("fr", 3)]
    ensures TopKeys(entries, 2) == Ranked([("es", 5), ("fr", 3)])
  {
    assert Total(entries) > 0 by {
      assert Total(entries) == 1 + Total(entries[1..]);
    }
    var sorted := SortBy(entries, Descending);
    assert sorted == [("es", 5), ("fr", 3), ("en", 1)] by {
      SortThreeExample(entries);
    }
    assert sorted[..Shown(2, |entries|)] == [("es", 5), ("fr", 3)];
  }

  /** All-zero counts list nothing; a `top` of 0 fails on the empty width list. */
  lemma TopKeysEdgeExample()
    ensures TopKeys([("en", 0), ("es", 0)], 5) == NoData
    ensures TopKeys([("en", 2)], 0) == WidthError
  {
  }

  /** Sorting ("en",1), ("es",5), ("fr",3) by descending count. */
  lemma SortThreeExample(s: seq<Entry>)
    requires s == [("en", 1), ("es", 5), ("fr", 3)]
    ensures SortBy(s, Descending) == [("es", 5), ("fr", 3), ("en", 1)]
  {
    var tail := SortBy(s[1..], Descending);
    assert tail == [("es", 5), ("fr", 3)] by {
      assert s[1..][1..] == [("fr", 3)];
      assert SortBy(s[1..][1..], Descending) == [("fr", 3)];
      InsertAheadExample(("es", 5), SortBy(s[1..][1..], Descending));
    }
    InsertBehindExample(("en", 1), tail);
  }

  /** A larger count goes in front. */
  lemma InsertAheadExample(x: Entry, s: seq<Entry>)
    requires x == ("es", 5) && s == [("fr", 3)]
    ensures InsertBy(x, s, Descending) == [x] + s
  {
  }

  /** A smaller count goes behind both. */
  lemma InsertBehindExample(x: Entry, s: seq<Entry>)
    requires x == ("en", 1) && s == [("es", 5), ("fr", 3)]
    ensures InsertBy(x, s, Descending) == s + [x]
  {
    assert s[1..] == [("fr", 3)];
    assert InsertBy(x, s[1..], Descending) == s[1..] + [x];
  }


  // ---------------------------------------------------------------- print_charts

  /** numpy's median: the middle value of the sorted values, or the mean of the two middle ones. */
  function Median(vs: seq<int>): (m: real)
    requires |vs| > 0
    ensures MinOf(vs) as real <= m <= MaxOf(vs) as real
    ensures forall s :: SortedBy(s, Identity) && multiset(s) == multiset(vs) ==>
              |s| == |vs| && m == (s[(|s| - 1) / 2] + s[|s| / 2]) as real / 2.0
  {
    var s := SortBy(vs, Identity);
    SortByFacts(vs, Identity);
    SortedEnds(vs, s);
    MiddleBounds(s);
    MiddleMean(s);
    SortsAgree(vs);
    Middle(s)
  }

  /** The middle value of sorted values, or the mean of the two middle ones for an even count. */
  function Middle(s: seq<int>): real
    requires |s| > 0
  {
    var n := |s|;
    if n % 2 == 1 then s[n / 2] as real
    else (s[n / 2 - 1] + s[n / 2]) as real / 2.0
  }

  /** Both cases are the mean of the values at positions (n-1)/2 and n/2. */
  lemma MiddleMean(s: seq<int>)
    requires |s| > 0
    ensures Middle(s) == (s[(|s| - 1) / 2] + s[|s| / 2]) as real / 2.0
  {
  }

  lemma MiddleBounds(s: seq<int>)
    requires |s| > 0 && SortedBy(s, Identity)
    ensures s[0] as real <= Middle(s) <= s[|s| - 1] as real
  {
    SortedBounds(s);
  }

  /** Every ordering of the values is the one the sort returns. */
  lemma SortsAgree(vs: seq<int>)
    ensures forall s :: SortedBy(s, Identity) && multiset(s) == multiset(vs) ==> s == SortBy(vs, Identity)
  {
    SortByFacts(vs, Identity);
    forall s | SortedBy(s, Identity) && multiset(s) == multiset(vs)
      ensures s == SortBy(vs, Identity)
    {
      SortedUnique(s, SortBy(vs, Identity));
    }
  }

  /** Two orderings of the same values are equal. */
  lemma {:induction false} SortedUnique(a: seq<int>, b: seq<int>)
    requires SortedBy(a, Identity) && SortedBy(b, Identity) && multiset(a) == multiset(b)
    ensures a == b
    decreases |a|
  {
    assert |a| == |multiset(a)| == |multiset(b)| == |b|;
    if a != [] {
      SortedHeadLeast(a, b[0]);
      SortedHeadLeast(b, a[0]);
      assert a[0] == b[0];
      assert multiset(a[1..]) == multiset(b[1..]) by {
        assert a == [a[0]] + a[1..] && b == [b[0]] + b[1..];
        assert multiset(a) == multiset{a[0]} + multiset(a[1..]);
        assert multiset(b) == multiset{b[0]} + multiset(b[1..]);
        assert multiset(a[1..]) == multiset(a) - multiset{a[0]};
        assert multiset(b[1..]) == multiset(b) - multiset{b[0]};
      }
      SortedTail(a);
      SortedTail(b);
      SortedUnique(a[1..], b[1..]);
      assert a == [a[0]] + a[1..] && b == [b[0]] + b[1..];
    }
  }

  /** The head of sorted values is no larger than any of them. */
  lemma SortedHeadLeast(s: seq<int>, x: int)
    requires SortedBy(s, Identity) && x in multiset(s)
    ensures s[0] <= x
  {
    var i :| 0 <= i < |s| && s[i] == x;
    if 0 < i { assert Identity(s[0]) <= Identity(s[i]); }
  }

  lemma SortedTail(s: seq<int>)
    requires SortedBy(s, Identity) && s != []
    ensures SortedBy(s[1..], Identity)
  {
    forall x, y | 0 <= x < y < |s[1..]| ensures Identity(s[1..][x]) <= Identity(s[1..][y]) {
      assert Identity(s[x + 1]) <= Identity(s[y + 1]);
    }
  }

  function Identity(x: int): int { x }

  function MinOf(vs: seq<int>): (m: int)
    requires |vs| > 0
    ensures m in vs && forall i :: 0 <= i < |vs| ==> m <= vs[i]
  {
    if |vs| == 1 then vs[0] else var r := MinOf(vs[1..]); if vs[0] <= r then vs[0] else r
  }

  function MaxOf(vs: seq<int>): (m: int)
    requires |vs| > 0
    ensures m in vs && forall i :: 0 <= i < |vs| ==> vs[i] <= m
  {
    if |vs| == 1 then vs[0] else var r := MaxOf(vs[1..]); if vs[0] >= r then vs[0] else r
  }

  /** The ends of the sorted values are the least and the greatest of them. */
  lemma SortedEnds(vs: seq<int>, s: seq<int>)
    requires |vs| > 0 && s == SortBy(vs, Identity)
    ensures s[0] == MinOf(vs) && s[|s| - 1] == MaxOf(vs)
  {
    SortByFacts(vs, Identity);
    SortedBounds(s);
    var lo, hi := MinOf(vs), MaxOf(vs);
    assert s[0] in multiset(vs) && s[|s| - 1] in multiset(vs);
    assert lo in multiset(s) && hi in multiset(s);
    var i :| 0 <= i < |s| && s[i] == lo;
    var j :| 0 <= j < |s| && s[j] == hi;
    var a :| 0 <= a < |vs| && vs[a] == s[0];
    var b :| 0 <= b < |vs| && vs[b] == s[|s| - 1];
  }

  lemma SortedBounds(s: seq<int>)
    requires |s| > 0 && SortedBy(s, Identity)
    ensures forall i :: 0 <= i < |s| ==> s[0] <= s[i] <= s[|s| - 1]
  {
    forall i | 0 <= i < |s| ensures s[0] <= s[i] <= s[|s| - 1] {
      if 0 < i { assert Identity(s[0]) <= Identity(s[i]); }
      if i < |s| - 1 { assert Identity(s[i]) <= Identity(s[|s| - 1]); }
    }
  }

  /** The mark a bucket gets in the chart. */
  datatype Mark = High | Normal | Low

  /** `>= median * 1.33` is high, otherwise `<= median * 0.66` is low, anything else normal. */
  function Classify(v: int, median: real): (k: Mark)
    ensures k == High <==> v as real >= median * (133.0 / 100.0)
    ensures k == Low <==> v as real < median * (133.0 / 100.0) && v as real <= median * (66.0 / 100.0)
  {
    if v as real >= median * (133.0 / 100.0) then High
    else if v as real <= median * (66.0 / 100.0) then Low
    else Normal
  }

  /** For a non-negative median the mark only rises with the value. */
  lemma ClassifyMonotone(v: int, w: int, median: real)
    requires v <= w && median >= 0.0
    ensures Classify(v, median) == High ==> Classify(w, median) == High
    ensures Classify(w, median) == Low ==> Classify(v, median) == Low
  {
  }

  /** The marks of the buckets in key order (the bucket keys sort in hour or weekday order). */
  function Marks(buckets: seq<int>): (r: seq<Mark>)
    requires |buckets| > 0
    ensures |r| == |buckets|
    ensures forall i :: 0 <= i < |r| ==> r[i] == Classify(buckets[i], Median(buckets))
  {
    var m := Median(buckets);
    seq(|buckets|, i requires 0 <= i < |buckets| => Classify(buckets[i], m))
  }

  /** twitter_profiler.py's `print_charts`: no chart at all when every bucket is zero. */
  function ProfilerChart(buckets: seq<int>): (r: Option<seq<Mark>>)
    requires |buckets| > 0
    ensures r.None? <==> forall i :: 0 <= i < |buckets| ==> buckets[i] == 0
    ensures r.Some? ==> r.value == Marks(buckets)
  {
    if forall i :: 0 <= i < |buckets| ==> buckets[i] == 0 then None else Some(Marks(buckets))
  }

  /**
   * tweets_analyzer.py's `print_charts` has no such guard: it always draws `Marks(buckets)`.
   * A median of zero marks every non-negative bucket high, the empty ones included.
   */
  lemma ZeroMedianAllHigh(buckets: seq<int>)
    requires |buckets| > 0 && Median(buckets) == 0.0
    requires forall i :: 0 <= i < |buckets| ==> buckets[i] >= 0
    ensures forall i :: 0 <= i < |buckets| ==> Marks(buckets)[i] == High
  {
  }

  /** The median is an order statistic: when more than half the non-negative buckets are empty, it is 0. */
  lemma MostlyEmptyMedian(buckets: seq<int>)
    requires |buckets| > 0 && 2 * multiset(buckets)[0] > |buckets|
    requires forall i :: 0 <= i < |buckets| ==> buckets[i] >= 0
    ensures Median(buckets) == 0.0
  {
    var s := SortBy(buckets, Identity);
    SortByFacts(buckets, Identity);
    forall i | 0 <= i < |s| ensures s[i] >= 0 {
      assert s[i] in multiset(buckets);
    }
    ZerosLead(s);
    var n := |s|;
    assert n / 2 < multiset(s)[0];
  }

  /** In sorted non-negative values the zeros come first: the first `multiset(s)[0]` of them are 0. */
  lemma {:induction false} ZerosLead(s: seq<int>)
    requires SortedBy(s, Identity)
    requires forall i :: 0 <= i < |s| ==> s[i] >= 0
    ensures forall i :: 0 <= i < multiset(s)[0] ==> s[i] == 0
  {
    if s != [] {
      assert s == [s[0]] + s[1..];
      assert multiset(s) == multiset{s[0]} + multiset(s[1..]);
      if s[0] == 0 {
        assert SortedBy(s[1..], Identity) by {
          forall i, j | 0 <= i < j < |s[1..]| ensures Identity(s[1..][i]) <= Identity(s[1..][j]) {
            assert Identity(s[i + 1]) <= Identity(s[j + 1]);
          }
        }
        ZerosLead(s[1..]);
      } else {
        forall i | 0 <= i < |s| ensures s[i] != 0 {
          if 0 < i { assert Identity(s[0]) <= Identity(s[i]); }
        }
        assert 0 !in multiset(s);
      }
    }
  }

  /** So on a mostly quiet day or week every bucket, quiet or not, is marked high. */
  lemma MostlyEmptyAllHigh(buckets: seq<int>)
    requires |buckets| > 0 && 2 * multiset(buckets)[0] > |buckets|
    requires forall i :: 0 <= i < |buckets| ==> buckets[i] >= 0
    ensures forall i :: 0 <= i < |buckets| ==> Marks(buckets)[i] == High
  {
    MostlyEmptyMedian(buckets);
    ZeroMedianAllHigh(buckets);
  }

  /** Tweets on a single weekday: the median is 0, so all seven days, empty or not, are marked high. */
  lemma SingleDayExample(week: seq<int>)
    requires week == [0, 0, 0, 0, 0, 0, 7]
    ensures Median(week) == 0.0
  {
    assert week == seq(6, _ => 0) + [7];
    ZerosThenOneSorted(6, 7);
  }

  /** ... and the chart is drawn, since one bucket is nonzero. */
  lemma SingleDayChartExample(week: seq<int>)
    requires week == [0, 0, 0, 0, 0, 0, 7]
    ensures ProfilerChart(week).Some?
    ensures forall i :: 0 <= i < |week| ==> ProfilerChart(week).value[i] == High
  {
    SingleDayExample(week);
    NonNegativeWeek(week);
    ZeroMedianChart(week, 6);
  }

  lemma NonNegativeWeek(week: seq<int>)
    requires week == [0, 0, 0, 0, 0, 0, 7]
    ensures |week| == 7 && week[6] != 0 && forall i :: 0 <= i < |week| ==> week[i] >= 0
  {
  }

  /** With a zero median the profiler draws the chart whenever one bucket is busy, every bucket marked high. */
  lemma ZeroMedianChart(buckets: seq<int>, busy: int)
    requires 0 <= busy < |buckets| && buckets[busy] != 0 && Median(buckets) == 0.0
    requires forall i :: 0 <= i < |buckets| ==> buckets[i] >= 0
    ensures ProfilerChart(buckets).Some?
    ensures forall i :: 0 <= i < |buckets| ==> ProfilerChart(buckets).value[i] == High
  {
    ZeroMedianAllHigh(buckets);
  }

  /** Zeros followed by one non-negative value are already in order, so sorting returns them unchanged. */
  lemma {:induction false} ZerosThenOneSorted(n: nat, v: int)
    requires v >= 0
    ensures SortBy(seq(n, _ => 0) + [v], Identity) == seq(n, _ => 0) + [v]
  {
    var s := seq(n, _ => 0) + [v];
    if n > 0 {
      var rest := seq(n - 1, _ => 0) + [v];
      assert s[0] == 0 && s[1..] == rest;
      ZerosThenOneSorted(n - 1, v);
      assert SortBy(s, Identity) == InsertBy(0, rest, Identity);
      InsertSmallest(0, rest);
      assert [0] + rest == s;
    } else {
      assert s[1..] == [];
    }
  }

  /** A value no larger than the head of a sorted list goes in front. */
  lemma InsertSmallest(x: int, s: seq<int>)
    requires |s| > 0 && x <= s[0]
    ensures InsertBy(x, s, Identity) == [x] + s
  {
  }

  /** `int_to_weekday`: the weekday key taken modulo seven names the day. */
  const Weekdays: seq<string> := ["Monday", "Tuesday", "Wednesday", "Thursday", "Friday", "Saturday", "Sunday"]

  function WeekdayName(day: int): (name: string)
    ensures name in Weekdays
  {
    Weekdays[day % 7]
  }

  /** Keys a week apart name the same day, and the keys "0".."6" name Monday..Sunday in order. */
  lemma WeekdayNamePeriodic(day: int)
    ensures WeekdayName(day + 7) == WeekdayName(day)
    ensures 0 <= day < 7 ==> WeekdayName(day) == Weekdays[day]
  {
    assert (day + 7) % 7 == day % 7;
  }
}
