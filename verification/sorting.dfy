/** A stable sort by an integer key: the model of Python's `sorted(..., key=...)`. */
module Sorting {

  /** Keys never decrease along the sequence. */
  predicate SortedBy<T>(s: seq<T>, key: T -> int) {
    forall i, j :: 0 <= i < j < |s| ==> key(s[i]) <= key(s[j])
  }

  /** Places x before the first element whose key is not smaller, so x stays ahead of its equals. */
  function InsertBy<T>(x: T, s: seq<T>, key: T -> int): seq<T> {
    if s == [] || key(x) <= key(s[0]) then [x] + s
    else [s[0]] + InsertBy(x, s[1..], key)
  }

  /** Inserting adds exactly x: every other element comes from s. */
  lemma {:induction false} InsertByElements<T>(x: T, s: seq<T>, key: T -> int)
    ensures var r := InsertBy(x, s, key);
            multiset(r) == multiset(s) + multiset{x} && |r| == |s| + 1 &&
            forall i :: 0 <= i < |r| ==> r[i] == x || r[i] in s
  {
    if !(s == [] || key(x) <= key(s[0])) {
      var rest := InsertBy(x, s[1..], key);
      InsertByElements(x, s[1..], key);
      assert s == [s[0]] + s[1..];
      forall i | 0 <= i < |rest| ensures rest[i] == x || rest[i] in s {
        if rest[i] != x {
          assert rest[i] in s[1..];
        }
      }
    }
  }

  /** Inserting into a sorted sequence keeps it sorted. */
  lemma {:induction false} InsertBySorted<T>(x: T, s: seq<T>, key: T -> int)
    requires SortedBy(s, key)
    ensures SortedBy(InsertBy(x, s, key), key)
  {
    if !(s == [] || key(x) <= key(s[0])) {
      InsertBySorted(x, s[1..], key);
      InsertByElements(x, s[1..], key);
      HeadBelow(x, s, InsertBy(x, s[1..], key), key);
    } else {
      forall i, j | 0 <= i < j < |[x] + s| ensures key(([x] + s)[i]) <= key(([x] + s)[j]) {
        if i > 0 {
          assert key(s[i - 1]) <= key(s[j - 1]);
        } else {
          assert key(s[0]) <= key(s[j - 1]);
        }
      }
    }
  }

  /** The head of a sorted sequence stays below anything drawn from its tail or bigger than it. */
  lemma HeadBelow<T>(x: T, s: seq<T>, rest: seq<T>, key: T -> int)
    requires SortedBy(s, key) && |s| > 0 && key(s[0]) < key(x)
    requires SortedBy(rest, key)
    requires forall i :: 0 <= i < |rest| ==> rest[i] == x || rest[i] in s[1..]
    ensures SortedBy([s[0]] + rest, key)
  {
    forall i | 0 <= i < |rest|
      ensures key(s[0]) <= key(rest[i])
    {
      if rest[i] != x {
        var j :| 0 <= j < |s[1..]| && s[1..][j] == rest[i];
        assert s[1..][j] == s[j + 1];
      }
    }
    forall i, j | 0 <= i < j < |[s[0]] + rest|
      ensures key(([s[0]] + rest)[i]) <= key(([s[0]] + rest)[j])
    {
      if i > 0 {
        assert ([s[0]] + rest)[i] == rest[i - 1];
      }
      assert ([s[0]] + rest)[j] == rest[j - 1];
    }
  }

  /** Insertion sort. */
  function SortBy<T>(s: seq<T>, key: T -> int): seq<T> {
    if s == [] then [] else InsertBy(s[0], SortBy(s[1..], key), key)
  }

  /** The sort returns an ordering of exactly the input's elements. */
  lemma SortByFacts<T>(s: seq<T>, key: T -> int)
    ensures var r := SortBy(s, key);
            SortedBy(r, key) && multiset(r) == multiset(s) && |r| == |s|
  {
    SortBySorted(s, key);
    SortByElements(s, key);
  }

  lemma {:induction false} SortBySorted<T>(s: seq<T>, key: T -> int)
    ensures SortedBy(SortBy(s, key), key)
  {
    if s != [] {
      SortBySorted(s[1..], key);
      InsertBySorted(s[0], SortBy(s[1..], key), key);
    }
  }

  lemma {:induction false} SortByElements<T>(s: seq<T>, key: T -> int)
    ensures multiset(SortBy(s, key)) == multiset(s) && |SortBy(s, key)| == |s|
  {
    if s != [] {
      SortByElements(s[1..], key);
      InsertByElements(s[0], SortBy(s[1..], key), key);
      assert s == [s[0]] + s[1..];
    }
  }

  /** A prefix of a sorted sequence is sorted. */
  lemma PrefixSorted<T>(s: seq<T>, n: nat, key: T -> int)
    requires SortedBy(s, key) && n <= |s|
    ensures SortedBy(s[..n], key)
  {
    forall i, j | 0 <= i < j < n ensures key(s[..n][i]) <= key(s[..n][j]) {
      assert s[..n][i] == s[i] && s[..n][j] == s[j];
    }
  }

  /** A prefix holds no element more often than the whole sequence. */
  lemma PrefixMultiset<T>(s: seq<T>, n: nat)
    requires n <= |s|
    ensures multiset(s[..n]) <= multiset(s)
  {
    assert s == s[..n] + s[n..];
  }
}
