/** The Python list and string primitives the two scripts rely on, with Python's semantics. */
module PySeq {
  import opened Wrappers

  function Min(a: int, b: int): int { if a <= b then a else b }

  function Max(a: int, b: int): int { if a >= b then a else b }

  /** No element occurs twice. */
  predicate Distinct<T(==)>(s: seq<T>) {
    forall i, j :: 0 <= i < j < |s| ==> s[i] != s[j]
  }

  /** Python's `s[:n]`: a non-negative bound keeps at most n elements, a negative one drops the last -n. */
  function Take<T>(s: seq<T>, n: int): (r: seq<T>)
    ensures |r| <= |s| && r == s[..|r|]
    ensures n >= 0 ==> |r| == Min(n, |s|)
    ensures n < 0 ==> |r| == Max(0, |s| + n)
  {
    if n >= 0 then s[..Min(n, |s|)] else s[..Max(0, |s| + n)]
  }

  /** A limit of -1 (the command line's "everything") silently drops the final element. */
  lemma TakeMinusOneDropsLast<T>(s: seq<T>)
    requires |s| > 0
    ensures Take(s, -1) == s[..|s| - 1]
    ensures Distinct(s) ==> s[|s| - 1] !in Take(s, -1)
  {
  }

  /** Taking n >= 1 from a non-empty sequence keeps its head and takes n - 1 from the rest. */
  lemma TakeCons<T>(s: seq<T>, n: int)
    requires |s| > 0 && n >= 1
    ensures Take(s, n) == [s[0]] + Take(s[1..], n - 1)
  {
    assert Min(n, |s|) == 1 + Min(n - 1, |s| - 1);
    assert s[..Min(n, |s|)] == [s[0]] + s[1..][..Min(n - 1, |s| - 1)];
  }

  /** Python's `s.index(x)`: the first position holding x, or None where Python raises ValueError. */
  function IndexOf<T(==)>(s: seq<T>, x: T): (r: Option<nat>)
    ensures r.None? <==> x !in s
    ensures r.Some? ==> r.value < |s| && s[r.value] == x && x !in s[..r.value]
  {
    if |s| == 0 then None
    else if s[0] == x then Some(0)
    else match IndexOf(s[1..], x)
      case None => None
      case Some(i) =>
        assert s[..i + 1] == [s[0]] + s[1..][..i];
        Some(i + 1)
  }

  /** `[f(x) for x in s]`. */
  function Project<T, U>(s: seq<T>, f: T -> U): (r: seq<U>)
    ensures |r| == |s|
    ensures forall i :: 0 <= i < |s| ==> r[i] == f(s[i])
  {
    seq(|s|, i requires 0 <= i < |s| => f(s[i]))
  }

  lemma ProjectCons<T, U>(s: seq<T>, f: T -> U)
    requires |s| > 0
    ensures Project(s, f) == [f(s[0])] + Project(s[1..], f)
  {
    assert forall i :: 1 <= i < |s| ==> s[1..][i - 1] == s[i];
  }

  /** The concatenation of a list of lists. */
  function Flatten<T>(ss: seq<seq<T>>): seq<T> {
    if ss == [] then [] else ss[0] + Flatten(ss[1..])
  }

  /** `[s[x:x+k] for x in range(0, len(s), k)]`: consecutive groups of k, the last one possibly shorter. */
  function Chunks<T>(s: seq<T>, k: nat): (r: seq<seq<T>>)
    requires k > 0
    ensures Flatten(r) == s
    ensures forall i :: 0 <= i < |r| ==> 0 < |r[i]| <= k
    ensures forall i :: 0 <= i < |r| - 1 ==> |r[i]| == k
    decreases |s|
  {
    if |s| == 0 then []
    else if |s| <= k then [s]
    else
      var rest := Chunks(s[k..], k);
      assert ([s[..k]] + rest)[1..] == rest;
      [s[..k]] + rest
  }

  /** Python's `sep.join(parts)` for a one-character separator. */
  function Join(parts: seq<string>, sep: char): string
    requires |parts| > 0
  {
    if |parts| == 1 then parts[0] else parts[0] + [sep] + Join(parts[1..], sep)
  }

  /** Joining with one separator introduces no other character. */
  lemma {:induction false} JoinAvoids(parts: seq<string>, sep: char, c: char)
    requires |parts| > 0 && sep != c
    requires forall i :: 0 <= i < |parts| ==> c !in parts[i]
    ensures c !in Join(parts, sep)
    decreases |parts|
  {
    if |parts| > 1 {
      JoinAvoids(parts[1..], sep, c);
      assert c !in parts[0];
    }
  }

  /** Python's `s.split(sep)` for a one-character separator: every occurrence cuts, so there is always one more part than separators. */
  function Split(s: string, sep: char): (r: seq<string>)
    ensures |r| == multiset(s)[sep] + 1
    ensures forall i :: 0 <= i < |r| ==> sep !in r[i]
    ensures Join(r, sep) == s
    decreases |s|
  {
    match IndexOf(s, sep)
    case None => [s]
    case Some(i) =>
      var rest := Split(s[i + 1..], sep);
      assert ([s[..i]] + rest)[1..] == rest;
      assert s == s[..i] + [sep] + s[i + 1..];
      [s[..i]] + rest
  }

  /** In the join of separator-free parts, the first separator ends the first part. */
  lemma JoinFirstSeparator(parts: seq<string>, sep: char)
    requires |parts| > 1
    requires sep !in parts[0]
    ensures IndexOf(Join(parts, sep), sep) == Some(|parts[0]|)
    ensures Join(parts, sep)[..|parts[0]|] == parts[0]
    ensures Join(parts, sep)[|parts[0]| + 1..] == Join(parts[1..], sep)
  {
    var j := Join(parts, sep);
    assert j == parts[0] + [sep] + Join(parts[1..], sep);
    assert j[..|parts[0]|] == parts[0];
    assert j[|parts[0]|] == sep;
    assert j[|parts[0]| + 1..] == Join(parts[1..], sep);
  }

  /** The separator-free parts come back out of their own join. */
  lemma {:induction false} SplitJoin(parts: seq<string>, sep: char)
    requires |parts| > 0
    requires forall i :: 0 <= i < |parts| ==> sep !in parts[i]
    ensures Split(Join(parts, sep), sep) == parts
    decreases |parts|
  {
    if |parts| > 1 {
      JoinFirstSeparator(parts, sep);
      SplitJoin(parts[1..], sep);
      assert parts == [parts[0]] + parts[1..];
    } else {
      assert sep !in parts[0];
    }
  }

  /** `needle` occurs in `hay` starting at position i. */
  predicate OccursAt(hay: string, needle: string, i: int)
    requires 0 <= i <= |hay| - |needle|
  {
    hay[i..i + |needle|] == needle
  }

  /** Python's `needle in hay` on strings (the empty string occurs everywhere). */
  predicate Contains(hay: string, needle: string) {
    exists i | 0 <= i <= |hay| - |needle| :: OccursAt(hay, needle, i)
  }

  function Sum(s: seq<int>): int {
    if s == [] then 0 else s[0] + Sum(s[1..])
  }

  /** `counter[i] += 1` on a list of buckets: bucket i gains one, every other bucket keeps its count. */
  function Bump(s: seq<int>, i: int): (r: seq<int>)
    requires 0 <= i < |s|
    ensures |r| == |s|
    ensures forall j :: 0 <= j < |r| ==> r[j] == s[j] + (if j == i then 1 else 0)
  {
    s[i := s[i] + 1]
  }

  /** Bumping one bucket raises the total by exactly one. */
  lemma {:induction false} SumIncrement(s: seq<int>, i: int)
    requires 0 <= i < |s|
    ensures Sum(Bump(s, i)) == Sum(s) + 1
    decreases |s|
  {
    if i > 0 {
      SumIncrement(s[1..], i - 1);
      assert Bump(s, i)[1..] == Bump(s[1..], i - 1);
    }
  }
}
