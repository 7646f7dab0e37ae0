/** Trigrams of a query and the similarity of two trigram lists. */
module Trigrams {

  /** Go strings are bytes: every character is below 256. */
  type Bytes = s: string | forall i | 0 <= i < |s| :: s[i] as int < 256 witness ""

  /** The three bytes at `i` as one number. */
  function Code(s: Bytes, i: nat): nat
    requires i + 3 <= |s|
  {
    s[i] as int * 65536 + s[i + 1] as int * 256 + s[i + 2] as int
  }

  /** The codes of all windows of three bytes, left to right. */
  function Codes(s: Bytes): (r: seq<nat>)
    ensures |s| >= 3 ==> |r| == |s| - 2 && forall i | 0 <= i < |r| :: r[i] == Code(s, i)
    ensures |s| < 3 ==> r == []
  {
    if |s| < 3 then [] else seq(|s| - 2, i requires 0 <= i < |s| - 2 => Code(s, i))
  }

  ghost predicate Sorted(s: seq<nat>) {
    forall i, k | 0 <= i < k < |s| :: s[i] <= s[k]
  }

  ghost predicate Increasing(s: seq<nat>) {
    forall i, k | 0 <= i < k < |s| :: s[i] < s[k]
  }

  function ToSet(s: seq<nat>): set<nat> {
    set x <- s
  }

  lemma DigitsUnique(a: nat, b: nat, c: nat, d: nat, e: nat, f: nat)
    requires b < 256 && c < 256 && e < 256 && f < 256
    requires a * 65536 + b * 256 + c == d * 65536 + e * 256 + f
    ensures a == d && b == e && c == f
  {
    var high, high' := a * 256 + b, d * 256 + e;
    assert 256 * high + c == 256 * high' + f;
    assert high == high';
  }

  /** Distinct windows have distinct codes. */
  lemma CodeInjective(s: Bytes, i: nat, t: Bytes, k: nat)
    requires i + 3 <= |s| && k + 3 <= |t|
    ensures Code(s, i) == Code(t, k) <==> s[i] == t[k] && s[i + 1] == t[k + 1] && s[i + 2] == t[k + 2]
  {
    if Code(s, i) == Code(t, k) {
      DigitsUnique(s[i] as int, s[i + 1] as int, s[i + 2] as int, t[k] as int, t[k + 1] as int, t[k + 2] as int);
    }
  }

  /** Sorts in place, as the library's sort does. */
  method Sort(a: array<nat>)
    modifies a
    ensures Sorted(a[..]) && ToSet(a[..]) == old(ToSet(a[..]))
  {
    for n := 0 to a.Length
      invariant Sorted(a[..n]) && ToSet(a[..]) == old(ToSet(a[..]))
    {
      InsertLast(a, n);
    }
    assert a[..a.Length] == a[..];
  }

  /** Moves element `n` down to its place among the sorted elements before it. */
  method InsertLast(a: array<nat>, n: nat)
    requires n < a.Length && Sorted(a[..n])
    modifies a
    ensures Sorted(a[..n + 1]) && ToSet(a[..]) == old(ToSet(a[..]))
  {
    var i := n;
    while i > 0 && a[i - 1] > a[i]
      invariant i <= n && ToSet(a[..]) == old(ToSet(a[..]))
      invariant forall j, k | 0 <= j < k <= n && k != i :: a[j] <= a[k]
    {
      ghost var before := a[..];
      a[i - 1], a[i] := a[i], a[i - 1];
      SwapKeepsSet(before, a[..], i);
      i := i - 1;
    }
  }

  lemma SwapKeepsSet(s: seq<nat>, t: seq<nat>, i: nat)
    requires 0 < i < |s| && t == s[i - 1 := s[i]][i := s[i - 1]]
    ensures ToSet(t) == ToSet(s)
  {
    forall x
      ensures x in t <==> x in s
    {
      if x in s {
        var k :| 0 <= k < |s| && s[k] == x;
        assert t[if k == i then i - 1 else if k == i - 1 then i else k] == x;
      }
    }
  }

  lemma ToSetSnoc(s: seq<nat>, x: nat)
    ensures ToSet(s + [x]) == ToSet(s) + {x}
  {
  }

  method FillCodes(s: Bytes) returns (trigrams: array<nat>)
    requires |s| >= 3
    ensures fresh(trigrams) && trigrams[..] == Codes(s)
  {
    trigrams := new nat[|s| - 2](i => 0);
    for i := 0 to |s| - 2
      invariant forall k | 0 <= k < i :: trigrams[k] == Code(s, k)
    {
      trigrams[i] := Code(s, i);
    }
  }

  /** A sorted list with each run of equal elements cut to one. */
  function Dedup(s: seq<nat>): (r: seq<nat>)
    ensures |r| <= |s| && (s != [] ==> r != [] && r[|r| - 1] == s[|s| - 1])
  {
    if |s| <= 1 then s
    else
      var n := |s| - 1;
      Dedup(s[..n]) + if s[n] != s[n - 1] then [s[n]] else []
  }

  lemma {:induction false} DedupIncreases(s: seq<nat>)
    requires Sorted(s)
    ensures Increasing(Dedup(s))
  {
    if |s| > 1 {
      DedupIncreases(s[..|s| - 1]);
    }
  }

  lemma {:induction false} DedupSet(s: seq<nat>)
    ensures ToSet(Dedup(s)) == ToSet(s)
  {
    if |s| > 1 {
      var n := |s| - 1;
      var front := s[..n];
      DedupSet(front);
      ToSetSnoc(front, s[n]);
      ToSetSnoc(Dedup(front), s[n]);
      assert s == front + [s[n]];
      assert front[n - 1] in ToSet(front);
    }
  }

  /** Drops repetitions from a sorted array, in place, and returns how many elements are left. */
  method Deduplicate(a: array<nat>) returns (n: nat)
    requires a.Length > 0
    modifies a
    ensures n <= a.Length && a[..n] == Dedup(old(a[..]))
  {
    ghost var sorted := a[..];
    n := 1;
    for i := 1 to a.Length
      invariant 1 <= n <= i && forall k | i - 1 <= k < a.Length :: a[k] == sorted[k]
      invariant a[..n] == Dedup(sorted[..i])
    {
      assert sorted[..i + 1][..i] == sorted[..i];
      if a[i] != a[i - 1] {
        a[n] := a[i];
        n := n + 1;
      }
    }
    assert sorted[..a.Length] == sorted;
  }

  /** The trigrams of a query: strictly increasing, one for each distinct window of three bytes. */
  method BuildTrigrams(s: Bytes) returns (t: seq<nat>)
    ensures Increasing(t) && ToSet(t) == ToSet(Codes(s))
  {
    if |s| < 3 {
      return [];
    }
    var trigrams := FillCodes(s);
    Sort(trigrams);
    DedupIncreases(trigrams[..]);
    DedupSet(trigrams[..]);
    var n := Deduplicate(trigrams);
    t := trigrams[..n];
  }

  lemma ToSetFront(s: seq<nat>)
    requires Increasing(s) && s != []
    ensures ToSet(s[..|s| - 1]) == ToSet(s) - {s[|s| - 1]} && Increasing(s[..|s| - 1])
  {
    ToSetSnoc(s[..|s| - 1], s[|s| - 1]);
    assert s == s[..|s| - 1] + [s[|s| - 1]];
  }

  lemma {:induction false} IncreasingSize(s: seq<nat>)
    requires Increasing(s)
    ensures |ToSet(s)| == |s|
  {
    if s != [] {
      var front, last := s[..|s| - 1], s[|s| - 1];
      IncreasingSize(front);
      ToSetFront(s);
      assert last in ToSet(s);
    }
  }

  lemma LastIsLargest(s: seq<nat>, t: seq<nat>)
    requires Increasing(s) && Increasing(t) && ToSet(s) <= ToSet(t) && s != []
    ensures t != [] && s[|s| - 1] <= t[|t| - 1]
  {
    assert s[|s| - 1] in ToSet(t);
  }

  /** A strictly increasing list is determined by its set. */
  lemma {:induction false} IncreasingUnique(s: seq<nat>, t: seq<nat>)
    requires Increasing(s) && Increasing(t) && ToSet(s) == ToSet(t)
    ensures s == t
  {
    if s == [] {
      if t != [] {
        LastIsLargest(t, s);
      }
    } else {
      LastIsLargest(s, t);
      LastIsLargest(t, s);
      ToSetFront(s);
      ToSetFront(t);
      IncreasingUnique(s[..|s| - 1], t[..|t| - 1]);
      assert s == s[..|s| - 1] + [s[|s| - 1]] && t == t[..|t| - 1] + [t[|t| - 1]];
    }
  }

  /** Size of the intersection over size of the union; two empty lists are alike. */
  ghost function Similarity(a: seq<nat>, b: seq<nat>): real {
    var common, all := ToSet(a) * ToSet(b), ToSet(a) + ToSet(b);
    if all == {} then 1.0 else |common| as real / |all| as real
  }

  lemma UnionSize(a: set<nat>, b: set<nat>)
    ensures |a + b| == |a| + |b| - |a * b|
  {
  }

  /** Everything read so far is smaller than everything still to come in the other list. */
  ghost predicate Split(a: seq<nat>, b: seq<nat>, i: nat, j: nat) {
    && i <= |a| && j <= |b|
    && (forall p, q | 0 <= p < i && j <= q < |b| :: a[p] < b[q])
    && (forall p, q | i <= p < |a| && 0 <= q < j :: b[q] < a[p])
  }

  ghost function Common(a: seq<nat>, b: seq<nat>): set<nat> {
    ToSet(a) * ToSet(b)
  }

  lemma SplitAdvances(a: seq<nat>, b: seq<nat>, i: nat, j: nat)
    requires Increasing(a) && Increasing(b) && Split(a, b, i, j) && i < |a| && j < |b|
    ensures a[i] < b[j] ==> Split(a, b, i + 1, j)
    ensures b[j] < a[i] ==> Split(a, b, i, j + 1)
    ensures a[i] == b[j] ==> Split(a, b, i + 1, j + 1)
  {
  }

  lemma CommonAdvances(a: seq<nat>, b: seq<nat>, i: nat, j: nat)
    requires Split(a, b, i, j) && i < |a| && j < |b|
    ensures a[i] < b[j] ==> |Common(a[..i + 1], b[..j])| == |Common(a[..i], b[..j])|
    ensures b[j] < a[i] ==> |Common(a[..i], b[..j + 1])| == |Common(a[..i], b[..j])|
    ensures a[i] == b[j] ==> |Common(a[..i + 1], b[..j + 1])| == |Common(a[..i], b[..j])| + 1
  {
    var x, y, p, q := a[i], b[j], a[..i], b[..j];
    ToSetSnoc(p, x);
    ToSetSnoc(q, y);
    assert a[..i + 1] == p + [x] && b[..j + 1] == q + [y];
    assert x !in ToSet(q) && y !in ToSet(p);
    assert Common(p + [x], q) == Common(p, q);
    assert Common(p, q + [y]) == Common(p, q);
    assert x == y ==> Common(p + [x], q + [y]) == Common(p, q) + {x};
  }

  lemma CommonAtEnd(a: seq<nat>, b: seq<nat>, i: nat, j: nat)
    requires Split(a, b, i, j) && (i == |a| || j == |b|)
    ensures Common(a[..i], b[..j]) == Common(a, b)
  {
    assert i == |a| ==> a[..i] == a;
    assert j == |b| ==> b[..j] == b;
    forall x | x in Common(a, b)
      ensures x in Common(a[..i], b[..j])
    {
      var p :| 0 <= p < |a| && a[p] == x;
      var q :| 0 <= q < |b| && b[q] == x;
      assert p < i && q < j;
      assert a[..i][p] == x && b[..j][q] == x;
    }
  }

  /** How many trigrams two lists have in common. */
  ghost function CommonSize(a: seq<nat>, b: seq<nat>): nat {
    |Common(a, b)|
  }

  lemma MergeStep(a: seq<nat>, b: seq<nat>, i: nat, j: nat)
    requires Increasing(a) && Increasing(b) && Split(a, b, i, j) && i < |a| && j < |b|
    ensures var i', j' := if a[i] <= b[j] then i + 1 else i, if b[j] <= a[i] then j + 1 else j;
            && Split(a, b, i', j')
            && CommonSize(a[..i'], b[..j']) == CommonSize(a[..i], b[..j]) + if a[i] == b[j] then 1 else 0
  {
    SplitAdvances(a, b, i, j);
    CommonAdvances(a, b, i, j);
  }

  /** The merge walk counts the common trigrams. */
  method CountCommon(a: seq<nat>, b: seq<nat>) returns (intersection: nat)
    requires Increasing(a) && Increasing(b)
    ensures intersection == CommonSize(a, b)
  {
    var i, j := 0, 0;
    intersection := 0;
    while i < |a| && j < |b|
      invariant i <= |a| && j <= |b| && Split(a, b, i, j)
      invariant intersection == CommonSize(a[..i], b[..j])
      decreases |a| - i + |b| - j
    {
      MergeStep(a, b, i, j);
      if a[i] == b[j] {
        intersection := intersection + 1;
        i, j := i + 1, j + 1;
      } else if a[i] < b[j] {
        i := i + 1;
      } else {
        j := j + 1;
      }
    }
    CommonAtEnd(a, b, i, j);
  }

  /** The similarity of two trigram lists, without dividing by zero. */
  method JaccardSimilarity(a: seq<nat>, b: seq<nat>) returns (sim: real)
    requires Increasing(a) && Increasing(b)
    ensures sim == Similarity(a, b)
  {
    if |a| == 0 && |b| == 0 {
      return 1.0;
    }
    var intersection := CountCommon(a, b);
    UnionOfLists(a, b);
    var union := |a| + |b| - intersection;
    sim := intersection as real / union as real;
  }

  lemma UnionOfLists(a: seq<nat>, b: seq<nat>)
    requires Increasing(a) && Increasing(b) && (a != [] || b != [])
    ensures |ToSet(a) + ToSet(b)| == |a| + |b| - |Common(a, b)| && ToSet(a) + ToSet(b) != {}
  {
    IncreasingSize(a);
    IncreasingSize(b);
    UnionSize(ToSet(a), ToSet(b));
    var x := if a != [] then a[0] else b[0];
    assert x in ToSet(a) + ToSet(b);
  }

  lemma SubsetSize(a: set<nat>, b: set<nat>)
    requires a <= b
    ensures |a| <= |b| && (|a| == |b| ==> a == b)
  {
    assert b == a + (b - a);
    assert |b| == |a| + |b - a|;
  }

  lemma Ratio(c: nat, n: nat)
    requires c <= n && n > 0
    ensures 0.0 <= c as real / n as real <= 1.0
    ensures c as real / n as real == 1.0 <==> c == n
  {
  }

  /** The similarity is symmetric, between 0 and 1, and 1 exactly for equal sets. */
  lemma SimilarityBounds(a: seq<nat>, b: seq<nat>)
    ensures Similarity(a, b) == Similarity(b, a) && 0.0 <= Similarity(a, b) <= 1.0
    ensures Similarity(a, b) == 1.0 <==> ToSet(a) == ToSet(b)
  {
    SetRatio(ToSet(a), ToSet(b));
    assert ToSet(a) * ToSet(b) == ToSet(b) * ToSet(a) && ToSet(a) + ToSet(b) == ToSet(b) + ToSet(a);
  }

  lemma SetRatio(a: set<nat>, b: set<nat>)
    ensures a + b == {} ==> a == b
    ensures a + b != {} ==> 0.0 <= |a * b| as real / |a + b| as real <= 1.0
    ensures a + b != {} ==> (|a * b| as real / |a + b| as real == 1.0 <==> a == b)
  {
    if a + b == {} {
      assert a == {} && b == {};
    } else {
      SubsetSize(a * b, a + b);
      Ratio(|a * b|, |a + b|);
      if a * b == a + b {
        assert a <= a * b && b <= a * b;
      }
      assert a == b ==> a * b == a + b;
    }
  }
}
