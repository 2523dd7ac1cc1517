/** Arithmetic over a window of raw ADC samples: sums, sortedness, the
    minimum and maximum, and a reference (functional) insertion sort that
    specifies what sorting a window must produce. */
module SampleWindow {

  /** Largest count the 12-bit ADC returns. */
  const AdcMax: nat := 4095

  /** One analogRead result. */
  type Adc = x: nat | x <= AdcMax

  /** Sum of a sequence of counts, peeled from the right so that a loop
      adding elements left to right extends it by one step. */
  function Sum(s: seq<nat>): nat
  {
    if s == [] then 0 else Sum(s[..|s| - 1]) + s[|s| - 1]
  }

  predicate Sorted(s: seq<nat>)
  {
    forall i, j :: 0 <= i < j < |s| ==> s[i] <= s[j]
  }

  /** The smallest element of a non-empty sequence. */
  function MinOf(s: seq<nat>): (m: nat)
    requires |s| > 0
    ensures m in s
    ensures forall k :: 0 <= k < |s| ==> m <= s[k]
  {
    if |s| == 1 then s[0]
    else
      var rest := MinOf(s[1..]);
      if s[0] <= rest then s[0] else rest
  }

  /** The largest element of a non-empty sequence. */
  function MaxOf(s: seq<nat>): (m: nat)
    requires |s| > 0
    ensures m in s
    ensures forall k :: 0 <= k < |s| ==> s[k] <= m
  {
    if |s| == 1 then s[0]
    else
      var rest := MaxOf(s[1..]);
      if s[0] >= rest then s[0] else rest
  }

  /** Inserts x before the first element not smaller than it. */
  function Insert(x: nat, s: seq<nat>): (r: seq<nat>)
    ensures |r| == |s| + 1
    ensures multiset(r) == multiset(s) + multiset{x}
  {
    if s == [] then [x]
    else if x <= s[0] then [x] + s
    else
      assert s == [s[0]] + s[1..];
      [s[0]] + Insert(x, s[1..])
  }

  /** Inserting into an ascending sequence keeps it ascending. */
  lemma {:induction false} InsertSorted(x: nat, s: seq<nat>)
    requires Sorted(s)
    ensures Sorted(Insert(x, s))
    decreases |s|
  {
    if s != [] && x > s[0] {
      var t := Insert(x, s[1..]);
      InsertSorted(x, s[1..]);
      LowerBoundKept(x, s[1..], s[0]);
      ConsSorted(s[0], t);
    }
  }

  /** Every element of Insert(x, s) is x or an element of s, so a common lower bound survives. */
  lemma LowerBoundKept(x: nat, s: seq<nat>, lo: nat)
    requires lo <= x
    requires forall k :: 0 <= k < |s| ==> lo <= s[k]
    ensures forall k :: 0 <= k < |Insert(x, s)| ==> lo <= Insert(x, s)[k]
  {
    var t := Insert(x, s);
    forall k | 0 <= k < |t|
      ensures lo <= t[k]
    {
      assert t[k] in multiset(s) + multiset{x} by {
        assert t[k] in multiset(t);
      }
      if t[k] != x {
        assert t[k] in multiset(s);
        var j :| 0 <= j < |s| && s[j] == t[k];
      }
    }
  }

  /** Prefixing an ascending sequence with a lower bound keeps it ascending. */
  lemma ConsSorted(lo: nat, t: seq<nat>)
    requires Sorted(t)
    requires forall k :: 0 <= k < |t| ==> lo <= t[k]
    ensures Sorted([lo] + t)
  {
    var r := [lo] + t;
    forall i, j | 0 <= i < j < |r|
      ensures r[i] <= r[j]
    {
      assert r[j] == t[j - 1];
      if i > 0 {
        assert r[i] == t[i - 1];
      }
    }
  }

  /** Reference sort: arranges a window by successive insertion. */
  function SortSeq(s: seq<nat>): (r: seq<nat>)
    ensures |r| == |s|
    ensures multiset(r) == multiset(s)
  {
    if s == [] then []
    else
      assert s == [s[0]] + s[1..];
      Insert(s[0], SortSeq(s[1..]))
  }

  /** The reference sort's result is ascending. */
  lemma {:induction false} SortSeqSorted(s: seq<nat>)
    ensures Sorted(SortSeq(s))
    decreases |s|
  {
    if s != [] {
      SortSeqSorted(s[1..]);
      InsertSorted(s[0], SortSeq(s[1..]));
    }
  }

  lemma {:induction false} SumAppend(a: seq<nat>, b: seq<nat>)
    ensures Sum(a + b) == Sum(a) + Sum(b)
    decreases |b|
  {
    if b == [] {
      assert a + b == a;
    } else {
      assert (a + b)[..|a + b| - 1] == a + b[..|b| - 1];
      SumAppend(a, b[..|b| - 1]);
    }
  }

  lemma SumSingleton(x: nat)
    ensures Sum([x]) == x
  {
    assert [x][..0] == [];
  }

  /** The total is the first element plus the total of the rest. */
  lemma SumFront(s: seq<nat>)
    requires |s| > 0
    ensures Sum(s) == s[0] + Sum(s[1..])
  {
    assert s == [s[0]] + s[1..];
    SumAppend([s[0]], s[1..]);
    SumSingleton(s[0]);
  }

  lemma {:induction false} SumInsert(x: nat, s: seq<nat>)
    ensures Sum(Insert(x, s)) == x + Sum(s)
    decreases |s|
  {
    if s == [] {
      assert Sum([x]) == Sum([]) + x by { assert [x][..0] == []; }
    } else if x <= s[0] {
      SumAppend([x], s);
      assert [x][..0] == [];
    } else {
      SumInsert(x, s[1..]);
      SumAppend([s[0]], Insert(x, s[1..]));
      SumAppend([s[0]], s[1..]);
      assert [s[0]][..0] == [];
      assert s == [s[0]] + s[1..];
    }
  }

  /** Sorting does not change the total. */
  lemma {:induction false} SumSortSeq(s: seq<nat>)
    ensures Sum(SortSeq(s)) == Sum(s)
    decreases |s|
  {
    if s != [] {
      SumSortSeq(s[1..]);
      SumInsert(s[0], SortSeq(s[1..]));
      SumAppend([s[0]], s[1..]);
      assert [s[0]][..0] == [];
      assert s == [s[0]] + s[1..];
    }
  }

  lemma MulSucc(n: nat, x: nat)
    ensures (n + 1) * x == n * x + x
  {
  }

  /** A sum of n counts, each within [lo, hi], lies within [n*lo, n*hi]. */
  lemma {:induction false} SumBounds(s: seq<nat>, lo: nat, hi: nat)
    requires forall k :: 0 <= k < |s| ==> lo <= s[k] <= hi
    ensures |s| * lo <= Sum(s) <= |s| * hi
    decreases |s|
  {
    if s != [] {
      var n := |s| - 1;
      SumBounds(s[..n], lo, hi);
      assert Sum(s) == Sum(s[..n]) + s[n];
      MulSucc(n, lo);
      MulSucc(n, hi);
    }
  }

  /** A sum of n copies of v is n*v. */
  lemma {:induction false} SumConstant(s: seq<nat>, v: nat)
    requires forall k :: 0 <= k < |s| ==> s[k] == v
    ensures Sum(s) == |s| * v
    decreases |s|
  {
    if s != [] {
      var n := |s| - 1;
      SumConstant(s[..n], v);
      assert Sum(s) == Sum(s[..n]) + s[n];
      MulSucc(n, v);
    }
  }

  /** Two ascending arrangements of the same multiset are the same sequence. */
  lemma {:induction false} SortedUnique(a: seq<nat>, b: seq<nat>)
    requires Sorted(a) && Sorted(b)
    requires multiset(a) == multiset(b)
    ensures a == b
    decreases |a|
  {
    assert |b| == |a| by { assert |multiset(b)| == |multiset(a)|; }
    if a != [] {
      HeadsEqual(a, b);
      TailStep(a, b);
      SortedUnique(a[1..], b[1..]);
      assert a == [a[0]] + a[1..] && b == [b[0]] + b[1..];
    }
  }

  /** Two ascending arrangements of the same non-empty multiset start alike. */
  lemma HeadsEqual(a: seq<nat>, b: seq<nat>)
    requires |a| > 0 && |b| > 0
    requires Sorted(a) && Sorted(b)
    requires multiset(a) == multiset(b)
    ensures a[0] == b[0]
  {
    assert a[0] in multiset(b) && b[0] in multiset(a);
    var i :| 0 <= i < |b| && b[i] == a[0];
    var j :| 0 <= j < |a| && a[j] == b[0];
    assert b[0] <= b[i] && a[0] <= a[j];
  }

  /** With equal heads, the tails are ascending arrangements of the same multiset. */
  lemma TailStep(a: seq<nat>, b: seq<nat>)
    requires |a| > 0 && |b| > 0 && a[0] == b[0]
    requires Sorted(a) && Sorted(b)
    requires multiset(a) == multiset(b)
    ensures Sorted(a[1..]) && Sorted(b[1..])
    ensures multiset(a[1..]) == multiset(b[1..])
  {
    TailMultiset(a);
    TailMultiset(b);
  }

  /** Dropping the head removes one copy of it from the multiset. */
  lemma TailMultiset(a: seq<nat>)
    requires |a| > 0
    ensures multiset(a[1..]) == multiset(a) - multiset{a[0]}
  {
    assert a == [a[0]] + a[1..];
    assert multiset(a) == multiset{a[0]} + multiset(a[1..]);
  }

  /** Any sorted permutation of s is SortSeq(s). */
  lemma SortedPermutationIsSortSeq(s: seq<nat>, t: seq<nat>)
    requires Sorted(t) && multiset(t) == multiset(s)
    ensures t == SortSeq(s)
  {
    SortSeqSorted(s);
    SortedUnique(t, SortSeq(s));
  }

  /** SortSeq depends only on the multiset of its input. */
  lemma SortSeqPermutationInvariant(s1: seq<nat>, s2: seq<nat>)
    requires multiset(s1) == multiset(s2)
    ensures SortSeq(s1) == SortSeq(s2)
  {
    SortSeqSorted(s1);
    SortSeqSorted(s2);
    SortedUnique(SortSeq(s1), SortSeq(s2));
  }

  /** The first element of the sorted window is the minimum, the last the maximum. */
  lemma SortSeqEnds(s: seq<nat>)
    requires |s| > 0
    ensures |SortSeq(s)| == |s|
    ensures SortSeq(s)[0] == MinOf(s)
    ensures SortSeq(s)[|s| - 1] == MaxOf(s)
  {
    SortSeqSorted(s);
    EndsOfSorted(s, SortSeq(s));
  }

  /** In any ascending arrangement t of s, the first slot is the minimum and
      the last the maximum. */
  lemma EndsOfSorted(s: seq<nat>, t: seq<nat>)
    requires |s| > 0 && |t| == |s|
    requires Sorted(t) && multiset(t) == multiset(s)
    ensures t[0] == MinOf(s) && t[|s| - 1] == MaxOf(s)
  {
    MinAtFront(s, t);
    MaxAtBack(s, t);
  }

  lemma MinAtFront(s: seq<nat>, t: seq<nat>)
    requires |s| > 0 && |t| == |s|
    requires Sorted(t) && multiset(t) == multiset(s)
    ensures t[0] == MinOf(s)
  {
    var m := MinOf(s);
    assert t[0] in multiset(s) by { assert t[0] in multiset(t); }
    var i :| 0 <= i < |s| && s[i] == t[0];
    assert m in multiset(t) by { assert m in multiset(s); }
    var p :| 0 <= p < |t| && t[p] == m;
    assert t[0] <= t[p];
  }

  lemma MaxAtBack(s: seq<nat>, t: seq<nat>)
    requires |s| > 0 && |t| == |s|
    requires Sorted(t) && multiset(t) == multiset(s)
    ensures t[|t| - 1] == MaxOf(s)
  {
    var m, n := MaxOf(s), |t| - 1;
    assert t[n] in multiset(s) by { assert t[n] in multiset(t); }
    var i :| 0 <= i < |s| && s[i] == t[n];
    assert m in multiset(t) by { assert m in multiset(s); }
    var p :| 0 <= p < |t| && t[p] == m;
    assert t[p] <= t[n];
  }

  /** Rearranging 12-bit samples yields 12-bit samples. */
  lemma PermutationBounded(s: seq<Adc>, t: seq<nat>)
    requires multiset(t) == multiset(s)
    ensures forall k :: 0 <= k < |t| ==> t[k] <= AdcMax
  {
    forall k | 0 <= k < |t|
      ensures t[k] <= AdcMax
    {
      assert t[k] in multiset(s);
      var j :| 0 <= j < |s| && s[j] == t[k];
    }
  }
}
