/** Finite sums, rings of indices and counting lemmas shared by the distributed algorithms. */
module Common {

  datatype Option<+T> = None | Some(value: T)

  // ---------------------------------------------------------------- sums over sequences

  function Sum(s: seq<int>): int {
    if s == [] then 0 else s[0] + Sum(s[1..])
  }

  lemma {:induction false} SumUpdate(s: seq<int>, i: nat, v: int)
    requires i < |s|
    ensures Sum(s[i := v]) == Sum(s) - s[i] + v
  {
    if i == 0 {
      assert s[i := v][1..] == s[1..];
    } else {
      assert s[i := v][1..] == s[1..][i - 1 := v];
      SumUpdate(s[1..], i - 1, v);
    }
  }

  /** Two sequences that differ at most at index i. */
  lemma SumChange(a: seq<int>, b: seq<int>, i: nat)
    requires |a| == |b| && i < |a|
    requires forall j | 0 <= j < |a| && j != i :: a[j] == b[j]
    ensures Sum(b) == Sum(a) - a[i] + b[i]
  {
    assert b == a[i := b[i]];
    SumUpdate(a, i, b[i]);
  }

  lemma {:induction false} SumAtMost(s: seq<int>, bound: int)
    requires forall j | 0 <= j < |s| :: s[j] <= bound
    ensures Sum(s) <= |s| * bound
  {
    if s != [] {
      SumAtMost(s[1..], bound);
      assert |s| * bound == bound + (|s| - 1) * bound;
    }
  }

  lemma {:induction false} SumAtLeast(s: seq<int>, bound: int)
    requires forall j | 0 <= j < |s| :: bound <= s[j]
    ensures |s| * bound <= Sum(s)
  {
    if s != [] {
      SumAtLeast(s[1..], bound);
      assert |s| * bound == bound + (|s| - 1) * bound;
    }
  }

  lemma {:induction false} SumMonotone(a: seq<int>, b: seq<int>)
    requires |a| == |b|
    requires forall j | 0 <= j < |a| :: a[j] <= b[j]
    ensures Sum(a) <= Sum(b)
  {
    if a != [] {
      SumMonotone(a[1..], b[1..]);
    }
  }

  lemma {:induction false} SumPlus(a: seq<int>, b: seq<int>, c: seq<int>)
    requires |a| == |b| == |c|
    requires forall j | 0 <= j < |a| :: c[j] == a[j] + b[j]
    ensures Sum(c) == Sum(a) + Sum(b)
  {
    if a != [] {
      SumPlus(a[1..], b[1..], c[1..]);
    }
  }

  lemma {:induction false} SumConcat(a: seq<int>, b: seq<int>)
    ensures Sum(a + b) == Sum(a) + Sum(b)
  {
    if a == [] {
      assert a + b == b;
    } else {
      assert (a + b)[1..] == a[1..] + b;
      SumConcat(a[1..], b);
    }
  }

  lemma {:induction false} SumStrict(a: seq<int>, b: seq<int>, i: nat)
    requires |a| == |b| && i < |a|
    requires forall j | 0 <= j < |a| :: a[j] <= b[j]
    requires a[i] < b[i]
    ensures Sum(a) < Sum(b)
  {
    SumMonotone(a[1..], b[1..]);
    if i > 0 {
      SumStrict(a[1..], b[1..], i - 1);
    }
  }

  /** No element exceeds the sum of non-negative numbers. */
  lemma {:induction false} SumElementAtMost(s: seq<int>, i: nat)
    requires i < |s|
    requires forall j | 0 <= j < |s| :: 0 <= s[j]
    ensures s[i] <= Sum(s)
  {
    SumAtLeast(s[1..], 0);
    if i > 0 {
      SumElementAtMost(s[1..], i - 1);
    }
  }

  // ---------------------------------------------------------------- sums over square matrices

  type Matrix = seq<seq<int>>

  ghost predicate Square(m: Matrix, n: nat) {
    |m| == n && forall i | 0 <= i < n :: |m[i]| == n
  }

  function RowSums(m: Matrix): (r: seq<int>)
    ensures |r| == |m| && forall i | 0 <= i < |m| :: r[i] == Sum(m[i])
  {
    seq(|m|, i requires 0 <= i < |m| => Sum(m[i]))
  }

  function Total(m: Matrix): int {
    Sum(RowSums(m))
  }

  ghost predicate AtMost(a: Matrix, b: Matrix) {
    |a| == |b| && forall i | 0 <= i < |a| :: |a[i]| == |b[i]| && forall j | 0 <= j < |a[i]| :: a[i][j] <= b[i][j]
  }

  lemma TotalMonotone(a: Matrix, b: Matrix)
    requires AtMost(a, b)
    ensures Total(a) <= Total(b)
  {
    forall i | 0 <= i < |a|
      ensures Sum(a[i]) <= Sum(b[i])
    {
      SumMonotone(a[i], b[i]);
    }
    SumMonotone(RowSums(a), RowSums(b));
  }

  lemma TotalStrict(a: Matrix, b: Matrix, i: nat, j: nat)
    requires AtMost(a, b) && i < |a| && j < |a[i]| && a[i][j] < b[i][j]
    ensures Total(a) < Total(b)
  {
    forall k | 0 <= k < |a|
      ensures Sum(a[k]) <= Sum(b[k])
    {
      SumMonotone(a[k], b[k]);
    }
    SumStrict(a[i], b[i], j);
    SumStrict(RowSums(a), RowSums(b), i);
  }

  // ---------------------------------------------------------------- rings of n indices

  function Next(i: nat, n: nat): (r: nat)
    requires i < n
    ensures r < n && Prev(r, n) == i
  {
    if i + 1 == n then 0 else i + 1
  }

  lemma NextIsModular(i: nat, n: nat)
    requires i < n
    ensures Next(i, n) == (i + 1) % n
  {
    if i + 1 == n {
      assert n % n == 0;
    }
  }

  function Prev(i: nat, n: nat): (r: nat)
    requires i < n
    ensures r < n
  {
    if i == 0 then n - 1 else i - 1
  }

  /** The index d steps upstream of i. */
  function Back(i: nat, d: nat, n: nat): (r: nat)
    requires i < n && d <= n
    ensures r < n
  {
    if d <= i then i - d else i + n - d
  }

  /** The index d steps downstream of i. */
  function Ahead(i: nat, d: nat, n: nat): (r: nat)
    requires i < n && d <= n
    ensures r < n
  {
    if i + d < n then i + d else i + d - n
  }

  // ---------------------------------------------------------------- powers of two

  function Pow2(k: nat): (p: nat)
    ensures p >= 1
  {
    if k == 0 then 1 else 2 * Pow2(k - 1)
  }

  /** floor(log2 n) */
  function Log2(n: nat): (l: nat)
    requires n >= 1
  {
    if n == 1 then 0 else Log2(n / 2) + 1
  }

  lemma {:induction false} Log2Brackets(n: nat)
    requires n >= 1
    ensures Pow2(Log2(n)) <= n < Pow2(Log2(n) + 1)
  {
    if n > 1 {
      Log2Brackets(n / 2);
    }
  }

  lemma {:induction false} Pow2Monotone(a: nat, b: nat)
    ensures a <= b ==> Pow2(a) <= Pow2(b)
    decreases b - a
  {
    if a < b {
      Pow2Monotone(a + 1, b);
    }
  }

  lemma Log2Largest(k: nat, n: nat)
    requires n >= 1 && Pow2(k) <= n
    ensures k <= Log2(n)
  {
    Log2Brackets(n);
    Pow2Monotone(Log2(n) + 1, k);
  }

  // ---------------------------------------------------------------- counting

  lemma {:induction false} SubsetSize<T>(a: set<T>, b: set<T>)
    requires a <= b
    ensures |a| <= |b|
    ensures |a| == |b| ==> a == b
  {
    if a != {} {
      var x :| x in a;
      SubsetSize(a - {x}, b - {x});
    }
  }

  function Below(n: nat): (r: set<nat>)
    ensures forall i: nat :: i in r <==> i < n
  {
    if n == 0 then {} else Below(n - 1) + {n - 1}
  }

  lemma {:induction false} BelowSize(n: nat)
    ensures |Below(n)| == n
  {
    if n > 0 {
      BelowSize(n - 1);
    }
  }

  /** A sequence of pairwise distinct indices below n has at most n elements. */
  lemma {:induction false} DistinctSize<T>(s: seq<T>, all: set<T>)
    requires forall i, j | 0 <= i < j < |s| :: s[i] != s[j]
    requires forall i | 0 <= i < |s| :: s[i] in all
    ensures |s| <= |all|
  {
    if s != [] {
      DistinctSize(s[1..], all - {s[0]});
    }
  }
}
