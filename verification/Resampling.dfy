/** Sums and averages, as every report computes them. */
module Averages {

  function Sum(s: seq<real>): real {
    if s == [] then 0.0 else Sum(s[..|s| - 1]) + s[|s| - 1]
  }

  function Average(s: seq<real>): real
    requires s != []
  {
    Sum(s) / |s| as real
  }

  lemma {:induction false} SumConcat(a: seq<real>, b: seq<real>)
    ensures Sum(a + b) == Sum(a) + Sum(b)
  {
    if b == [] {
      assert a + b == a;
    } else {
      assert (a + b)[..|a + b| - 1] == a + b[..|b| - 1];
      SumConcat(a, b[..|b| - 1]);
    }
  }

  lemma SumNext(s: seq<real>, k: nat)
    requires k < |s|
    ensures Sum(s[..k + 1]) == Sum(s[..k]) + s[k]
  {
    assert s[..k + 1][..k] == s[..k];
  }

  lemma {:induction false} SumScale(s: seq<real>, t: seq<real>, c: real)
    requires |s| == |t| && forall i :: 0 <= i < |s| ==> t[i] == c * s[i]
    ensures Sum(t) == c * Sum(s)
  {
    if s != [] {
      SumScale(s[..|s| - 1], t[..|t| - 1], c);
    }
  }

  lemma {:induction false} SumMonotone(s: seq<real>, t: seq<real>)
    requires |s| == |t| && forall i :: 0 <= i < |s| ==> s[i] <= t[i]
    ensures Sum(s) <= Sum(t)
  {
    if s != [] {
      SumMonotone(s[..|s| - 1], t[..|t| - 1]);
    }
  }

  lemma {:induction false} SumAdd(s: seq<real>, t: seq<real>, u: seq<real>)
    requires |s| == |t| == |u| && forall i :: 0 <= i < |s| ==> u[i] == s[i] + t[i]
    ensures Sum(u) == Sum(s) + Sum(t)
  {
    if s != [] {
      SumAdd(s[..|s| - 1], t[..|t| - 1], u[..|u| - 1]);
    }
  }

  /** `c` copies of `x`, added up. */
  function Times(c: nat, x: real): real {
    if c == 0 then 0.0 else Times(c - 1, x) + x
  }

  lemma {:induction false} TimesIsProduct(c: nat, x: real)
    ensures Times(c, x) == c as real * x
  {
    if c > 0 {
      TimesIsProduct(c - 1, x);
      assert c as real * x == (c - 1) as real * x + x;
    }
  }

  lemma {:induction false} TimesAdd(c: nat, x: real, y: real)
    ensures Times(c, x + y) == Times(c, x) + Times(c, y)
  {
    if c > 0 {
      TimesAdd(c - 1, x, y);
    }
  }

  lemma {:induction false} TimesZero(c: nat)
    ensures Times(c, 0.0) == 0.0
  {
    if c > 0 {
      TimesZero(c - 1);
    }
  }

  lemma {:induction false} TimesScale(c: nat, k: real, x: real)
    ensures k * Times(c, x) == Times(c, k * x)
  {
    if c > 0 {
      TimesScale(c - 1, k, x);
      assert k * (Times(c - 1, x) + x) == k * Times(c - 1, x) + k * x;
    }
  }

  lemma {:induction false} TimesSum(a: nat, b: nat, x: real)
    ensures Times(a + b, x) == Times(a, x) + Times(b, x)
  {
    if b > 0 {
      TimesSum(a, b - 1, x);
    }
  }

  lemma {:induction false} TimesTimes(c: nat, n: nat, x: real)
    ensures Times(c, Times(n, x)) == Times(c * n, x)
  {
    if c > 0 {
      TimesTimes(c - 1, n, x);
      TimesSum((c - 1) * n, n, x);
      assert c * n == (c - 1) * n + n;
    }
  }

  lemma {:induction false} TimesCancel(k: nat, a: real, b: real)
    requires 0 < k && Times(k, a) == Times(k, b)
    ensures a == b
  {
    TimesIsProduct(k, a);
    TimesIsProduct(k, b);
    CancelFactor(k as real, a, b);
  }

  lemma CancelFactor(k: real, a: real, b: real)
    requires k > 0.0 && k * a == k * b
    ensures a == b
  {
  }

  lemma DivideIsScale(x: real, n: real, k: real)
    requires n > 0.0 && k == 1.0 / n
    ensures x / n == k * x
  {
  }

  /** The numbers have mean `x`. */
  predicate HasMean(s: seq<real>, x: real) {
    Sum(s) == Times(|s|, x)
  }

  lemma MeanIsAverage(s: seq<real>)
    requires s != []
    ensures HasMean(s, Average(s))
  {
    TimesIsProduct(|s|, Average(s));
  }

  lemma AverageIsMean(s: seq<real>, x: real)
    requires s != [] && HasMean(s, x)
    ensures Average(s) == x
  {
    TimesIsProduct(|s|, x);
  }

  lemma MeanScale(s: seq<real>, t: seq<real>, k: real, x: real, y: real)
    requires HasMean(s, x) && |s| == |t| && forall i :: 0 <= i < |s| ==> t[i] == k * s[i]
    requires y == k * x
    ensures HasMean(t, y)
  {
    SumScale(s, t, k);
    TimesScale(|s|, k, x);
  }

  lemma MeanAdd(s: seq<real>, t: seq<real>, u: seq<real>, x: real, y: real, z: real)
    requires HasMean(s, x) && HasMean(t, y) && z == x + y
    requires |s| == |t| == |u| && forall i :: 0 <= i < |s| ==> u[i] == s[i] + t[i]
    ensures HasMean(u, z)
  {
    SumAdd(s, t, u);
    TimesAdd(|s|, x, y);
  }

  /** The loop that every average is. */
  method ComputeSum(s: seq<real>) returns (sum: real)
    ensures sum == Sum(s)
  {
    sum := 0.0;
    var i := 0;
    while i < |s|
      invariant 0 <= i <= |s| && sum == Sum(s[..i])
    {
      SumNext(s, i);
      sum := sum + s[i];
      i := i + 1;
    }
    assert s[..i] == s;
  }
}

/** Reading `n` prices through `m` slots with an integer index, in 32-bit arithmetic. */
module Resampling {
  import opened Averages

  const WORD := 0x1_0000_0000

  /** `(slot * n) / m`, the product taken modulo 2^32, cut off at the last price. */
  function Index(slot: nat, n: nat, m: nat): (i: nat)
    requires 0 < n && 0 < m
    ensures i < n
  {
    var i := (slot * n % WORD) / m;
    if i >= n then n - 1 else i
  }

  /** As long as the product fits, the index is the quotient and the cut-off is never needed. */
  lemma IndexInRange(slot: nat, n: nat, m: nat)
    requires 0 < n && slot < m && m * n <= WORD
    ensures (slot * n % WORD) / m == slot * n / m < n
    ensures Index(slot, n, m) == slot * n / m
  {
    assert slot * n < m * n by {
      MulLess(slot, m, n);
    }
    DivLess(slot * n, m, n);
  }

  lemma MulLess(a: nat, b: nat, c: nat)
    requires a < b && 0 < c
    ensures a * c < b * c
  {
  }

  lemma DivLess(x: nat, m: nat, n: nat)
    requires 0 < m && x < m * n
    ensures x / m < n
  {
    var q := x / m;
    assert m * q <= x;
    assert q >= n ==> m * q >= m * n;
  }

  lemma MulMono(a: nat, b: nat, c: nat)
    requires a <= b
    ensures c * a <= c * b
  {
  }

  lemma SlotProduct(j: nat, i: nat, c: nat, n: nat, m: nat)
    requires j < n && i < c && m == c * n
    ensures j * c + i < m && i * n < m && (j * c + i) * n == m * j + i * n
  {
    MulMono(j + 1, n, c);
    MulLess(i, c, n);
    Regroup(j, i, c, n);
  }

  lemma Regroup(j: nat, i: nat, c: nat, n: nat)
    ensures (j * c + i) * n == (c * n) * j + i * n
  {
  }

  /** With `m` a multiple of `n`, each price serves `m / n` slots in a row. */
  lemma IndexOfBlock(j: nat, i: nat, c: nat, n: nat, m: nat, slot: nat)
    requires j < n && i < c && m == c * n && m * n <= WORD && slot == j * c + i
    ensures slot < m && Index(slot, n, m) == j
  {
    SlotProduct(j, i, c, n, m);
    IndexInRange(slot, n, m);
    Quotient(slot * n, m, j, i * n);
  }

  lemma Quotient(x: nat, m: nat, q: nat, r: nat)
    requires 0 < m && x == m * q + r && r < m
    ensures x / m == q
  {
    if x / m < q {
      MulMono(x / m + 1, q, m);
    } else if x / m > q {
      MulMono(q + 1, x / m, m);
    }
  }

  /** The sum of the prices at the indices. */
  function SumAt(p: seq<real>, at: seq<nat>): real
    requires forall i :: 0 <= i < |at| ==> at[i] < |p|
  {
    if at == [] then 0.0 else SumAt(p, at[..|at| - 1]) + p[at[|at| - 1]]
  }

  function Repeat(j: nat, c: nat): (r: seq<nat>)
    ensures |r| == c && forall i :: 0 <= i < c ==> r[i] == j
  {
    if c == 0 then [] else Repeat(j, c - 1) + [j]
  }

  /** Each of the first `n` indices `c` times in a row. */
  function Expand(n: nat, c: nat): (r: seq<nat>)
    ensures forall i :: 0 <= i < |r| ==> r[i] < n
  {
    if n == 0 then [] else Expand(n - 1, c) + Repeat(n - 1, c)
  }

  lemma {:induction false} SumRepeat(p: seq<real>, at: seq<nat>, j: nat, c: nat)
    requires (forall i :: 0 <= i < |at| ==> at[i] < |p|) && j < |p|
    ensures SumAt(p, at + Repeat(j, c)) == SumAt(p, at) + Times(c, p[j])
  {
    var all := at + Repeat(j, c);
    if c == 0 {
      assert all == at;
    } else {
      SumRepeat(p, at, j, c - 1);
      assert all[..|all| - 1] == at + Repeat(j, c - 1);
    }
  }

  lemma SumNextBlock(p: seq<real>, at: seq<nat>, n: nat, c: nat)
    requires n < |p| && (forall i :: 0 <= i < |at| ==> at[i] < |p|) && SumAt(p, at) == Times(c, Sum(p[..n]))
    ensures SumAt(p, at + Repeat(n, c)) == Times(c, Sum(p[..n + 1]))
  {
    SumRepeat(p, at, n, c);
    SumNext(p, n);
    TimesAdd(c, Sum(p[..n]), p[n]);
  }

  lemma {:induction false} SumExpand(p: seq<real>, n: nat, c: nat)
    requires n <= |p|
    ensures SumAt(p, Expand(n, c)) == Times(c, Sum(p[..n]))
  {
    if n == 0 {
      TimesZero(c);
    } else {
      SumExpand(p, n - 1, c);
      SumNextBlock(p, Expand(n - 1, c), n - 1, c);
    }
  }

  lemma {:induction false} ExpandAt(n: nat, c: nat, j: nat, i: nat)
    requires j < n && i < c
    ensures |Expand(n, c)| == n * c && j * c + i < n * c && Expand(n, c)[j * c + i] == j
  {
    ExpandLength(n, c);
    MulMono(j + 1, n, c);
    if j < n - 1 {
      ExpandAt(n - 1, c, j, i);
    } else {
      ExpandLength(n - 1, c);
    }
  }

  lemma {:induction false} ExpandLength(n: nat, c: nat)
    ensures |Expand(n, c)| == n * c
  {
    if n > 0 {
      ExpandLength(n - 1, c);
      assert n * c == (n - 1) * c + c;
    }
  }

  /** The index of every slot. */
  function Indices(n: nat, m: nat): (at: seq<nat>)
    requires 0 < n && 0 < m
    ensures |at| == m && forall k :: 0 <= k < m ==> at[k] == Index(k, n, m)
  {
    seq(m, k requires 0 <= k < m => Index(k, n, m))
  }

  lemma Split(k: nat, c: nat, n: nat)
    requires 0 < c && k < c * n
    ensures k == (k / c) * c + k % c && k / c < n
  {
    DivLess(k, c, n);
  }

  lemma {:induction false} IndexIsExpanded(n: nat, c: nat, m: nat, k: nat)
    requires 0 < n && 0 < c && 0 < m == c * n && m * n <= WORD && k < m
    ensures k < |Expand(n, c)| && Expand(n, c)[k] == Index(k, n, m)
  {
    Split(k, c, n);
    IndexOfBlock(k / c, k % c, c, n, m, k);
    ExpandAt(n, c, k / c, k % c);
  }

  lemma {:induction false} IndicesExpand(n: nat, c: nat, m: nat)
    requires 0 < n && 0 < c && 0 < m == c * n && m * n <= WORD
    ensures Indices(n, m) == Expand(n, c)
  {
    ExpandLength(n, c);
    forall k | 0 <= k < m
      ensures Indices(n, m)[k] == Expand(n, c)[k]
    {
      IndexIsExpanded(n, c, m, k);
    }
  }

  /** The sum of the prices that `m` slots read. */
  function Sampled(p: seq<real>, m: nat): real
    requires p != [] && 0 < m
  {
    SumAt(p, Indices(|p|, m))
  }

  lemma {:induction false} SampledIsTimes(p: seq<real>, c: nat, m: nat)
    requires p != [] && 0 < c && 0 < m == c * |p| && m * |p| <= WORD
    ensures Sampled(p, m) == Times(c, Sum(p))
  {
    IndicesExpand(|p|, c, m);
    SumExpand(p, |p|, c);
    assert p[..|p|] == p;
  }

  /** The prices that the slots read. */
  function Picked(p: seq<real>, m: nat): (s: seq<real>)
    requires p != [] && 0 < m
    ensures |s| == m && forall k :: 0 <= k < m ==> s[k] == p[Index(k, |p|, m)]
  {
    seq(m, k requires 0 <= k < m => p[Index(k, |p|, m)])
  }

  lemma {:induction false} SumOfPicks(p: seq<real>, at: seq<nat>, s: seq<real>)
    requires |at| == |s| && forall i :: 0 <= i < |at| ==> at[i] < |p| && s[i] == p[at[i]]
    ensures Sum(s) == SumAt(p, at)
  {
    if at != [] {
      SumOfPicks(p, at[..|at| - 1], s[..|s| - 1]);
    }
  }

  /** Resampling through a multiple of the number of prices keeps their average. */
  lemma ResamplingKeepsMean(p: seq<real>, m: nat)
    requires p != [] && 0 < m && m % |p| == 0 && m * |p| <= WORD
    ensures HasMean(Picked(p, m), Average(p))
  {
    var c := m / |p|;
    DivMod(m, |p|);
    SampledIsTimes(p, c, m);
    SumOfPicks(p, Indices(|p|, m), Picked(p, m));
    MeanIsAverage(p);
    TimesTimes(c, |p|, Average(p));
  }

  lemma DivMod(m: nat, n: nat)
    requires 0 < m && 0 < n && m % n == 0
    ensures 0 < m / n && m == (m / n) * n == n * (m / n)
  {
  }
}
