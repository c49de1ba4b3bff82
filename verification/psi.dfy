/** The Population Stability Index of one feature: re-bucketing observed
    values over the reference bin edges with numpy's histogram rule,
    normalising with a probability floor, and the PSI sum. Values are `real`;
    the natural logarithm is a parameter of which only its sign is known. */
module Psi {
  import opened History

  /** Every normalised probability is floored at this value. */
  const Floor: real := 0.000001

  /** What the PSI proofs use of the natural logarithm: it is zero at one,
      positive above one and negative between zero and one. */
  ghost predicate LogSign(ln: real -> real)
  {
    && ln(1.0) == 0.0
    && (forall x: real :: x > 1.0 ==> ln(x) > 0.0)
    && (forall x: real :: 0.0 < x < 1.0 ==> ln(x) < 0.0)
  }

  /** The three sign facts are consistent: some function has all of them. */
  lemma LogSignSatisfiable()
    ensures exists ln: real -> real :: LogSign(ln)
  {
    var shift := (x: real) => x - 1.0;
    assert LogSign(shift);
  }

  function RMax(a: real, b: real): real
  {
    if a >= b then a else b
  }

  /** Sum of a histogram, as Python's `sum` over it. */
  function Total(h: seq<nat>): nat
  {
    if |h| == 0 then 0 else h[0] + Total(h[1..])
  }

  lemma {:induction false} EntryAtMostTotal(h: seq<nat>, i: nat)
    requires i < |h|
    ensures h[i] <= Total(h)
  {
    if i > 0 {
      EntryAtMostTotal(h[1..], i - 1);
    }
  }

  lemma {:induction false} TotalIncrement(h: seq<nat>, i: nat)
    requires i < |h|
    ensures Total(h[i := h[i] + 1]) == Total(h) + 1
  {
    if i > 0 {
      TotalIncrement(h[1..], i - 1);
      assert h[i := h[i] + 1][1..] == h[1..][i - 1 := h[i] + 1];
    }
  }

  lemma {:induction false} TotalZeros(n: nat)
    ensures Total(Zeros(n)) == 0
  {
    if n > 0 {
      assert Zeros(n)[1..] == Zeros(n - 1);
      TotalZeros(n - 1);
    }
  }

  function Zeros(n: nat): (z: seq<nat>)
    ensures |z| == n && forall i :: 0 <= i < n ==> z[i] == 0
  {
    seq(n, _ => 0)
  }

  /** numpy's check on explicit bin edges: they never decrease. */
  predicate EdgesMonotone(bins: seq<real>)
  {
    forall i :: 0 <= i < |bins| - 1 ==> bins[i] <= bins[i + 1]
  }

  ghost predicate Sorted(bins: seq<real>)
  {
    forall a, b :: 0 <= a <= b < |bins| ==> bins[a] <= bins[b]
  }

  lemma {:induction false} MonotoneStep(bins: seq<real>, a: nat, b: nat)
    requires EdgesMonotone(bins)
    requires a <= b < |bins|
    ensures bins[a] <= bins[b]
    decreases b - a
  {
    if a < b {
      MonotoneStep(bins, a + 1, b);
    }
  }

  /** Adjacent monotonicity, which is all numpy checks, orders every pair. */
  lemma MonotoneIsSorted(bins: seq<real>)
    requires EdgesMonotone(bins)
    ensures Sorted(bins)
  {
    forall a, b | 0 <= a <= b < |bins|
      ensures bins[a] <= bins[b]
    {
      MonotoneStep(bins, a, b);
    }
  }

  /** numpy's bin membership: `[bins[i], bins[i+1])`, the last bin closed. */
  predicate InBin(bins: seq<real>, i: nat, v: real)
    requires i < |bins| - 1
  {
    bins[i] <= v && (v < bins[i + 1] || (i == |bins| - 2 && v == bins[i + 1]))
  }

  /** Whether `v` lies within the outer edges. */
  predicate InRange(bins: seq<real>, v: real)
    requires |bins| >= 1
  {
    bins[0] <= v <= bins[|bins| - 1]
  }

  /** The first bin at or after `from` that holds `v`. */
  function FindBin(bins: seq<real>, v: real, from: nat): (r: Option<nat>)
    requires from <= |bins| - 1
    ensures r.Some? ==> from <= r.value < |bins| - 1 && InBin(bins, r.value, v)
    ensures r.Some? ==> forall j :: from <= j < r.value ==> !InBin(bins, j, v)
    ensures r.None? ==> forall j :: from <= j < |bins| - 1 ==> !InBin(bins, j, v)
    decreases |bins| - from
  {
    if from == |bins| - 1 then None
    else if InBin(bins, from, v) then Some(from)
    else FindBin(bins, v, from + 1)
  }

  /** With ordered edges a value lies in at most one bin. */
  lemma BinsDisjoint(bins: seq<real>, v: real, i: nat, j: nat)
    requires Sorted(bins)
    requires i < |bins| - 1 && j < |bins| - 1
    requires InBin(bins, i, v) && InBin(bins, j, v)
    ensures i == j
  {
  }

  /** With ordered edges every value within the outer edges has a bin. */
  lemma {:induction false} InRangeHasBin(bins: seq<real>, v: real, from: nat)
    requires Sorted(bins) && |bins| >= 2
    requires from < |bins| - 1
    requires bins[from] <= v <= bins[|bins| - 1]
    ensures FindBin(bins, v, from).Some?
    decreases |bins| - from
  {
    if !InBin(bins, from, v) {
      InRangeHasBin(bins, v, from + 1);
    }
  }

  lemma FindBinIffInRange(bins: seq<real>, v: real)
    requires Sorted(bins) && |bins| >= 2
    ensures FindBin(bins, v, 0).Some? <==> InRange(bins, v)
  {
    if InRange(bins, v) {
      InRangeHasBin(bins, v, 0);
    }
  }

  /** numpy's histogram over explicit edges: one count per bin, each value
      counted in the bin that holds it, values outside the edges dropped. */
  function Rebucket(values: seq<real>, bins: seq<real>): (h: seq<nat>)
    requires |bins| >= 2
    ensures |h| == |bins| - 1
    ensures Total(h) <= |values|
    decreases |values|
  {
    if |values| == 0 then
      TotalZeros(|bins| - 1);
      Zeros(|bins| - 1)
    else
      var prior := Rebucket(values[..|values| - 1], bins);
      match FindBin(bins, values[|values| - 1], 0)
      case None => prior
      case Some(i) =>
        TotalIncrement(prior, i);
        prior[i := prior[i] + 1]
  }

  /** Reference count of the values that lie in bin `i`. */
  function CountInBin(values: seq<real>, bins: seq<real>, i: nat): nat
    requires i < |bins| - 1
  {
    if |values| == 0 then 0
    else CountInBin(values[1..], bins, i) + (if InBin(bins, i, values[0]) then 1 else 0)
  }

  /** Reference count of the values within the outer edges. */
  function CountInRange(values: seq<real>, bins: seq<real>): nat
    requires |bins| >= 1
  {
    if |values| == 0 then 0
    else CountInRange(values[1..], bins) + (if InRange(bins, values[0]) then 1 else 0)
  }

  lemma {:induction false} CountInBinSnoc(values: seq<real>, bins: seq<real>, i: nat)
    requires i < |bins| - 1 && |values| > 0
    ensures CountInBin(values, bins, i)
         == CountInBin(values[..|values| - 1], bins, i) + (if InBin(bins, i, values[|values| - 1]) then 1 else 0)
  {
    if |values| > 1 {
      assert values[1..][..|values[1..]| - 1] == values[..|values| - 1][1..];
      CountInBinSnoc(values[1..], bins, i);
    }
  }

  lemma {:induction false} CountInRangeSnoc(values: seq<real>, bins: seq<real>)
    requires |bins| >= 1 && |values| > 0
    ensures CountInRange(values, bins)
         == CountInRange(values[..|values| - 1], bins) + (if InRange(bins, values[|values| - 1]) then 1 else 0)
  {
    if |values| > 1 {
      assert values[1..][..|values[1..]| - 1] == values[..|values| - 1][1..];
      CountInRangeSnoc(values[1..], bins);
    }
  }

  /** The re-bucketed histogram counts, in every bin, exactly the values that
      bin holds under numpy's half-open rule. */
  lemma {:induction false} RebucketCountsBins(values: seq<real>, bins: seq<real>)
    requires |bins| >= 2 && EdgesMonotone(bins)
    ensures forall i :: 0 <= i < |bins| - 1 ==> Rebucket(values, bins)[i] == CountInBin(values, bins, i)
    decreases |values|
  {
    if |values| > 0 {
      var prefix := values[..|values| - 1];
      var v := values[|values| - 1];
      RebucketCountsBins(prefix, bins);
      MonotoneIsSorted(bins);
      forall i | 0 <= i < |bins| - 1
        ensures Rebucket(values, bins)[i] == CountInBin(values, bins, i)
      {
        CountInBinSnoc(values, bins, i);
        var k := FindBin(bins, v, 0);
        if k.Some? && InBin(bins, i, v) {
          BinsDisjoint(bins, v, i, k.value);
        }
      }
    }
  }

  /** The re-bucketed histogram drops exactly the out-of-range values. */
  lemma {:induction false} RebucketTotal(values: seq<real>, bins: seq<real>)
    requires |bins| >= 2 && EdgesMonotone(bins)
    ensures Total(Rebucket(values, bins)) == CountInRange(values, bins)
    decreases |values|
  {
    if |values| == 0 {
      TotalZeros(|bins| - 1);
    } else {
      var prefix := values[..|values| - 1];
      var v := values[|values| - 1];
      RebucketTotal(prefix, bins);
      CountInRangeSnoc(values, bins);
      MonotoneIsSorted(bins);
      FindBinIffInRange(bins, v);
      var k := FindBin(bins, v, 0);
      if k.Some? {
        TotalIncrement(Rebucket(prefix, bins), k.value);
      }
    }
  }

  /** The share `n / t` of a bin holding `n` of `t` values. */
  function Share(n: nat, t: nat): real
    requires t > 0
  {
    n as real / t as real
  }

  lemma ShareAtMostOne(n: nat, t: nat)
    requires 0 < t && n <= t
    ensures Share(n, t) <= 1.0
  {
  }

  /** Equal cross products give equal shares. */
  lemma ShareCross(a: nat, ta: nat, b: nat, tb: nat)
    requires ta > 0 && tb > 0
    requires a * tb == b * ta
    ensures Share(a, ta) == Share(b, tb)
  {
  }

  /** Each bin's share of the total, raised to the floor when it is smaller. */
  function Normalise(h: seq<nat>): (p: seq<real>)
    requires Total(h) > 0
    ensures |p| == |h|
    ensures forall i :: 0 <= i < |h| ==> Floor <= p[i] <= 1.0
    ensures forall i :: 0 <= i < |h| ==> p[i] >= Share(h[i], Total(h))
    ensures forall i :: 0 <= i < |h| && Share(h[i], Total(h)) >= Floor ==> p[i] == Share(h[i], Total(h))
    ensures forall i :: 0 <= i < |h| && Share(h[i], Total(h)) < Floor ==> p[i] == Floor
  {
    var p := seq(|h|, i requires 0 <= i < |h| => RMax(Share(h[i], Total(h)), Floor));
    assert forall i :: 0 <= i < |h| ==> p[i] <= 1.0 by {
      forall i | 0 <= i < |h|
        ensures p[i] <= 1.0
      {
        EntryAtMostTotal(h, i);
        ShareAtMostOne(h[i], Total(h));
      }
    }
    p
  }

  /** Histograms with the same shape (entries in the same proportion)
      normalise to the same probabilities, whatever their totals. */
  lemma NormaliseProportional(a: seq<nat>, b: seq<nat>)
    requires |a| == |b| && Total(a) > 0 && Total(b) > 0
    requires forall i :: 0 <= i < |a| ==> a[i] * Total(b) == b[i] * Total(a)
    ensures Normalise(a) == Normalise(b)
  {
    forall i | 0 <= i < |a|
      ensures Normalise(a)[i] == Normalise(b)[i]
    {
      ShareCross(a[i], Total(a), b[i], Total(b));
    }
  }

  predicate Positive(p: seq<real>)
  {
    forall i :: 0 <= i < |p| ==> p[i] > 0.0
  }

  /** One bin's contribution `(c - r) * ln(c / r)`. */
  function Term(c: real, r: real, ln: real -> real): real
    requires r > 0.0
  {
    (c - r) * ln(c / r)
  }

  /** The PSI sum: over all bins, the difference of the two probabilities
      times the logarithm of their ratio. */
  function PsiSum(cur: seq<real>, ref: seq<real>, ln: real -> real): real
    requires |cur| == |ref| && Positive(ref)
  {
    if |cur| == 0 then 0.0 else Term(cur[0], ref[0], ln) + PsiSum(cur[1..], ref[1..], ln)
  }

  lemma RatioBelowOne(c: real, r: real)
    requires 0.0 < c < r
    ensures 0.0 < c / r < 1.0
  {
    assert c / r * r == c;
    if c / r >= 1.0 {
      assert false;
    }
  }

  lemma RatioAboveOne(c: real, r: real)
    requires 0.0 < r < c
    ensures c / r > 1.0
  {
    assert c / r * r == c;
    if c / r <= 1.0 {
      assert false;
    }
  }

  /** Each term is non-negative, and zero exactly when its two
      probabilities agree. */
  lemma TermSign(c: real, r: real, ln: real -> real)
    requires LogSign(ln)
    requires c > 0.0 && r > 0.0
    ensures Term(c, r, ln) >= 0.0
    ensures Term(c, r, ln) == 0.0 <==> c == r
  {
    if c > r {
      RatioAboveOne(c, r);
      assert ln(c / r) > 0.0;
      assert (c - r) * ln(c / r) > 0.0;
    } else if c < r {
      RatioBelowOne(c, r);
      assert ln(c / r) < 0.0;
      assert (c - r) * ln(c / r) > 0.0;
    } else {
      assert c / r == 1.0;
    }
  }

  /** PSI is non-negative for any two positive probability vectors. */
  lemma {:induction false} PsiNonNegative(cur: seq<real>, ref: seq<real>, ln: real -> real)
    requires LogSign(ln)
    requires |cur| == |ref| && Positive(cur) && Positive(ref)
    ensures PsiSum(cur, ref, ln) >= 0.0
  {
    if |cur| > 0 {
      TermSign(cur[0], ref[0], ln);
      PsiNonNegative(cur[1..], ref[1..], ln);
    }
  }

  /** PSI is zero exactly when the two vectors are equal. */
  lemma {:induction false} PsiZeroIff(cur: seq<real>, ref: seq<real>, ln: real -> real)
    requires LogSign(ln)
    requires |cur| == |ref| && Positive(cur) && Positive(ref)
    ensures PsiSum(cur, ref, ln) == 0.0 <==> cur == ref
  {
    if |cur| > 0 {
      TermSign(cur[0], ref[0], ln);
      PsiNonNegative(cur[1..], ref[1..], ln);
      PsiZeroIff(cur[1..], ref[1..], ln);
      if cur[0] == ref[0] && cur[1..] == ref[1..] {
        assert cur == [cur[0]] + cur[1..] && ref == [ref[0]] + ref[1..];
      }
    }
  }

  /** The PSI of an observed histogram against a reference histogram over
      the same bins: NaN when either sums to zero (numpy divides 0 by 0),
      otherwise the PSI sum of the two floored, normalised vectors. */
  function HistogramPsi(current: seq<nat>, reference: seq<nat>, ln: real -> real): (s: Score)
    requires |current| == |reference|
    ensures s.NaN? <==> Total(current) == 0 || Total(reference) == 0
  {
    if Total(current) == 0 || Total(reference) == 0 then NaN
    else Finite(PsiSum(Normalise(current), Normalise(reference), ln))
  }

  /** A finite histogram PSI is non-negative. */
  lemma HistogramPsiNonNegative(current: seq<nat>, reference: seq<nat>, ln: real -> real)
    requires LogSign(ln)
    requires |current| == |reference| && Total(current) > 0 && Total(reference) > 0
    ensures HistogramPsi(current, reference, ln).value >= 0.0
  {
    PsiNonNegative(Normalise(current), Normalise(reference), ln);
  }

  /** A finite histogram PSI is zero exactly when the floored distributions
      coincide, and positive otherwise. */
  lemma HistogramPsiZeroIff(current: seq<nat>, reference: seq<nat>, ln: real -> real)
    requires LogSign(ln)
    requires |current| == |reference| && Total(current) > 0 && Total(reference) > 0
    ensures HistogramPsi(current, reference, ln).value == 0.0 <==> Normalise(current) == Normalise(reference)
    ensures Normalise(current) != Normalise(reference) ==> HistogramPsi(current, reference, ln).value > 0.0
  {
    PsiNonNegative(Normalise(current), Normalise(reference), ln);
    PsiZeroIff(Normalise(current), Normalise(reference), ln);
  }

  /** Observed counts in the reference's proportions (in particular, equal
      counts) give a PSI of exactly 0. */
  lemma HistogramPsiProportionalIsZero(current: seq<nat>, reference: seq<nat>, ln: real -> real)
    requires LogSign(ln)
    requires |current| == |reference| && Total(current) > 0 && Total(reference) > 0
    requires forall i :: 0 <= i < |current| ==> current[i] * Total(reference) == reference[i] * Total(current)
    ensures HistogramPsi(current, reference, ln) == Finite(0.0)
  {
    NormaliseProportional(current, reference);
    PsiZeroIff(Normalise(current), Normalise(reference), ln);
  }
}
