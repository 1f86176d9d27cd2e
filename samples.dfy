/** Exact-arithmetic view of the 32-bit float samples the pipeline handles:
    an `f32` is modelled as a `real`, so rounding, NaN and infinities are
    not represented. */
module Samples {

  datatype Option<T> = None | Some(value: T)

  /** `f32::abs`. */
  function Abs(x: real): real {
    if x < 0.0 then -x else x
  }

  /** `f32::max` (NaN aside). */
  function Max(a: real, b: real): real {
    if a >= b then a else b
  }

  /** The largest magnitude in `xs`, folded from the identity `0.0` the way
      `normalize_data_v2` reduces `|x|` with `f32::max`; `0.0` when `xs` is empty. */
  function MaxAbs(xs: seq<real>): (m: real)
    ensures 0.0 <= m
    ensures forall i :: 0 <= i < |xs| ==> Abs(xs[i]) <= m
    ensures xs != [] ==> exists i :: 0 <= i < |xs| && Abs(xs[i]) == m
    decreases |xs|
  {
    if xs == [] then 0.0
    else
      var front := xs[..|xs| - 1];
      assert forall i :: 0 <= i < |front| ==> front[i] == xs[i];
      Max(MaxAbs(front), Abs(xs[|xs| - 1]))
  }

  /** `MaxAbs` is zero exactly when every sample is zero (silence). */
  lemma MaxAbsZeroIffSilent(xs: seq<real>)
    ensures MaxAbs(xs) == 0.0 <==> forall i :: 0 <= i < |xs| ==> xs[i] == 0.0
  {
    if MaxAbs(xs) == 0.0 {
      forall i | 0 <= i < |xs| ensures xs[i] == 0.0 {
        assert Abs(xs[i]) <= 0.0;
      }
    }
  }

  /** Every slice of a silent sequence is silent. */
  lemma SilentSlice(xs: seq<real>, lo: nat, hi: nat)
    requires lo <= hi <= |xs|
    requires forall i :: 0 <= i < |xs| ==> xs[i] == 0.0
    ensures forall j :: 0 <= j < hi - lo ==> xs[lo..hi][j] == 0.0
    ensures MaxAbs(xs[lo..hi]) == 0.0
  {
    var b := xs[lo..hi];
    forall j | 0 <= j < |b| ensures b[j] == 0.0 {
      assert b[j] == xs[lo + j];
    }
    MaxAbsZeroIffSilent(b);
  }

  /** The sum of the magnitudes, summed left to right as `Iterator::sum` does. */
  function SumAbs(xs: seq<real>): real
    decreases |xs|
  {
    if xs == [] then 0.0 else SumAbs(xs[..|xs| - 1]) + Abs(xs[|xs| - 1])
  }

  /** A sum of `n` magnitudes, each at most `bound`, is at most `n * bound`. */
  lemma {:induction false} SumAbsAtMost(xs: seq<real>, bound: real)
    requires forall i :: 0 <= i < |xs| ==> Abs(xs[i]) <= bound
    ensures 0.0 <= SumAbs(xs) <= |xs| as real * bound
    decreases |xs|
  {
    if xs != [] {
      var front := xs[..|xs| - 1];
      assert forall i :: 0 <= i < |front| ==> front[i] == xs[i];
      SumAbsAtMost(front, bound);
      assert |xs| as real * bound == |front| as real * bound + bound;
    }
  }

  /** Dividing by a positive `n` a value between 0 and `n * m` gives a value between 0 and `m`. */
  lemma DivAtMost(s: real, n: real, m: real)
    requires n > 0.0 && 0.0 <= s <= n * m
    ensures 0.0 <= s / n <= m
  {
    var q := s / n;
    assert q * n == s;
    assert (m - q) * n == n * m - s;
  }

  lemma Reciprocal(t: real)
    requires t > 0.0
    ensures 1.0 / t > 0.0 && t * (1.0 / t) == 1.0
  {
  }

  /** `x * (1 / top)` lies in [0, 1] for `0 <= x <= top`. */
  lemma ScaleIntoUnit(x: real, top: real)
    requires 0.0 <= x <= top && top > 0.0
    ensures 0.0 <= x * (1.0 / top) <= 1.0
  {
    DivAtMost(x, top, 1.0);
    assert x * (1.0 / top) == x / top;
  }

  /** Multiplying by a positive factor keeps the sign and scales the magnitude. */
  lemma PositiveScaleKeepsSign(x: real, m: real)
    requires m > 0.0
    ensures x * m > 0.0 <==> x > 0.0
    ensures x * m < 0.0 <==> x < 0.0
    ensures Abs(x * m) == Abs(x) * m
  {
    if x > 0.0 {
      assert x * m > 0.0;
    } else if x < 0.0 {
      assert (-x) * m > 0.0;
    }
  }

  /** Multiplying by a positive factor keeps a strict order. */
  lemma PositiveScaleKeepsOrder(x: real, y: real, m: real)
    requires m > 0.0 && x < y
    ensures x * m < y * m
  {
    assert y * m - x * m == (y - x) * m;
    PositiveScaleKeepsSign(y - x, m);
  }

  /** Every entry of `xs` multiplied by `m`, in order. */
  function Scale(xs: seq<real>, m: real): seq<real> {
    seq(|xs|, i requires 0 <= i < |xs| => xs[i] * m)
  }

  /** Entry `i` of a scaled sequence, read off in a context free of other facts. */
  lemma ScaleEntries(xs: seq<real>, m: real)
    ensures |Scale(xs, m)| == |xs|
    ensures forall i :: 0 <= i < |xs| ==> Scale(xs, m)[i] == xs[i] * m
  {
  }

  /** Scaling by `1 / top` entries whose magnitude is at most `top` lands
      them in [-1, 1], and an entry of magnitude `top` at magnitude exactly 1. */
  lemma ScaleByReciprocal(xs: seq<real>, top: real, m: real)
    requires top > 0.0 && m == 1.0 / top
    requires forall i :: 0 <= i < |xs| ==> Abs(xs[i]) <= top
    ensures forall i :: 0 <= i < |xs| ==> -1.0 <= Scale(xs, m)[i] <= 1.0
    ensures forall i :: 0 <= i < |xs| && Abs(xs[i]) == top ==> Abs(Scale(xs, m)[i]) == 1.0
    ensures forall i :: 0 <= i < |xs| && xs[i] >= 0.0 ==> Scale(xs, m)[i] >= 0.0
  {
    Reciprocal(top);
    forall i | 0 <= i < |xs|
      ensures -1.0 <= Scale(xs, m)[i] <= 1.0
      ensures Abs(xs[i]) == top ==> Abs(Scale(xs, m)[i]) == 1.0
      ensures xs[i] >= 0.0 ==> Scale(xs, m)[i] >= 0.0
    {
      PositiveScaleKeepsSign(xs[i], m);
      ScaleIntoUnit(Abs(xs[i]), top);
    }
  }

  /** Scaling by a positive factor keeps the sign of every entry. */
  lemma ScaleKeepsSign(xs: seq<real>, m: real)
    requires m > 0.0
    ensures forall i :: 0 <= i < |xs| ==>
      && (Scale(xs, m)[i] > 0.0 <==> xs[i] > 0.0)
      && (Scale(xs, m)[i] < 0.0 <==> xs[i] < 0.0)
      && (Scale(xs, m)[i] == 0.0 <==> xs[i] == 0.0)
  {
    forall i | 0 <= i < |xs|
      ensures Scale(xs, m)[i] > 0.0 <==> xs[i] > 0.0
      ensures Scale(xs, m)[i] < 0.0 <==> xs[i] < 0.0
    {
      PositiveScaleKeepsSign(xs[i], m);
    }
  }

  /** Scaling by a positive factor keeps the order of the entries. */
  lemma ScaleKeepsOrder(xs: seq<real>, m: real, i: nat, j: nat)
    requires i < |xs| && j < |xs| && m > 0.0
    ensures xs[i] < xs[j] ==> Scale(xs, m)[i] < Scale(xs, m)[j]
    ensures xs[i] == xs[j] ==> Scale(xs, m)[i] == Scale(xs, m)[j]
  {
    if xs[i] < xs[j] {
      PositiveScaleKeepsOrder(xs[i], xs[j], m);
    }
  }
}
