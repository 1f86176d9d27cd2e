/** The normalizers `normalize_data` (range [0, 1]) and `normalize_data_v2`
    (range [-1, 1]): every entry is multiplied by one global factor derived
    from the extremum of the whole sequence. The parallel `reduce` and `map`
    are modelled as a sequential fold and an order-preserving map. */
module Normalizer {
  import opened Samples

  // ---------------------------------------------------------------- variant 1

  /** `reduce(|| f32::NEG_INFINITY, f32::max)`: the largest entry, with `None`
      standing for the identity -infinity that an empty sequence reduces to. */
  function MaxValue(xs: seq<real>): (r: Option<real>)
    ensures r.None? <==> xs == []
    ensures r.Some? ==> exists i :: 0 <= i < |xs| && xs[i] == r.value
    ensures r.Some? ==> forall i :: 0 <= i < |xs| ==> xs[i] <= r.value
    decreases |xs|
  {
    if xs == [] then None
    else
      var front := xs[..|xs| - 1];
      assert forall i :: 0 <= i < |front| ==> front[i] == xs[i];
      match MaxValue(front)
      case None => Some(xs[|xs| - 1])
      case Some(m) => Some(Max(m, xs[|xs| - 1]))
  }

  /** The factor `normalize_data` applies: `1 / max` when the maximum is not
      0, `1` when it is, and `1 / -infinity`, a zero, for an empty sequence. */
  function Multiplier(xs: seq<real>): (factor: real)
    ensures MaxValue(xs).None? ==> factor == 0.0
    ensures MaxValue(xs).Some? && MaxValue(xs).value != 0.0 ==> factor * MaxValue(xs).value == 1.0
    ensures MaxValue(xs).Some? && MaxValue(xs).value == 0.0 ==> factor == 1.0
    ensures MaxValue(xs).Some? && MaxValue(xs).value > 0.0 ==> factor > 0.0
  {
    match MaxValue(xs)
    case None => 0.0
    case Some(m) => if m != 0.0 then 1.0 / m else 1.0
  }

  /** `normalize_data`: every entry times the same factor. */
  function NormalizeData(xs: seq<real>): (r: seq<real>)
    ensures |r| == |xs|
    ensures forall i :: 0 <= i < |xs| ==> r[i] == xs[i] * Multiplier(xs)
  {
    var m := Multiplier(xs);
    ScaleEntries(xs, m);
    Scale(xs, m)
  }

  /** The test helper's promise, for the non-negative block means that
      variant 1 produces: unless every entry is 0, every output lies in
      [0, 1] and the entries equal to the maximum become exactly 1. */
  lemma NormalizeDataUnitRange(xs: seq<real>)
    requires forall i :: 0 <= i < |xs| ==> xs[i] >= 0.0
    requires exists i :: 0 <= i < |xs| && xs[i] != 0.0
    ensures MaxValue(xs).Some? && MaxValue(xs).value > 0.0
    ensures forall i :: 0 <= i < |xs| ==> 0.0 <= NormalizeData(xs)[i] <= 1.0
    ensures forall i :: 0 <= i < |xs| && xs[i] == MaxValue(xs).value ==> NormalizeData(xs)[i] == 1.0
    ensures exists i :: 0 <= i < |xs| && NormalizeData(xs)[i] == 1.0
  {
    var i0 :| 0 <= i0 < |xs| && xs[i0] != 0.0;
    var top := MaxValue(xs).value;
    assert top >= xs[i0] > 0.0;
    assert NormalizeData(xs) == Scale(xs, 1.0 / top);
    ScaleByReciprocal(xs, top, 1.0 / top);
    var j :| 0 <= j < |xs| && xs[j] == top;
    assert Abs(xs[j]) == top;
  }

  /** When the maximum is positive, normalizing keeps the order of the
      entries: a louder block stays strictly louder. */
  lemma NormalizeDataKeepsOrder(xs: seq<real>, i: nat, j: nat)
    requires i < |xs| && j < |xs|
    requires MaxValue(xs).Some? && MaxValue(xs).value > 0.0
    ensures xs[i] < xs[j] ==> NormalizeData(xs)[i] < NormalizeData(xs)[j]
    ensures xs[i] == xs[j] ==> NormalizeData(xs)[i] == NormalizeData(xs)[j]
  {
    ScaleKeepsOrder(xs, Multiplier(xs), i, j);
  }

  /** All-silent input (every entry 0, or no entry at all) comes back unchanged. */
  lemma NormalizeDataSilence(xs: seq<real>)
    requires forall i :: 0 <= i < |xs| ==> xs[i] == 0.0
    ensures NormalizeData(xs) == xs
  {
  }

  // ---------------------------------------------------------------- variant 2

  /** The factor `normalize_data_v2` applies: `1 / max|x|` when that is not
      0, `1` otherwise (which covers the empty sequence, since the fold
      starts from 0). It is always positive. */
  function MultiplierV2(xs: seq<real>): (m: real)
    ensures m > 0.0
    ensures MaxAbs(xs) == 0.0 ==> m == 1.0
  {
    var top := MaxAbs(xs);
    if top != 0.0 then Reciprocal(top); 1.0 / top else 1.0
  }

  /** A non-zero largest magnitude times the v2 factor is exactly 1. */
  lemma MultiplierV2Inverts(xs: seq<real>)
    requires MaxAbs(xs) != 0.0
    ensures MultiplierV2(xs) * MaxAbs(xs) == 1.0
  {
    Reciprocal(MaxAbs(xs));
  }

  /** `normalize_data_v2`: every entry times the same positive factor. */
  function NormalizeDataV2(xs: seq<real>): (r: seq<real>)
    ensures |r| == |xs|
    ensures forall i :: 0 <= i < |xs| ==> r[i] == xs[i] * MultiplierV2(xs)
  {
    var m := MultiplierV2(xs);
    ScaleEntries(xs, m);
    Scale(xs, m)
  }

  /** Each output has the sign of its input: positive, negative or zero. */
  lemma NormalizeDataV2KeepsSign(xs: seq<real>)
    ensures forall i :: 0 <= i < |xs| ==>
      && (NormalizeDataV2(xs)[i] > 0.0 <==> xs[i] > 0.0)
      && (NormalizeDataV2(xs)[i] < 0.0 <==> xs[i] < 0.0)
      && (NormalizeDataV2(xs)[i] == 0.0 <==> xs[i] == 0.0)
  {
    ScaleKeepsSign(xs, MultiplierV2(xs));
  }

  /** The v2 test helper's promise: unless every entry is 0, every output
      lies in [-1, 1] and some output has magnitude exactly 1. */
  lemma NormalizeDataV2UnitRange(xs: seq<real>)
    requires exists i :: 0 <= i < |xs| && xs[i] != 0.0
    ensures forall i :: 0 <= i < |xs| ==> -1.0 <= NormalizeDataV2(xs)[i] <= 1.0
    ensures exists i :: 0 <= i < |xs| && Abs(NormalizeDataV2(xs)[i]) == 1.0
  {
    var i0 :| 0 <= i0 < |xs| && xs[i0] != 0.0;
    var top := MaxAbs(xs);
    assert top >= Abs(xs[i0]) > 0.0;
    assert NormalizeDataV2(xs) == Scale(xs, 1.0 / top);
    ScaleByReciprocal(xs, top, 1.0 / top);
    var j :| 0 <= j < |xs| && Abs(xs[j]) == top;
  }

  /** All-silent input comes back unchanged. */
  lemma NormalizeDataV2Silence(xs: seq<real>)
    requires forall i :: 0 <= i < |xs| ==> xs[i] == 0.0
    ensures NormalizeDataV2(xs) == xs
  {
    MaxAbsZeroIffSilent(xs);
  }
}
