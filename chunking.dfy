/** `slice::chunks(k)` (and its parallel twin `par_chunks(k)`): a buffer cut
    into consecutive pieces of `k` elements, the last one possibly shorter. */
module Chunking {

  function Min(a: int, b: int): int {
    if a <= b then a else b
  }

  /** `count` is the ceiling of `n / k`: `count` pieces of size `k` cover `n`
      elements and `count - 1` pieces do not. */
  predicate IsCeilDiv(count: nat, n: nat, k: nat) {
    (count - 1) * k < n <= count * k
  }

  /** The concatenation of a sequence of pieces. */
  function Flatten<T>(pieces: seq<seq<T>>): seq<T>
    decreases |pieces|
  {
    if pieces == [] then [] else pieces[0] + Flatten(pieces[1..])
  }

  /** The `i`-th piece of size `k` of `s`, by index arithmetic:
      the elements from `i * k` up to `(i + 1) * k`, cut at the end of `s`. */
  function Block<T>(s: seq<T>, k: nat, i: nat): seq<T> {
    Window(s, i * k, k)
  }

  /** The `k` elements of `s` from index `start` on, cut at the end of `s`. */
  function Window<T>(s: seq<T>, start: nat, k: nat): seq<T> {
    s[Min(start, |s|)..Min(start + k, |s|)]
  }

  /** The chunks of `s`, in buffer order. */
  function Chunks<T>(s: seq<T>, k: nat): (c: seq<seq<T>>)
    requires k > 0
    ensures IsCeilDiv(|c|, |s|, k)
    ensures forall i :: 0 <= i < |c| ==> 0 < |c[i]| <= k
    ensures forall i :: 0 <= i < |c| - 1 ==> |c[i]| == k
    ensures Flatten(c) == s
    decreases |s|
  {
    if s == [] then []
    else if |s| <= k then [s]
    else
      var rest := Chunks(s[k..], k);
      var c := [s[..k]] + rest;
      assert c[1..] == rest;
      assert s[..k] + s[k..] == s;
      assert (|rest| + 1) * k == |rest| * k + k;
      c
  }

  /** Every chunk is the block that index arithmetic predicts. */
  lemma {:induction false} ChunkIsBlock<T>(s: seq<T>, k: nat, i: nat)
    requires k > 0 && i < |Chunks(s, k)|
    ensures Chunks(s, k)[i] == Block(s, k, i)
    decreases i
  {
    if i == 0 {
      assert Block(s, k, 0) == Window(s, 0, k);
    } else {
      ChunksStep(s, k);
      assert Chunks(s, k)[i] == Chunks(s[k..], k)[i - 1];
      ChunkIsBlock(s[k..], k, i - 1);
      BlockStep(s, k, i);
    }
  }

  /** Past the first chunk, the chunks of `s` are those of `s[k..]`. */
  lemma ChunksStep<T>(s: seq<T>, k: nat)
    requires k > 0 && |s| > k
    ensures Chunks(s, k)[1..] == Chunks(s[k..], k)
  {
  }

  /** Block `i` of `s` is block `i - 1` of `s` with its first `k` elements dropped. */
  lemma BlockStep<T>(s: seq<T>, k: nat, i: nat)
    requires 0 < i && k <= |s|
    ensures Block(s[k..], k, i - 1) == Block(s, k, i)
  {
    var j := (i - 1) * k;
    assert Block(s[k..], k, i - 1) == Window(s[k..], j, k);
    WindowOfDrop(s, k, j);
    MulStep(i - 1, k);
    assert Block(s, k, i) == Window(s, j + k, k);
  }

  lemma MulStep(a: nat, k: nat)
    ensures (a + 1) * k == a * k + k
  {
  }

  lemma WindowOfDrop<T>(s: seq<T>, k: nat, j: nat)
    requires k <= |s|
    ensures Window(s[k..], j, k) == Window(s, j + k, k)
  {
    var lo, hi := Min(j, |s| - k), Min(j + k, |s| - k);
    assert s[k..][lo..hi] == s[k + lo..k + hi];
  }

  lemma ChunksAreBlocks<T>(s: seq<T>, k: nat)
    requires k > 0
    ensures forall i :: 0 <= i < |Chunks(s, k)| ==> Chunks(s, k)[i] == Block(s, k, i)
  {
    forall i | 0 <= i < |Chunks(s, k)| ensures Chunks(s, k)[i] == Block(s, k, i) {
      ChunkIsBlock(s, k, i);
    }
  }

  /** Multiplying by a positive `k` keeps a strict order. */
  lemma {:induction false} MulStrictlyMonotone(a: int, b: int, k: int)
    requires a < b && k > 0
    ensures a * k < b * k
    decreases b - a
  {
    assert b * k == (b - 1) * k + k;
    if a < b - 1 {
      MulStrictlyMonotone(a, b - 1, k);
    }
  }

  /** `k` pieces of size `(n / k)` fit into `n`. */
  lemma DivTimes(n: nat, k: nat)
    requires k > 0
    ensures (n / k) * k <= n < (n / k) * k + k
  {
  }
}
