/** `[xs[i:i + size] for i in range(0, len(xs), size)]`: cutting a list into consecutive
    batches, as every ingestion path does before sending vectors to the store. */
module Batching {
  import opened Base

  /** The batches of `xs`, in order; Python's slice stops at the end of the list. */
  function Batches<T>(xs: seq<T>, size: nat): seq<seq<T>>
    requires size > 0
    decreases |xs|
  {
    if xs == [] then []
    else
      var e := Min(size, |xs|);
      [xs[..e]] + Batches(xs[e..], size)
  }

  /** Concatenation of a list of lists. */
  function Flatten<T>(bs: seq<seq<T>>): (r: seq<T>)
  {
    if bs == [] then [] else bs[0] + Flatten(bs[1..])
  }

  /** One batch of the loop: the batch starting at `i`, then the batches after it. */
  lemma BatchesStep<T>(xs: seq<T>, size: nat, i: nat)
    requires size > 0 && i < |xs|
    ensures Batches(xs[i..], size) == [xs[i..Min(i + size, |xs|)]] + Batches(xs[Min(i + size, |xs|)..], size)
  {
    var t := xs[i..];
    var e := Min(size, |t|);
    assert t[..e] == xs[i..Min(i + size, |xs|)];
    assert t[e..] == xs[Min(i + size, |xs|)..];
  }

  /** One step of a loop over `range(0, len(xs), size)`: the batches sent so far plus the
      batches of the rest stay the batches of the whole list. */
  lemma BatchesAdvance<T>(xs: seq<T>, size: nat, i: nat, sent: seq<seq<T>>, bs: seq<seq<T>>)
    requires size > 0 && i < |xs|
    requires sent + Batches(xs[Min(i, |xs|)..], size) == bs
    ensures (sent + [xs[i..Min(i + size, |xs|)]]) + Batches(xs[Min(i + size, |xs|)..], size) == bs
  {
    BatchesStep(xs, size, i);
    assert Min(i, |xs|) == i;
  }

  /** The batches cover the list exactly once, in order. */
  lemma {:induction false} BatchesFlatten<T>(xs: seq<T>, size: nat)
    requires size > 0
    ensures Flatten(Batches(xs, size)) == xs
    decreases |xs|
  {
    if xs != [] {
      var e := Min(size, |xs|);
      var bs := Batches(xs, size);
      BatchesFlatten(xs[e..], size);
      assert bs[0] == xs[..e] && bs[1..] == Batches(xs[e..], size);
      assert xs == xs[..e] + xs[e..];
    }
  }

  /** There are just enough batches to hold the list. */
  lemma {:induction false} BatchesCount<T>(xs: seq<T>, size: nat)
    requires size > 0
    ensures (|Batches(xs, size)| - 1) * size < |xs| <= |Batches(xs, size)| * size
    decreases |xs|
  {
    if xs != [] {
      var e := Min(size, |xs|);
      BatchesCount(xs[e..], size);
      var m := |Batches(xs[e..], size)|;
      assert |Batches(xs, size)| == m + 1;
      assert (m + 1) * size == m * size + size;
    }
  }

  /** Batch `k` is the slice `xs[k * size : k * size + size]`. */
  lemma {:induction false} BatchAt<T>(xs: seq<T>, size: nat, k: nat)
    requires size > 0 && k < |Batches(xs, size)|
    ensures k * size < |xs|
    ensures Batches(xs, size)[k] == xs[k * size..Min(k * size + size, |xs|)]
    decreases k
  {
    var e := Min(size, |xs|);
    var rest := xs[e..];
    assert Batches(xs, size) == [xs[..e]] + Batches(rest, size);
    if k > 0 {
      BatchAt(rest, size, k - 1);
      var a := (k - 1) * size;
      MulStep(k, size);
      var hi := Min(a + size, |rest|);
      assert e == size && Min(k * size + size, |xs|) == size + hi;
      assert rest[a..hi] == xs[size + a..size + hi];
    }
  }

  lemma MulStep(k: nat, size: nat)
    requires k > 0
    ensures k * size == (k - 1) * size + size
  {
  }

  /** Lists of equal length are cut at the same bounds. */
  lemma BatchesAligned<T, U>(xs: seq<T>, ys: seq<U>, size: nat)
    requires size > 0 && |xs| == |ys|
    ensures |Batches(xs, size)| == |Batches(ys, size)|
    ensures forall k :: 0 <= k < |Batches(xs, size)| ==> |Batches(xs, size)[k]| == |Batches(ys, size)[k]|
  {
    BatchesCount(xs, size);
    BatchesCount(ys, size);
    var m, n := |Batches(xs, size)|, |Batches(ys, size)|;
    assert (m - 1) * size < n * size && (n - 1) * size < m * size;
    assert m == n;
    forall k | 0 <= k < m
      ensures |Batches(xs, size)[k]| == |Batches(ys, size)[k]|
    {
      BatchAt(xs, size, k);
      BatchAt(ys, size, k);
    }
  }

  /** The numbers below `n` of the batches whose call raised (`fails(k)` is the error, if
      any, of the k-th call); a loop that logs the error and goes on collects exactly these. */
  function FailedBelow(fails: nat -> Option<string>, n: nat): (r: seq<nat>)
    ensures forall k: nat :: k in r <==> k < n && fails(k).Some?
  {
    if n == 0 then [] else FailedBelow(fails, n - 1) + (if fails(n - 1).Some? then [n - 1] else [])
  }

  lemma FailedBelowNext(fails: nat -> Option<string>, n: nat)
    ensures FailedBelow(fails, n + 1) == FailedBelow(fails, n) + (if fails(n).Some? then [n] else [])
  {
  }
}
