/** Sequence combinators shared by several components: concatenation of chunks and element-wise mapping. */
module Seqs {
  /** The items of consecutive chunks, in order. */
  function Flatten<T>(chunks: seq<seq<T>>): seq<T> {
    if chunks == [] then [] else chunks[0] + Flatten(chunks[1..])
  }

  /** Appending one more chunk appends its items. */
  lemma {:induction false} FlattenAppend<T>(chunks: seq<seq<T>>, c: seq<T>)
    ensures Flatten(chunks + [c]) == Flatten(chunks) + c
  {
    if chunks == [] {
      assert [] + [c] == [c];
      assert Flatten([c]) == c + Flatten([]);
    } else {
      assert (chunks + [c])[1..] == chunks[1..] + [c];
      FlattenAppend(chunks[1..], c);
    }
  }

  /** `iter().map(f).collect()`. */
  function Map<S, T>(xs: seq<S>, f: S -> T): (ys: seq<T>)
    ensures |ys| == |xs|
    ensures forall i :: 0 <= i < |xs| ==> ys[i] == f(xs[i])
  {
    seq(|xs|, i requires 0 <= i < |xs| => f(xs[i]))
  }

  /** Mapping there and back with mutually inverse maps gives the sequence back, in order. */
  lemma MapInverse<S, T>(xs: seq<S>, f: S -> T, g: T -> S)
    requires forall x :: g(f(x)) == x
    ensures Map(Map(xs, f), g) == xs
  {
  }

  /** `StreamExt::chunks(n)`: groups of `n` consecutive items, the last one possibly shorter. */
  function Chunks<T>(xs: seq<T>, n: nat): seq<seq<T>>
    requires n > 0
    decreases |xs|
  {
    if |xs| == 0 then []
    else if |xs| <= n then [xs]
    else [xs[..n]] + Chunks(xs[n..], n)
  }

  /** The chunks hold the items in order; each holds 1 to `n` items, and all but the last exactly `n`. */
  lemma {:induction false} ChunksSpec<T>(xs: seq<T>, n: nat)
    requires n > 0
    ensures Flatten(Chunks(xs, n)) == xs
    ensures forall k :: 0 <= k < |Chunks(xs, n)| ==> 0 < |Chunks(xs, n)[k]| <= n
    ensures forall k :: 0 <= k < |Chunks(xs, n)| - 1 ==> |Chunks(xs, n)[k]| == n
    decreases |xs|
  {
    if |xs| == 0 {
    } else if |xs| <= n {
      assert Flatten([xs]) == xs + Flatten([]);
    } else {
      var rest := Chunks(xs[n..], n);
      ChunksSpec(xs[n..], n);
      assert Chunks(xs, n) == [xs[..n]] + rest;
      assert ([xs[..n]] + rest)[1..] == rest;
      assert Flatten([xs[..n]] + rest) == xs[..n] + Flatten(rest);
      assert xs[..n] + xs[n..] == xs;
      forall k | 0 <= k < |Chunks(xs, n)|
        ensures 0 < |Chunks(xs, n)[k]| <= n
        ensures k < |Chunks(xs, n)| - 1 ==> |Chunks(xs, n)[k]| == n
      {
        if k > 0 {
          assert Chunks(xs, n)[k] == rest[k - 1];
        }
      }
    }
  }

  /** Chunk `k` is the slice of items from `k * n`. */
  lemma {:induction false} ChunkAt<T>(xs: seq<T>, n: nat, k: nat)
    requires n > 0 && k < |Chunks(xs, n)|
    ensures k * n < |xs|
    ensures Chunks(xs, n)[k] == xs[k * n..if (k + 1) * n <= |xs| then (k + 1) * n else |xs|]
    decreases |xs|
  {
    var cs := Chunks(xs, n);
    if k == 0 {
      if |xs| <= n {
        assert cs == [xs];
      } else {
        assert cs == [xs[..n]] + Chunks(xs[n..], n);
      }
    } else {
      var ys := xs[n..];
      assert |xs| > n;
      assert cs == [xs[..n]] + Chunks(ys, n);
      assert cs[k] == Chunks(ys, n)[k - 1];
      ChunkAt(ys, n, k - 1);
      var lo := (k - 1) * n;
      MulSucc(k - 1, n);
      MulSucc(k, n);
      var hi := if k * n <= |ys| then k * n else |ys|;
      assert Chunks(ys, n)[k - 1] == ys[lo..hi];
      SliceOfSuffix(xs, n, lo, hi);
    }
  }

  lemma SliceOfSuffix<T>(xs: seq<T>, n: nat, lo: nat, hi: nat)
    requires n <= |xs| && lo <= hi <= |xs| - n
    ensures xs[n..][lo..hi] == xs[lo + n..hi + n]
  {
    assert forall i :: 0 <= i < hi - lo ==> xs[n..][lo..hi][i] == xs[lo + n + i];
  }

  lemma MulSucc(k: nat, n: nat)
    ensures (k + 1) * n == k * n + n
  {
  }

  /** A first chunk of exactly `n` items is cut off as it is. */
  lemma ChunksCons<T>(c: seq<T>, tail: seq<T>, n: nat)
    requires n > 0 && |c| == n
    ensures Chunks(c + tail, n) == [c] + Chunks(tail, n)
  {
    var xs := c + tail;
    if tail == [] {
      assert xs == c;
    } else {
      assert xs[..n] == c;
      assert xs[n..] == tail;
    }
  }

  /** Full chunks in front of the rest are chunked as themselves. */
  lemma {:induction false} ChunksAfterFull<T>(full: seq<seq<T>>, rest: seq<T>, n: nat)
    requires n > 0
    requires forall k :: 0 <= k < |full| ==> |full[k]| == n
    ensures Chunks(Flatten(full) + rest, n) == full + Chunks(rest, n)
  {
    var later := Chunks(rest, n);
    if full == [] {
      assert Flatten(full) + rest == rest;
      assert full + later == later;
    } else {
      var c := full[0];
      var others := full[1..];
      assert forall k :: 0 <= k < |others| ==> |others[k]| == n by {
        forall k | 0 <= k < |others| ensures |others[k]| == n {
          assert others[k] == full[k + 1];
        }
      }
      var tail := Flatten(others) + rest;
      assert Flatten(full) == c + Flatten(others);
      assert Flatten(full) + rest == c + tail;
      ChunksAfterFull(others, rest, n);
      ChunksCons(c, tail, n);
      assert full == [c] + others;
      assert [c] + (others + later) == full + later;
    }
  }
}
