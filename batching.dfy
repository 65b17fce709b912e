/// Chunked writes: `for i in range(0, len(records), 100): records[i:i + 100]`.
module Batching {

  import opened Wrappers
  import opened Paging

  /// The number of records sent to the store in one upsert.
  const BatchSize: nat := 100

  /// The slices `xs[i:i + n]` for `i = 0, n, 2n, ...` below `|xs|`.
  function Chunks<T>(xs: seq<T>, n: nat): seq<seq<T>>
    requires n > 0
    decreases |xs|
  {
    if xs == [] then []
    else if |xs| <= n then [xs]
    else [xs[..n]] + Chunks(xs[n..], n)
  }

  /// The batches partition the records in order: put back together they are
  /// the records, and none is empty or longer than `n`.
  lemma {:induction false} ChunksPartition<T>(xs: seq<T>, n: nat)
    requires n > 0
    ensures Flatten(Chunks(xs, n)) == xs
    ensures forall i :: 0 <= i < |Chunks(xs, n)| ==> 0 < |Chunks(xs, n)[i]| <= n
    decreases |xs|
  {
    if xs != [] && |xs| > n {
      ChunksPartition(xs[n..], n);
      assert Chunks(xs, n)[1..] == Chunks(xs[n..], n);
      assert xs == xs[..n] + xs[n..];
    } else if xs != [] {
      assert Chunks(xs, n)[1..] == [];
    }
  }

  /// With batches of 100 there are exactly as many batches as
  /// `range(0, len(xs), 100)` has steps.
  lemma {:induction false} BatchCount<T>(xs: seq<T>)
    ensures |Chunks(xs, BatchSize)| == (|xs| + BatchSize - 1) / BatchSize
    decreases |xs|
  {
    if |xs| > BatchSize {
      BatchCount(xs[BatchSize..]);
    }
  }

  /// Nothing to write means no batch is sent.
  lemma NoRecordsNoBatches<T>(n: nat)
    requires n > 0
    ensures Chunks<T>([], n) == []
  {
  }

  /// The records of the first `b` batches are a prefix of all the records:
  /// a write that stops after `b` batches has sent exactly that prefix.
  lemma {:induction false} WrittenBatchesArePrefix<T>(xs: seq<T>, n: nat, b: nat)
    requires n > 0
    requires b <= |Chunks(xs, n)|
    ensures Flatten(Chunks(xs, n)[..b]) <= xs
    ensures b == |Chunks(xs, n)| ==> Flatten(Chunks(xs, n)[..b]) == xs
    decreases |xs|
  {
    ChunksPartition(xs, n);
    if b == |Chunks(xs, n)| {
      assert Chunks(xs, n)[..b] == Chunks(xs, n);
    } else if b > 0 {
      assert xs != [] && |xs| > n;
      WrittenBatchesArePrefix(xs[n..], n, b - 1);
      assert Chunks(xs, n)[..b][1..] == Chunks(xs[n..], n)[..b - 1];
      assert xs == xs[..n] + xs[n..];
    }
  }

  /// The number of batches a write sends when the upsert of batch `failAt`
  /// (if any) raises: the batches before it.
  function SentCount<T>(xs: seq<T>, failAt: Option<nat>): nat {
    var n := |Chunks(xs, BatchSize)|;
    if failAt.Some? && failAt.value < n then failAt.value else n
  }

  /// The records a batched write has sent.
  function Sent<T>(xs: seq<T>, failAt: Option<nat>): seq<T> {
    Flatten(Chunks(xs, BatchSize)[..SentCount(xs, failAt)])
  }

  /// A write sends a prefix of the records, all of them unless a batch
  /// fails, and nothing for no records.
  lemma SentIsPrefix<T>(xs: seq<T>, failAt: Option<nat>)
    ensures Sent(xs, failAt) <= xs
    ensures (failAt.None? || failAt.value >= |Chunks(xs, BatchSize)|) ==> Sent(xs, failAt) == xs
    ensures xs == [] ==> Sent(xs, failAt) == []
  {
    WrittenBatchesArePrefix(xs, BatchSize, SentCount(xs, failAt));
  }
}
