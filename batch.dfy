/** Cutting a list of building ids into fixed-size batches, each of which
    becomes one pipeline. */
module Batching {

  /** The batches `CreateBatches` produces: a non-positive size means no
      batching (one batch holding everything, even when that is empty);
      otherwise full batches are cut off the front while more than a batch
      remains, and what is left, if anything, is the last batch. */
  function Batches(ids: seq<int>, size: int): seq<seq<int>>
    decreases |ids|
  {
    if size <= 0 then [ids]
    else if size < |ids| then [ids[..size]] + Batches(ids[size..], size)
    else if |ids| > 0 then [ids]
    else []
  }

  method CreateBatches(ids: seq<int>, batchSize: int) returns (batches: seq<seq<int>>)
    ensures batches == Batches(ids, batchSize)
    ensures batchSize <= 0 ==> batches == [ids]
    ensures batchSize > 0 && ids == [] ==> batches == []
    ensures batchSize >= |ids| > 0 ==> batches == [ids]
  {
    if batchSize <= 0 {
      return [ids];
    }
    batches := [];
    var rest := ids;
    while batchSize < |rest|
      invariant batches + Batches(rest, batchSize) == Batches(ids, batchSize)
      decreases |rest|
    {
      batches, rest := batches + [rest[..batchSize]], rest[batchSize..];
    }
    if |rest| > 0 {
      batches := batches + [rest];
    }
  }

  /** The batches laid end to end. */
  function Flatten(batches: seq<seq<int>>): seq<int> {
    if batches == [] then [] else batches[0] + Flatten(batches[1..])
  }

  lemma {:induction false} FlattenPrepend(b: seq<int>, rest: seq<seq<int>>)
    ensures Flatten([b] + rest) == b + Flatten(rest)
  {
    assert ([b] + rest)[1..] == rest;
  }

  /** Nothing is lost, duplicated or reordered: the batches laid end to end
      are the ids. */
  lemma {:induction false} FlattenBatches(ids: seq<int>, size: int)
    ensures Flatten(Batches(ids, size)) == ids
    decreases |ids|
  {
    if size <= 0 || size >= |ids| {
      if ids != [] || size <= 0 {
        FlattenPrepend(ids, []);
      }
    } else {
      FlattenBatches(ids[size..], size);
      FlattenPrepend(ids[..size], Batches(ids[size..], size));
      assert ids[..size] + ids[size..] == ids;
    }
  }

  /** With a positive size, every batch but the last holds exactly `size`
      ids and the last holds between 1 and `size`. */
  lemma {:induction false} BatchSizes(ids: seq<int>, size: int)
    requires size > 0
    ensures var bs := Batches(ids, size);
      (forall i :: 0 <= i < |bs| - 1 ==> |bs[i]| == size)
      && (|bs| > 0 ==> 1 <= |bs[|bs| - 1]| <= size)
    decreases |ids|
  {
    if size < |ids| {
      BatchSizes(ids[size..], size);
      var rest := Batches(ids[size..], size);
      assert ids[size..] != [];
      assert |rest| > 0;
      var bs := Batches(ids, size);
      assert forall i :: 1 <= i < |bs| ==> bs[i] == rest[i - 1];
    }
  }

  lemma MulAtLeast(a: int, b: int, d: int)
    requires a >= b + 1 && d > 0
    ensures a * d >= b * d + d
  {
    var k := a - b - 1;
    assert a * d == b * d + d + k * d;
  }

  /** `q` and `r` are the quotient and remainder of `n` by `d`. */
  lemma DivUnique(n: int, d: int, q: int, r: int)
    requires d > 0 && 0 <= r < d && n == q * d + r
    ensures n / d == q
  {
    var q' := n / d;
    var r' := n % d;
    assert n == q' * d + r';
    if q' > q {
      MulAtLeast(q', q, d);
    } else if q' < q {
      MulAtLeast(q, q', d);
    }
  }

  /** With a positive size there are `ceil(|ids| / size)` batches. */
  lemma {:induction false} BatchCount(ids: seq<int>, size: int)
    requires size > 0
    ensures |Batches(ids, size)| == (|ids| + size - 1) / size
    decreases |ids|
  {
    var n := |ids|;
    if size < n {
      BatchCount(ids[size..], size);
      CeilStep(n - size, size);
    } else if n > 0 {
      DivUnique(n + size - 1, size, 1, n - 1);
    } else {
      DivUnique(size - 1, size, 0, size - 1);
    }
  }

  /** One more full batch adds one to the rounded-up quotient. */
  lemma CeilStep(m: int, size: int)
    requires size > 0 && m >= 0
    ensures (m + size + size - 1) / size == (m + size - 1) / size + 1
  {
    var q := (m + size - 1) / size;
    var r := (m + size - 1) % size;
    assert m + size - 1 == q * size + r;
    DivUnique(m + size + size - 1, size, q + 1, r);
  }

  /** A size of 1 gives one singleton batch per id. */
  lemma {:induction false} Singletons(ids: seq<int>)
    ensures var bs := Batches(ids, 1);
      |bs| == |ids| && forall i :: 0 <= i < |ids| ==> bs[i] == [ids[i]]
    decreases |ids|
  {
    if 1 < |ids| {
      Singletons(ids[1..]);
      assert ids[..1] == [ids[0]];
    }
  }
}
