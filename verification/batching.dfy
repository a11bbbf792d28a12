/**
  The batch loop every script runs:
  `for start in range(0, n, size): end = min(start + size, n)`,
  and the in-order concatenation of per-batch results.
 */
module Batching {
  import opened Outcomes

  /** One batch: the rows `start <= i < end`. */
  datatype Bounds = Bounds(start: nat, end: nat)

  /** `len(range(0, n, size))`: `ceil(n / size)`. */
  function BatchCount(n: nat, size: nat): nat
    requires size > 0
  {
    (n + size - 1) / size
  }

  /** The batches of the range loop: the `i`-th value of `range(0, n, size)`
      is `i * size`, and the batch it opens ends at `min(start + size, n)`. */
  function Batches(n: nat, size: nat): seq<Bounds>
    requires size > 0
  {
    seq(BatchCount(n, size), i requires 0 <= i =>
      Bounds(i * size, if i * size + size < n then i * size + size else n))
  }

  /** The batches split `[0, n)` into consecutive non-empty ranges of at
      most `size` rows. */
  lemma RangePartition(n: nat, size: nat)
    requires size > 0
    ensures var bs := Batches(n, size);
            && (bs == [] <==> n == 0)
            && (bs != [] ==> bs[0].start == 0 && bs[|bs| - 1].end == n)
            && (forall i :: 0 <= i < |bs| ==> bs[i].start < bs[i].end <= bs[i].start + size)
            && (forall i :: 0 <= i < |bs| - 1 ==> bs[i].end == bs[i + 1].start)
  {
    var bs := Batches(n, size);
    CountIsCeiling(n, size);
    forall i | 0 <= i < |bs|
      ensures bs[i].start < bs[i].end <= bs[i].start + size
      ensures i < |bs| - 1 ==> bs[i].end == bs[i + 1].start
    {
      StartBelow(n, size, i);
      if i < |bs| - 1 {
        StartBelow(n, size, i + 1);
        assert (i + 1) * size == i * size + size;
      }
    }
    if bs != [] {
      var m := |bs| - 1;
      assert m * size + size == BatchCount(n, size) * size;
    }
  }

  /** `(x + d) / d == x / d + 1`, for a non-negative `x`. */
  lemma DivShift(x: nat, d: nat)
    requires d > 0
    ensures (x + d) / d == x / d + 1
  {
    var q, r := x / d, x % d;
    assert x == q * d + r;
    assert x + d == (q + 1) * d + r;
    DivUnique(x + d, d, q + 1, r);
  }

  /** Euclidean division has one quotient. */
  lemma DivUnique(a: int, d: int, q: int, r: int)
    requires d > 0 && 0 <= r < d && a == q * d + r
    ensures a / d == q
  {
    var q', r' := a / d, a % d;
    assert a == q' * d + r';
    assert (q - q') * d == r' - r;
    assert (q' - q) * d == r - r';
    if q - q' >= 1 {
      MulAtLeast(q - q', d);
    } else if q' - q >= 1 {
      MulAtLeast(q' - q, d);
    }
  }

  lemma MulAtLeast(k: int, d: int)
    requires k >= 1 && d > 0
    ensures k * d >= d
  {
  }

  lemma DivMonotone(a: nat, b: nat, d: nat)
    requires d > 0 && a <= b
    ensures a / d <= b / d
  {
    var qa, ra, qb, rb := a / d, a % d, b / d, b % d;
    assert a == qa * d + ra && b == qb * d + rb;
    assert (qa - qb) * d == (a - ra) - (b - rb);
    if qa - qb >= 1 {
      MulAtLeast(qa - qb, d);
    }
  }

  /** Every value the range yields is below `n`. */
  lemma StartBelow(n: nat, size: nat, i: nat)
    requires size > 0 && i < BatchCount(n, size)
    ensures i * size < n
  {
    if i * size >= n {
      DivMonotone(n + size - 1, i * size + size - 1, size);
      DivUnique(i * size + size - 1, size, i, size - 1);
    }
  }

  /** The range stops at the first multiple of `size` that reaches `n`:
      its values cover every row below `n` and no value is `n` or more. */
  lemma CountIsCeiling(n: nat, size: nat)
    requires size > 0
    ensures BatchCount(n, size) * size >= n
    ensures BatchCount(n, size) > 0 ==> (BatchCount(n, size) - 1) * size < n
    ensures BatchCount(n, size) == 0 <==> n == 0
  {
    var m := BatchCount(n, size);
    assert n + size - 1 == m * size + (n + size - 1) % size;
    if m > 0 {
      StartBelow(n, size, m - 1);
    }
    if n > 0 {
      DivUnique(n + size - 1, size, 1 + (n - 1) / size, (n - 1) % size);
    }
  }

  /** The shape of batch `i`: it starts at `i * size`, holds between one
      and `size` rows, holds exactly `size` unless it is the last, and the
      last ends at `n`. */
  lemma BatchShape(n: nat, size: nat, i: nat)
    requires size > 0 && i < |Batches(n, size)|
    ensures Batches(n, size)[i].start == i * size
    ensures Batches(n, size)[i].start < Batches(n, size)[i].end <= n
    ensures Batches(n, size)[i].end - Batches(n, size)[i].start <= size
    ensures i < |Batches(n, size)| - 1 ==> Batches(n, size)[i].end - Batches(n, size)[i].start == size
    ensures i == |Batches(n, size)| - 1 ==> Batches(n, size)[i].end == n
  {
    StartBelow(n, size, i);
    if i < BatchCount(n, size) - 1 {
      StartBelow(n, size, i + 1);
      assert (i + 1) * size == i * size + size;
    } else {
      CountIsCeiling(n, size);
    }
  }

  /** Every batch is a non-empty range of rows below `n`. */
  lemma BatchesWithin(n: nat, size: nat)
    requires size > 0
    ensures forall i :: 0 <= i < |Batches(n, size)| ==>
              Batches(n, size)[i].start < Batches(n, size)[i].end <= n
  {
    forall i | 0 <= i < |Batches(n, size)|
      ensures Batches(n, size)[i].start < Batches(n, size)[i].end <= n
    {
      BatchShape(n, size, i);
    }
  }

  /** Row `r` lies in batch `r / size`, at position `r % size`. */
  lemma RowInBatch(n: nat, size: nat, r: nat)
    requires size > 0 && r < n
    ensures r / size < |Batches(n, size)|
    ensures Batches(n, size)[r / size].start + r % size == r
    ensures r < Batches(n, size)[r / size].end
  {
    BatchIndexBound(n, size, r);
    BatchShape(n, size, r / size);
    DivMod(r, size);
  }

  /** Row `r` lies in one of the `ceil(n / size)` batches. */
  lemma BatchIndexBound(n: nat, size: nat, r: nat)
    requires size > 0 && r < n
    ensures r / size < BatchCount(n, size)
  {
    DivShift(n - 1, size);
    assert n + size - 1 == (n - 1) + size;
    DivMonotone(r, n - 1, size);
  }

  lemma DivMod(a: nat, d: nat)
    requires d > 0
    ensures (a / d) * d + a % d == a && a % d < d
  {
  }

  /** The concatenation of a sequence of sequences, in order. */
  function Flatten<T>(parts: seq<seq<T>>): seq<T>
  {
    if parts == [] then [] else parts[0] + Flatten(parts[1..])
  }

  /** Parts of `size` entries each, except perhaps the last: entry `k` of
      part `i` is entry `i * size + k` of the concatenation. */
  lemma {:induction false} FlattenUniform<T>(parts: seq<seq<T>>, size: nat, i: nat, k: nat)
    requires forall j :: 0 <= j < |parts| - 1 ==> |parts[j]| == size
    requires i < |parts| && k < |parts[i]|
    ensures i * size + k < |Flatten(parts)|
    ensures Flatten(parts)[i * size + k] == parts[i][k]
    decreases |parts|
  {
    if i > 0 {
      var rest := parts[1..];
      assert forall j :: 0 <= j < |rest| - 1 ==> rest[j] == parts[j + 1];
      FlattenUniform(rest, size, i - 1, k);
      assert i * size + k == size + ((i - 1) * size + k);
      assert Flatten(parts) == parts[0] + Flatten(rest);
    }
  }

  /** The batches of a sequence: `s[start:end]` for each batch. */
  function Chunks<T>(s: seq<T>, size: nat): (r: seq<seq<T>>)
    requires size > 0
    ensures |r| == |Batches(|s|, size)|
    ensures forall i :: 0 <= i < |r| ==>
              |r[i]| == Batches(|s|, size)[i].end - Batches(|s|, size)[i].start
  {
    var bs := Batches(|s|, size);
    BatchesWithin(|s|, size);
    seq(|bs|, i requires 0 <= i < |bs| => s[bs[i].start..bs[i].end])
  }

  /** Every batch but the last holds `size` elements, and none is empty. */
  lemma ChunkSizes<T>(s: seq<T>, size: nat)
    requires size > 0
    ensures forall i :: 0 <= i < |Chunks(s, size)| ==> 0 < |Chunks(s, size)[i]| <= size
    ensures forall i :: 0 <= i < |Chunks(s, size)| - 1 ==> |Chunks(s, size)[i]| == size
  {
    forall i | 0 <= i < |Chunks(s, size)|
      ensures 0 < |Chunks(s, size)[i]| <= size
      ensures i < |Chunks(s, size)| - 1 ==> |Chunks(s, size)[i]| == size
    {
      BatchShape(|s|, size, i);
    }
  }

  /** Element `r` is at position `r % size` of batch `r / size`. */
  lemma ChunkRow<T>(s: seq<T>, size: nat, r: nat)
    requires size > 0 && r < |s|
    ensures r / size < |Chunks(s, size)| && r % size < |Chunks(s, size)[r / size]|
    ensures Chunks(s, size)[r / size][r % size] == s[r]
  {
    var bs := Batches(|s|, size);
    var i := r / size;
    RowInBatch(|s|, size, r);
    BatchesWithin(|s|, size);
    assert Chunks(s, size)[i] == s[bs[i].start..bs[i].end];
  }

  /** Concatenating the batches gives back the sequence: no element is
      lost, repeated or moved. */
  lemma ChunksCover<T>(s: seq<T>, size: nat)
    requires size > 0
    ensures Flatten(Chunks(s, size)) == s
  {
    var cs := Chunks(s, size);
    FlattenLength(cs, s, size);
    forall r | 0 <= r < |s|
      ensures Flatten(cs)[r] == s[r]
    {
      CoverRow(s, size, r);
    }
  }

  lemma CoverRow<T>(s: seq<T>, size: nat, r: nat)
    requires size > 0 && r < |s|
    ensures r < |Flatten(Chunks(s, size))| && Flatten(Chunks(s, size))[r] == s[r]
  {
    var cs := Chunks(s, size);
    ChunkRow(s, size, r);
    ChunkSizes(s, size);
    FlattenUniform(cs, size, r / size, r % size);
    DivMod(r, size);
  }

  /** The batches together hold exactly the elements of the sequence. */
  lemma FlattenLength<T>(cs: seq<seq<T>>, s: seq<T>, size: nat)
    requires size > 0 && cs == Chunks(s, size)
    ensures |Flatten(cs)| == |s|
  {
    if s != [] {
      LastChunk(s, size);
      ChunkSizes(s, size);
      FlattenBound(cs, size);
    }
  }

  /** The last batch holds the rows from `(m - 1) * size` to the end. */
  lemma LastChunk<T>(s: seq<T>, size: nat)
    requires size > 0 && s != []
    ensures |Chunks(s, size)| > 0
    ensures |Chunks(s, size)[|Chunks(s, size)| - 1]| == |s| - (|Chunks(s, size)| - 1) * size
  {
    CountIsCeiling(|s|, size);
    BatchShape(|s|, size, BatchCount(|s|, size) - 1);
  }

  /** Parts of `size` entries each, except the last, concatenate to no more
      than `(|parts| - 1) * size` plus the last part's length. */
  lemma {:induction false} FlattenBound<T>(parts: seq<seq<T>>, size: nat)
    requires parts != [] && forall j :: 0 <= j < |parts| - 1 ==> |parts[j]| == size
    ensures |Flatten(parts)| == (|parts| - 1) * size + |parts[|parts| - 1]|
    decreases |parts|
  {
    if |parts| > 1 {
      var rest := parts[1..];
      assert forall j :: 0 <= j < |rest| - 1 ==> rest[j] == parts[j + 1];
      FlattenBound(rest, size);
      assert (|parts| - 1) * size == size + (|rest| - 1) * size;
    }
  }

  /** Results that match the batches in length line up with the rows:
      row `r` gets result `r % size` of batch `r / size`. */
  lemma AlignedRow<T, U>(parts: seq<seq<T>>, s: seq<U>, size: nat, r: nat)
    requires size > 0 && r < |s|
    requires |parts| == |Chunks(s, size)|
    requires forall i :: 0 <= i < |parts| ==> |parts[i]| == |Chunks(s, size)[i]|
    ensures |Flatten(parts)| == |s|
    ensures r / size < |parts| && r % size < |parts[r / size]|
    ensures Flatten(parts)[r] == parts[r / size][r % size]
  {
    var cs := Chunks(s, size);
    ChunkRow(s, size, r);
    ChunkSizes(s, size);
    AlignedUniform(parts, cs, size, r / size, r % size);
    DivMod(r, size);
    FlattenLength(cs, s, size);
    FlattenSameLength(parts, cs);
  }

  /** `FlattenUniform` for results as long as batches of `size` elements. */
  lemma AlignedUniform<T, U>(parts: seq<seq<T>>, cs: seq<seq<U>>, size: nat, i: nat, k: nat)
    requires |parts| == |cs| && forall j :: 0 <= j < |cs| ==> |parts[j]| == |cs[j]|
    requires forall j :: 0 <= j < |cs| - 1 ==> |cs[j]| == size
    requires i < |cs| && k < |cs[i]|
    ensures k < |parts[i]| && i * size + k < |Flatten(parts)|
    ensures Flatten(parts)[i * size + k] == parts[i][k]
  {
    assert forall j :: 0 <= j < |parts| - 1 ==> |parts[j]| == size;
    FlattenUniform(parts, size, i, k);
  }

  /** Concatenating parts that hold only `x` gives a sequence holding only `x`. */
  lemma {:induction false} FlattenConstant<T>(parts: seq<seq<T>>, x: T)
    requires forall i, k :: 0 <= i < |parts| && 0 <= k < |parts[i]| ==> parts[i][k] == x
    ensures forall j :: 0 <= j < |Flatten(parts)| ==> Flatten(parts)[j] == x
    decreases |parts|
  {
    if parts != [] {
      FlattenConstant(parts[1..], x);
      assert forall i :: 1 <= i < |parts| ==> parts[1..][i - 1] == parts[i];
    }
  }

  /** Per-batch results at least as long as their batches concatenate to
      at least as many entries as the batches hold. */
  lemma {:induction false} FlattenAtLeast<T, U>(parts: seq<seq<T>>, xs: seq<seq<U>>)
    requires |parts| == |xs|
    requires forall i :: 0 <= i < |xs| ==> |parts[i]| >= |xs[i]|
    ensures |Flatten(parts)| >= |Flatten(xs)|
    decreases |xs|
  {
    if xs != [] {
      FlattenAtLeast(parts[1..], xs[1..]);
    }
  }

  /** Per-batch results exactly as long as their batches concatenate to
      exactly as many entries as the batches hold. */
  lemma {:induction false} FlattenSameLength<T, U>(parts: seq<seq<T>>, xs: seq<seq<U>>)
    requires |parts| == |xs|
    requires forall i :: 0 <= i < |xs| ==> |parts[i]| == |xs[i]|
    ensures |Flatten(parts)| == |Flatten(xs)|
    decreases |xs|
  {
    if xs != [] {
      FlattenSameLength(parts[1..], xs[1..]);
    }
  }

  /** Parts computed element by element from `xs` by a partial map `g`
      concatenate into that map of the concatenation of `xs`: entry `k`
      of the one comes from entry `k` of the other. */
  lemma {:induction false} FlattenMapped<T, U>(parts: seq<seq<U>>, xs: seq<seq<T>>, g: T -> Option<U>)
    requires |parts| == |xs|
    requires forall i :: 0 <= i < |xs| ==> |parts[i]| == |xs[i]|
    requires forall i, k :: 0 <= i < |xs| && 0 <= k < |xs[i]| ==> g(xs[i][k]) == Some(parts[i][k])
    ensures |Flatten(parts)| == |Flatten(xs)|
    ensures forall k :: 0 <= k < |Flatten(xs)| ==> g(Flatten(xs)[k]) == Some(Flatten(parts)[k])
    decreases |xs|
  {
    if xs != [] {
      FlattenMapped(parts[1..], xs[1..], g);
      assert forall k :: 0 <= k < |xs[0]| ==> g(xs[0][k]) == Some(parts[0][k]);
    }
  }

  /** ... and strictly more when one batch's result is longer than it. */
  lemma {:induction false} FlattenLonger<T, U>(parts: seq<seq<T>>, xs: seq<seq<U>>, extra: nat)
    requires |parts| == |xs|
    requires forall i :: 0 <= i < |xs| ==> |parts[i]| >= |xs[i]|
    requires extra < |xs| && |parts[extra]| > |xs[extra]|
    ensures |Flatten(parts)| > |Flatten(xs)|
    decreases |xs|
  {
    if extra == 0 {
      FlattenAtLeast(parts[1..], xs[1..]);
    } else {
      FlattenLonger(parts[1..], xs[1..], extra - 1);
    }
  }

  /** Parts of between `lo` and `hi` entries each concatenate to between
      `lo` and `hi` entries per part. */
  lemma {:induction false} FlattenBetween<T>(parts: seq<seq<T>>, lo: nat, hi: nat)
    requires forall i :: 0 <= i < |parts| ==> lo <= |parts[i]| <= hi
    ensures lo * |parts| <= |Flatten(parts)| <= hi * |parts|
    decreases |parts|
  {
    if parts != [] {
      FlattenBetween(parts[1..], lo, hi);
      assert lo * |parts| == lo + lo * |parts[1..]| && hi * |parts| == hi + hi * |parts[1..]|;
    }
  }

  /** Two parts concatenate into one list. */
  lemma FlattenPair<T>(parts: seq<seq<T>>, a: seq<T>, b: seq<T>)
    requires parts == [a, b]
    ensures Flatten(parts) == a + b
  {
    assert parts[1..] == [b];
    assert Flatten([b]) == b + Flatten([]);
  }

  /** Concatenating one more part appends it. */
  lemma {:induction false} FlattenSnoc<T>(parts: seq<seq<T>>, x: seq<T>)
    ensures Flatten(parts + [x]) == Flatten(parts) + x
    decreases |parts|
  {
    if parts != [] {
      assert (parts + [x])[1..] == parts[1..] + [x];
      FlattenSnoc(parts[1..], x);
    }
  }
}
