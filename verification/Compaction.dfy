/**
 What windowed compaction means for the content of a session (dmn/native_cache.py:127-166):
 the local cache keeps exactly the cells of the last `window` positions, in stored order, each
 with the same row in every tensor.
 */
module Compaction {
  import opened Wrappers
  import opened Bytes
  import opened SessionFormat

  function Cutoff(tokenCount: int, window: int): int {
    Max(0, tokenCount - window)
  }

  /** The indices of the cells at or after `cutoff`, ascending. */
  function Kept(ps: seq<int>, cutoff: int): seq<int> {
    if ps == [] then []
    else
      var last := |ps| - 1;
      Kept(ps[..last], cutoff) + (if ps[last] >= cutoff then [last] else [])
  }

  predicate Indexes(idx: seq<int>, n: int) {
    forall k :: 0 <= k < |idx| ==> 0 <= idx[k] < n
  }

  predicate Ascending(idx: seq<int>) {
    forall i, j :: 0 <= i < j < |idx| ==> idx[i] < idx[j]
  }

  function Pick(ps: seq<int>, idx: seq<int>): (r: seq<int>)
    requires Indexes(idx, |ps|)
    ensures |r| == |idx|
  {
    seq(|idx|, k requires 0 <= k < |idx| => ps[idx[k]])
  }

  lemma {:induction false} BlockGrows(a: nat, b: nat, width: int)
    requires 0 <= width && a <= b
    ensures Block(a, width) <= Block(b, width)
  {
    BlockSplit(a, b - a, width);
  }

  /** Row `i` of a block of `count` rows. */
  function RowAt(bytes: seq<int>, width: int, count: int, i: int): (row: seq<int>)
    requires 0 <= width && |bytes| == Block(count, width) && 0 <= i < count
    ensures |row| == width
  {
    BlockGrows(i + 1, count, width);
    bytes[Block(i, width)..Block(i, width) + width]
  }

  /** The rows named by `idx`, one after another. */
  function PickRows(bytes: seq<int>, width: int, count: int, idx: seq<int>): seq<int>
    requires 0 <= width && |bytes| == Block(count, width) && Indexes(idx, count)
  {
    if idx == [] then []
    else
      var last := |idx| - 1;
      PickRows(bytes, width, count, idx[..last]) + RowAt(bytes, width, count, idx[last])
  }

  function CompactTensor(t: TensorRows, count: int, idx: seq<int>): TensorRows
    requires GoodTensor(t, count) && Indexes(idx, count)
  {
    TensorRows(t.kind, t.rowBytes, PickRows(t.bytes, t.rowBytes, count, idx))
  }

  function CompactTensors(ts: seq<TensorRows>, count: int, idx: seq<int>): (r: seq<TensorRows>)
    requires GoodTensors(ts, count) && Indexes(idx, count)
    ensures |r| == |ts|
  {
    if ts == [] then [] else [CompactTensor(ts[0], count, idx)] + CompactTensors(ts[1..], count, idx)
  }

  lemma {:induction false} KeptIndexes(ps: seq<int>, cutoff: int)
    ensures Indexes(Kept(ps, cutoff), |ps|) && Ascending(Kept(ps, cutoff))
  {
    if ps != [] {
      KeptIndexes(ps[..|ps| - 1], cutoff);
    }
  }

  /** An index is kept exactly when its position is at or after the cutoff. */
  lemma {:induction false} KeptExactly(ps: seq<int>, cutoff: int, i: int)
    requires 0 <= i < |ps|
    ensures i in Kept(ps, cutoff) <==> ps[i] >= cutoff
  {
    var last := |ps| - 1;
    KeptIndexes(ps[..last], cutoff);
    if i < last {
      KeptExactly(ps[..last], cutoff, i);
    }
  }

  function CompactCache(c: CacheRows, cutoff: int): CacheRows
    requires GoodTensors(c.tensors, |c.positions|)
  {
    KeptIndexes(c.positions, cutoff);
    var idx := Kept(c.positions, cutoff);
    CacheRows(Pick(c.positions, idx), CompactTensors(c.tensors, |c.positions|, idx))
  }

  /** The session after compaction to `window`. */
  function Compacted(s: Session, window: int): Session
    requires GoodSession(s)
  {
    Session(s.tokens, s.global, CompactCache(s.local, Cutoff(|s.tokens|, window)))
  }

  /** The local cache still holds every position of the window. */
  predicate RecentComplete(s: Session, window: int)
    requires GoodSession(s)
  {
    PositionSet(Compacted(s, window).local.positions) == Range(Cutoff(|s.tokens|, window), |s.tokens|)
  }

  /*------------------------------------------------------------------ rows */

  lemma {:induction false} PickRowsLength(bytes: seq<int>, width: int, count: int, idx: seq<int>)
    requires 0 <= width && |bytes| == Block(count, width) && Indexes(idx, count)
    ensures |PickRows(bytes, width, count, idx)| == Block(|idx|, width)
  {
    if idx != [] {
      PickRowsLength(bytes, width, count, idx[..|idx| - 1]);
    }
  }

  /** Row `k` of the picked block is row `idx[k]` of the original one. */
  lemma {:induction false} PickedRow(bytes: seq<int>, width: int, count: int, idx: seq<int>, k: int)
    requires 0 <= width && |bytes| == Block(count, width) && Indexes(idx, count) && 0 <= k < |idx|
    ensures |PickRows(bytes, width, count, idx)| == Block(|idx|, width)
    ensures RowAt(PickRows(bytes, width, count, idx), width, |idx|, k) == RowAt(bytes, width, count, idx[k])
  {
    var last := |idx| - 1;
    var front := PickRows(bytes, width, count, idx[..last]);
    PickRowsLength(bytes, width, count, idx);
    PickRowsLength(bytes, width, count, idx[..last]);
    if k < last {
      PickedRow(bytes, width, count, idx[..last], k);
      BlockGrows(k + 1, last, width);
    }
  }

  /** Picking from picked rows is picking once. */
  lemma {:induction false} PickRowsTwice(bytes: seq<int>, width: int, count: int, idx: seq<int>, again: seq<int>)
    requires 0 <= width && |bytes| == Block(count, width) && Indexes(idx, count) && Indexes(again, |idx|)
    ensures |PickRows(bytes, width, count, idx)| == Block(|idx|, width) && Indexes(Pick(idx, again), count)
    ensures PickRows(PickRows(bytes, width, count, idx), width, |idx|, again) == PickRows(bytes, width, count, Pick(idx, again))
    decreases |again|
  {
    PickRowsLength(bytes, width, count, idx);
    if again != [] {
      var last := |again| - 1;
      PickRowsTwice(bytes, width, count, idx, again[..last]);
      PickedRow(bytes, width, count, idx, again[last]);
      assert Pick(idx, again)[..last] == Pick(idx, again[..last]);
    }
  }

  lemma PickRowsSnoc(bytes: seq<int>, width: int, count: int, idx: seq<int>, i: int)
    requires 0 <= width && |bytes| == Block(count, width) && Indexes(idx, count) && 0 <= i < count
    ensures Indexes(idx + [i], count)
    ensures PickRows(bytes, width, count, idx + [i]) == PickRows(bytes, width, count, idx) + RowAt(bytes, width, count, i)
  {
    assert (idx + [i])[..|idx|] == idx;
  }

  /** Picking a concatenation of index lists concatenates the picked rows. */
  lemma {:induction false} PickRowsAppend(bytes: seq<int>, width: int, count: int, a: seq<int>, b: seq<int>)
    requires 0 <= width && |bytes| == Block(count, width) && Indexes(a, count) && Indexes(b, count)
    ensures Indexes(a + b, count)
    ensures PickRows(bytes, width, count, a + b) == PickRows(bytes, width, count, a) + PickRows(bytes, width, count, b)
    decreases |b|
  {
    if b == [] {
      assert a + b == a && PickRows(bytes, width, count, b) == [];
    } else {
      hide PickRows, Block, RowAt;
      var front, last := b[..|b| - 1], b[|b| - 1];
      assert b == front + [last] && Indexes(front, count) && 0 <= last < count;
      PickRowsAppend(bytes, width, count, a, front);
      PickRowsSnoc(bytes, width, count, front, last);
      PickRowsSnoc(bytes, width, count, a + front, last);
      ConcatAssoc(a, front, [last]);
      ConcatAssoc(PickRows(bytes, width, count, a), PickRows(bytes, width, count, front), RowAt(bytes, width, count, last));
    }
  }

  function Rows(bytes: seq<int>, width: int, count: int, from: int, n: int): (r: seq<int>)
    requires 0 <= width && |bytes| == Block(count, width) && 0 <= from && 0 <= n && from + n <= count
  {
    BlockGrows(from, from + n, width);
    BlockGrows(from + n, count, width);
    bytes[Block(from, width)..Block(from + n, width)]
  }

  /** Consecutive rows are one contiguous slice: a run may be copied in one go. */
  lemma {:induction false} PickRun(bytes: seq<int>, width: int, count: int, first: int, n: nat)
    requires 0 <= width && |bytes| == Block(count, width) && 0 <= first && first + n <= count
    ensures Indexes(Interval(first, n), count)
    ensures PickRows(bytes, width, count, Interval(first, n)) == Rows(bytes, width, count, first, n)
    decreases n
  {
    hide PickRows, RowAt, Rows;
    if n == 0 {
      NoRows(bytes, width, count, first);
      assert Interval(first, n) == [];
    } else {
      PickRun(bytes, width, count, first, n - 1);
      PickRowsSnoc(bytes, width, count, Interval(first, n - 1), first + n - 1);
      assert Interval(first, n) == Interval(first, n - 1) + [first + n - 1];
      RowsSnoc(bytes, width, count, first, n);
    }
  }

  lemma NoRows(bytes: seq<int>, width: int, count: int, first: int)
    requires 0 <= width && |bytes| == Block(count, width) && 0 <= first <= count
    ensures PickRows(bytes, width, count, []) == [] == Rows(bytes, width, count, first, 0)
  {
    BlockGrows(first, count, width);
  }

  lemma RowsSnoc(bytes: seq<int>, width: int, count: int, first: int, n: nat)
    requires 0 <= width && |bytes| == Block(count, width) && 0 <= first && first + n <= count && n > 0
    ensures Rows(bytes, width, count, first, n)
         == Rows(bytes, width, count, first, n - 1) + RowAt(bytes, width, count, first + n - 1)
  {
    BlockGrows(first, first + n - 1, width);
    BlockGrows(first + n, count, width);
    SliceJoin(bytes, Block(first, width), Block(first + n - 1, width), Block(first + n, width));
  }

  lemma SliceJoin(bytes: seq<int>, a: int, b: int, c: int)
    requires 0 <= a <= b <= c <= |bytes|
    ensures bytes[a..b] + bytes[b..c] == bytes[a..c]
  {
  }

  /*------------------------------------------------------------------ compaction is well formed */

  lemma {:induction false} CompactTensorsGood(ts: seq<TensorRows>, count: int, idx: seq<int>)
    requires GoodTensors(ts, count) && Indexes(idx, count)
    ensures GoodTensors(CompactTensors(ts, count, idx), |idx|)
    decreases |ts|
  {
    if ts != [] {
      PickRowsLength(ts[0].bytes, ts[0].rowBytes, count, idx);
      CompactTensorsGood(ts[1..], count, idx);
    }
  }

  lemma KeptPositions(ps: seq<int>, cutoff: int, limit: int)
    requires InRange(ps, limit) && Distinct(ps)
    ensures Indexes(Kept(ps, cutoff), |ps|)
    ensures InRange(Pick(ps, Kept(ps, cutoff)), limit) && Distinct(Pick(ps, Kept(ps, cutoff)))
    ensures |Kept(ps, cutoff)| <= |ps|
  {
    KeptIndexes(ps, cutoff);
    KeptLength(ps, cutoff);
    assert forall i, j :: 0 <= i < j < |Kept(ps, cutoff)| ==> Kept(ps, cutoff)[i] < Kept(ps, cutoff)[j];
  }

  lemma {:induction false} KeptLength(ps: seq<int>, cutoff: int)
    ensures |Kept(ps, cutoff)| <= |ps|
  {
    if ps != [] { KeptLength(ps[..|ps| - 1], cutoff); }
  }

  lemma CompactedIsGood(s: Session, window: int)
    requires GoodSession(s) && window >= 1 && RecentComplete(s, window)
    ensures GoodSession(Compacted(s, window))
  {
    var c, cutoff := s.local, Cutoff(|s.tokens|, window);
    KeptPositions(c.positions, cutoff, |s.tokens|);
    CompactTensorsGood(c.tensors, |c.positions|, Kept(c.positions, cutoff));
    assert Between(cutoff, |s.tokens| - 1, |s.tokens|);
    assert |s.tokens| - 1 in PositionSet(Compacted(s, window).local.positions);
  }

  /** Every retained position keeps its row in every tensor; nothing before the cutoff remains. */
  lemma CompactionKeepsRows(s: Session, window: int, k: int, tensor: int)
    requires GoodSession(s)
    requires 0 <= k < |Compacted(s, window).local.positions| && 0 <= tensor < |s.local.tensors|
    ensures var i := Kept(s.local.positions, Cutoff(|s.tokens|, window))[k];
      var before, after := s.local, Compacted(s, window).local;
      && 0 <= i < |before.positions|
      && after.positions[k] == before.positions[i] >= Cutoff(|s.tokens|, window)
      && GoodTensor(before.tensors[tensor], |before.positions|) && GoodTensor(after.tensors[tensor], |after.positions|)
      && RowAt(after.tensors[tensor].bytes, after.tensors[tensor].rowBytes, |after.positions|, k)
         == RowAt(before.tensors[tensor].bytes, before.tensors[tensor].rowBytes, |before.positions|, i)
  {
    var c, cutoff := s.local, Cutoff(|s.tokens|, window);
    var idx := Kept(c.positions, cutoff);
    KeptIndexes(c.positions, cutoff);
    KeptExactly(c.positions, cutoff, idx[k]);
    TensorOf(c.tensors, |c.positions|, idx, tensor);
    var t := c.tensors[tensor];
    PickedRow(t.bytes, t.rowBytes, |c.positions|, idx, k);
  }

  lemma {:induction false} TensorOf(ts: seq<TensorRows>, count: int, idx: seq<int>, tensor: int)
    requires GoodTensors(ts, count) && Indexes(idx, count) && 0 <= tensor < |ts|
    ensures GoodTensor(ts[tensor], count)
    ensures CompactTensors(ts, count, idx)[tensor] == CompactTensor(ts[tensor], count, idx)
    decreases tensor
  {
    if tensor > 0 {
      TensorOf(ts[1..], count, idx, tensor - 1);
    }
  }

  /*------------------------------------------------------------------ compacting twice */

  lemma {:induction false} KeptTwice(ps: seq<int>, first: int, second: int)
    requires first <= second
    ensures Indexes(Kept(ps, first), |ps|)
    ensures var idx := Kept(ps, first); var again := Kept(Pick(ps, idx), second);
      Indexes(again, |idx|) && Pick(idx, again) == Kept(ps, second)
  {
    hide Indexes, Ascending, Pick, Kept;
    KeptIndexes(ps, first);
    KeptIndexes(Pick(ps, Kept(ps, first)), second);
    if ps == [] {
      NothingKept(first);
      NothingKept(second);
    } else {
      var last := |ps| - 1;
      var front := ps[..last];
      KeptTwice(front, first, second);
      KeptUnfold(ps, first);
      KeptUnfold(ps, second);
      assert ps == front + [ps[last]];
      if ps[last] >= first {
        KeptSnoc(front, ps[last], Kept(front, first), second);
      } else {
        PickFront(ps, front, Kept(front, first));
      }
    }
  }

  lemma NothingKept(cutoff: int)
    ensures Kept([], cutoff) == []
  {
  }

  lemma KeptUnfold(ps: seq<int>, cutoff: int)
    requires ps != []
    ensures var last := |ps| - 1;
      Kept(ps, cutoff) == if ps[last] >= cutoff then Kept(ps[..last], cutoff) + [last] else Kept(ps[..last], cutoff)
  {
  }

  lemma PickFront(ps: seq<int>, front: seq<int>, idx: seq<int>)
    requires front <= ps && Indexes(idx, |front|)
    ensures Indexes(idx, |ps|) && Pick(ps, idx) == Pick(front, idx)
  {
  }

  lemma KeptSnoc(front: seq<int>, p: int, fewer: seq<int>, second: int)
    requires Indexes(fewer, |front|)
    requires Indexes(Kept(Pick(front, fewer), second), |fewer|)
    ensures var ps, idx := front + [p], fewer + [|front|];
      && Indexes(idx, |ps|) && Indexes(Kept(Pick(ps, idx), second), |idx|)
      && Pick(idx, Kept(Pick(ps, idx), second))
         == if p >= second then Pick(fewer, Kept(Pick(front, fewer), second)) + [|front|]
            else Pick(fewer, Kept(Pick(front, fewer), second))
  {
    var ps, idx := front + [p], fewer + [|front|];
    assert Pick(ps, idx)[..|fewer|] == Pick(front, fewer);
    assert Pick(ps, idx)[|fewer|] == p;
  }

  lemma {:induction false} CompactTensorsTwice(ts: seq<TensorRows>, count: int, idx: seq<int>, again: seq<int>)
    requires GoodTensors(ts, count) && Indexes(idx, count) && Indexes(again, |idx|)
    ensures Indexes(Pick(idx, again), count) && GoodTensors(CompactTensors(ts, count, idx), |idx|)
    ensures CompactTensors(CompactTensors(ts, count, idx), |idx|, again) == CompactTensors(ts, count, Pick(idx, again))
    decreases |ts|
  {
    CompactTensorsGood(ts, count, idx);
    if ts != [] {
      CompactTensorsTwice(ts[1..], count, idx, again);
      PickRowsTwice(ts[0].bytes, ts[0].rowBytes, count, idx, again);
      assert CompactTensors(ts, count, idx)[1..] == CompactTensors(ts[1..], count, idx);
    }
  }

  lemma PickPickPositions(ps: seq<int>, idx: seq<int>, again: seq<int>)
    requires Indexes(idx, |ps|) && Indexes(again, |idx|)
    ensures Indexes(Pick(idx, again), |ps|) && Pick(Pick(ps, idx), again) == Pick(ps, Pick(idx, again))
  {
  }

  /** Compacting to a wide window and then to a narrower one is compacting to the narrower one. */
  lemma CompactTwice(s: Session, wide: int, narrow: int)
    requires GoodSession(s) && 1 <= narrow <= wide && RecentComplete(s, wide)
    ensures GoodSession(Compacted(s, wide))
    ensures Compacted(Compacted(s, wide), narrow) == Compacted(s, narrow)
  {
    CompactedIsGood(s, wide);
    var c := s.local;
    var first, second := Cutoff(|s.tokens|, wide), Cutoff(|s.tokens|, narrow);
    KeptTwice(c.positions, first, second);
    var idx := Kept(c.positions, first);
    var again := Kept(Pick(c.positions, idx), second);
    PickPickPositions(c.positions, idx, again);
    CompactTensorsTwice(c.tensors, |c.positions|, idx, again);
  }

  lemma CompactIdempotent(s: Session, window: int)
    requires GoodSession(s) && window >= 1 && RecentComplete(s, window)
    ensures GoodSession(Compacted(s, window))
    ensures Compacted(Compacted(s, window), window) == Compacted(s, window)
  {
    CompactTwice(s, window, window);
  }

  /** A cache that is complete for a window is complete for every narrower window. */
  lemma CompleteForNarrower(s: Session, wide: int, narrow: int)
    requires GoodSession(s) && narrow <= wide && RecentComplete(s, wide)
    ensures RecentComplete(s, narrow)
  {
    var ps := s.local.positions;
    var first, second := Cutoff(|s.tokens|, wide), Cutoff(|s.tokens|, narrow);
    forall p ensures p in PositionSet(Compacted(s, narrow).local.positions) <==> p in Range(second, |s.tokens|) {
      KeptHolds(ps, first, p);
      KeptHolds(ps, second, p);
      assert p in PositionSet(Compacted(s, wide).local.positions) <==> p in Range(first, |s.tokens|);
      if p in ps { assert p < |s.tokens|; }
    }
  }

  /** A position survives exactly when it is present and not before the cutoff. */
  lemma KeptHolds(ps: seq<int>, cutoff: int, p: int)
    ensures Indexes(Kept(ps, cutoff), |ps|)
    ensures p in PositionSet(Pick(ps, Kept(ps, cutoff))) <==> p in ps && p >= cutoff
  {
    KeptIndexes(ps, cutoff);
    var idx := Kept(ps, cutoff);
    if p in ps && p >= cutoff {
      var i :| 0 <= i < |ps| && ps[i] == p;
      KeptExactly(ps, cutoff, i);
      var k :| 0 <= k < |idx| && idx[k] == i;
      assert Pick(ps, idx)[k] == p;
    }
    if p in PositionSet(Pick(ps, idx)) {
      var k :| 0 <= k < |idx| && Pick(ps, idx)[k] == p;
      KeptExactly(ps, cutoff, idx[k]);
    }
  }
}
