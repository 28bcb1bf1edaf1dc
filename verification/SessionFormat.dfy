/**
 The accepted session-v9 files, as content and as bytes (dmn/native_cache.py).

 `Encode` is the writer's side of the restricted format: one sequence, plain F16/Q8 tensors,
 a global cache holding every position and a local sliding-window cache.
 */
module SessionFormat {
  import opened Bytes

  /** `bytes` holds one row of `rowBytes` bytes for every cell. */
  datatype TensorRows = TensorRows(kind: int, rowBytes: int, bytes: seq<int>)

  /** `tensors` lists all K tensors, then all V tensors; row `i` belongs to `positions[i]`. */
  datatype CacheRows = CacheRows(positions: seq<int>, tensors: seq<TensorRows>)

  datatype Session = Session(tokens: seq<int>, global: CacheRows, local: CacheRows)

  const MAGIC := 0x6767736E
  const VERSION := 9
  const MAX_TOKENS := 16 * 1024 * 1024
  const MAX_LAYERS := 512
  const MAX_ROW := 1024 * 1024

  function Architecture(): (s: seq<int>)
    ensures |s| == 6
  {
    [103, 101, 109, 109, 97, 52]  // "gemma4"
  }

  predicate Geometry(kind: int, rowBytes: int) {
    && (kind == 1 || kind == 8)
    && 1 <= rowBytes <= MAX_ROW
    && rowBytes % (if kind == 1 then 2 else 34) == 0
  }

  predicate InRange(ps: seq<int>, limit: int) {
    forall i :: 0 <= i < |ps| ==> 0 <= ps[i] < limit
  }

  predicate Distinct(ps: seq<int>) {
    forall i, j :: 0 <= i < j < |ps| ==> ps[i] != ps[j]
  }

  /** Bytes in `count` rows of `width` bytes. */
  function Block(count: int, width: int): (n: int)
    requires 0 <= width
    ensures n >= 0
    decreases count
  {
    if count <= 0 then 0 else width + Block(count - 1, width)
  }

  predicate GoodTensor(t: TensorRows, count: int) {
    Geometry(t.kind, t.rowBytes) && |t.bytes| == Block(count, t.rowBytes)
  }

  predicate GoodTensors(ts: seq<TensorRows>, count: int) {
    ts == [] || (GoodTensor(ts[0], count) && GoodTensors(ts[1..], count))
  }

  predicate GoodCache(c: CacheRows, tokenCount: int) {
    && 1 <= |c.positions| <= tokenCount <= MAX_TOKENS
    && InRange(c.positions, tokenCount) && Distinct(c.positions)
    && |c.tensors| % 2 == 0 && 1 <= |c.tensors| / 2 <= MAX_LAYERS
    && GoodTensors(c.tensors, |c.positions|)
  }

  function PositionSet(ps: seq<int>): set<int> {
    set i | 0 <= i < |ps| :: ps[i]
  }

  predicate Between(from: int, p: int, to: int) {
    from <= p < to
  }

  function Range(from: int, to: int): set<int> {
    set p: int | from <= p < to && Between(from, p, to)
  }

  predicate GoodSession(s: Session) {
    && 1 <= |s.tokens| <= MAX_TOKENS && InRange(s.tokens, 0x8000_0000)
    && GoodCache(s.global, |s.tokens|) && GoodCache(s.local, |s.tokens|)
    && PositionSet(s.global.positions) == Range(0, |s.tokens|)
  }

  /*------------------------------------------------------------------ encoding */

  function Cell(p: int): (s: seq<int>)
    requires IsI32(p)
    ensures |s| == 12
  {
    I32(p) + (U32(1) + I32(0))
  }

  function Cells(ps: seq<int>): (s: seq<int>)
    requires InRange(ps, MAX_TOKENS)
    ensures |s| == 12 * |ps|
  {
    if ps == [] then [] else Cell(ps[0]) + Cells(ps[1..])
  }

  function Ints(ns: seq<int>): (s: seq<int>)
    requires InRange(ns, 0x8000_0000)
    ensures |s| == 4 * |ns|
  {
    if ns == [] then [] else I32(ns[0]) + Ints(ns[1..])
  }

  function Header(kind: int, rowBytes: int): (s: seq<int>)
    requires Geometry(kind, rowBytes)
    ensures |s| == 12
  {
    I32(kind) + U64(rowBytes)
  }

  function TensorBytes(t: TensorRows): seq<int>
    requires Geometry(t.kind, t.rowBytes)
  {
    Header(t.kind, t.rowBytes) + t.bytes
  }

  function TensorsBytes(ts: seq<TensorRows>, count: int): seq<int>
    requires GoodTensors(ts, count)
  {
    if ts == [] then [] else TensorBytes(ts[0]) + TensorsBytes(ts[1..], count)
  }

  function EncodeCache(c: CacheRows, tokenCount: int): seq<int>
    requires GoodCache(c, tokenCount)
  {
    (U32(1) + U32(|c.positions|)) + (Cells(c.positions)
    + ((U32(0) + U32(|c.tensors| / 2)) + TensorsBytes(c.tensors, |c.positions|)))
  }

  function Preamble(tokens: seq<int>): seq<int>
    requires 1 <= |tokens| <= MAX_TOKENS && InRange(tokens, 0x8000_0000)
  {
    (U32(MAGIC) + (U32(VERSION) + U32(|tokens|))) + (Ints(tokens) + (U32(6) + Architecture()))
  }

  function Encode(s: Session): seq<int>
    requires GoodSession(s)
  {
    Preamble(s.tokens) + (EncodeCache(s.global, |s.tokens|) + EncodeCache(s.local, |s.tokens|))
  }

  lemma {:induction false} BlockIsProduct(count: nat, width: int)
    requires 0 <= width
    ensures Block(count, width) == count * width
  {
    if count > 0 {
      BlockIsProduct(count - 1, width);
      assert count * width == (count - 1) * width + width;
    }
  }

  lemma {:induction false} BlockSplit(a: nat, b: nat, width: int)
    requires 0 <= width
    ensures Block(a + b, width) == Block(a, width) + Block(b, width)
  {
    if a > 0 {
      BlockSplit(a - 1, b, width);
    }
  }

  lemma TensorsCons(t: TensorRows, rest: seq<TensorRows>, count: int)
    requires GoodTensor(t, count) && GoodTensors(rest, count)
    ensures GoodTensors([t] + rest, count)
    ensures TensorsBytes([t] + rest, count) == TensorBytes(t) + TensorsBytes(rest, count)
  {
    assert ([t] + rest)[1..] == rest;
  }

  lemma {:induction false} DistinctByCount(ps: seq<int>)
    ensures |PositionSet(ps)| <= |ps|
    ensures Distinct(ps) <==> |PositionSet(ps)| == |ps|
  {
    if ps == [] {
      assert PositionSet(ps) == {};
    } else {
      var front, last := ps[..|ps| - 1], ps[|ps| - 1];
      DistinctByCount(front);
      forall x ensures x in PositionSet(ps) <==> x in PositionSet(front) + {last} {
        if x in PositionSet(ps) {
          var i :| 0 <= i < |ps| && ps[i] == x;
          assert i < |front| ==> front[i] == x;
        }
        if x in PositionSet(front) {
          var i :| 0 <= i < |front| && front[i] == x;
          assert ps[i] == x;
        }
        if x == last { assert ps[|ps| - 1] == x; }
      }
      assert PositionSet(ps) == PositionSet(front) + {last};
      if last in PositionSet(front) {
        var i :| 0 <= i < |front| && front[i] == last;
        assert ps[i] == ps[|ps| - 1];
      } else {
        assert forall i :: 0 <= i < |front| ==> front[i] in PositionSet(front);
      }
    }
  }
}
