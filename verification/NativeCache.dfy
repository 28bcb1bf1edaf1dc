/** The restricted codec: strict parser, windowed compactor and independent verifier (dmn/native_cache.py). */
module NativeCache {
  import opened Wrappers
  import opened Bytes
  import opened SessionFormat

  datatype Tensor = Tensor(kind: int, rowBytes: int, offset: int)

  datatype Cache = Cache(start: int, end: int, positions: seq<int>, layers: int, tensors: seq<Tensor>)

  datatype State = State(size: int, tokens: seq<int>, global: Cache, local: Cache)

  /*------------------------------------------------------------------ what a parsed cache describes */

  /** One tensor header: kind, row width, and the block-size check. */
  function ParseHeader(data: seq<int>, at: int): Option<(int, int)>
    requires 0 <= at
  {
    if at + 12 > |data| then None
    else
      var kind, rowBytes := AsI32(data[at..at + 4]), AsU64(data[at + 4..at + 12]);
      if Geometry(kind, rowBytes) then Some((kind, rowBytes)) else None
  }

  lemma ReadsHeader(data: seq<int>, at: int, kind: int, rowBytes: int)
    requires Octets(data)
    requires 0 <= at
    ensures ParseHeader(data, at) == Some((kind, rowBytes)) <==>
      Geometry(kind, rowBytes) && Stands(data, at, Header(kind, rowBytes))
  {
    hide Octets, AsI32, AsU64, I32, U64;
    if Geometry(kind, rowBytes) {
      StandsSplit(data, at, I32(kind), U64(rowBytes));
      if at + 12 <= |data| {
        ReadsI32(data, at, kind);
        ReadsU64(data, at + 4, rowBytes);
      }
    }
  }

  /** Headers and row blocks of the tensors stand one after another from `at` to `end`. */
  ghost predicate TensorsStand(data: seq<int>, at: int, ts: seq<Tensor>, count: nat, end: int)
    decreases |ts|
  {
    if ts == [] then at == end && 0 <= at <= |data|
    else
      && 0 <= at && ParseHeader(data, at) == Some((ts[0].kind, ts[0].rowBytes))
      && ts[0].offset == at + 12
      && ts[0].offset + Block(count, ts[0].rowBytes) <= |data|
      && TensorsStand(data, ts[0].offset + Block(count, ts[0].rowBytes), ts[1..], count, end)
  }

  /** The tensor whose rows stand at `t.offset`. */
  function TensorAt(data: seq<int>, t: Tensor, count: int): TensorRows
    requires 0 <= t.offset && 0 <= t.rowBytes && t.offset + Block(count, t.rowBytes) <= |data|
  {
    TensorRows(t.kind, t.rowBytes, data[t.offset..t.offset + Block(count, t.rowBytes)])
  }

  ghost function TensorContents(data: seq<int>, at: int, ts: seq<Tensor>, count: nat, end: int): seq<TensorRows>
    requires TensorsStand(data, at, ts, count, end)
    decreases |ts|
  {
    if ts == [] then []
    else
      [TensorAt(data, ts[0], count)]
      + TensorContents(data, ts[0].offset + Block(count, ts[0].rowBytes), ts[1..], count, end)
  }

  lemma {:induction false} TensorContentsGood(data: seq<int>, at: int, ts: seq<Tensor>, count: nat, end: int)
    requires TensorsStand(data, at, ts, count, end) && 0 <= at
    ensures var rows := TensorContents(data, at, ts, count, end);
      |rows| == |ts| && GoodTensors(rows, count)
    decreases |ts|
  {
    if ts != [] {
      var t := ts[0];
      TensorContentsGood(data, t.offset + Block(count, t.rowBytes), ts[1..], count, end);
    }
  }

  lemma {:induction false} TensorContentsStand(data: seq<int>, at: int, ts: seq<Tensor>, count: nat, end: int)
    requires Octets(data)
    requires TensorsStand(data, at, ts, count, end) && 0 <= at
    requires GoodTensors(TensorContents(data, at, ts, count, end), count)
    ensures var rows := TensorContents(data, at, ts, count, end);
      Stands(data, at, TensorsBytes(rows, count)) && end == at + |TensorsBytes(rows, count)|
    decreases |ts|
  {
    hide *;
    if ts == [] {
      EmptyTensors(data, at, ts, count, end);
    } else {
      HeadUnfold(data, at, ts, count, end);
      var t := ts[0];
      var next := t.offset + Block(count, t.rowBytes);
      ContentsUnfold(data, at, ts, count, end);
      TensorContentsGood(data, next, ts[1..], count, end);
      OneTensorStands(data, at, t, count);
      TensorContentsStand(data, next, ts[1..], count, end);
      ConsStands(data, at, TensorAt(data, t, count), TensorContents(data, next, ts[1..], count, end), count);
    }
  }

  lemma EmptyTensors(data: seq<int>, at: int, ts: seq<Tensor>, count: nat, end: int)
    requires ts == [] && TensorsStand(data, at, ts, count, end) && 0 <= at
    ensures var rows := TensorContents(data, at, ts, count, end);
      rows == [] && Stands(data, at, TensorsBytes(rows, count)) && end == at + |TensorsBytes(rows, count)|
  {
  }

  lemma HeadUnfold(data: seq<int>, at: int, ts: seq<Tensor>, count: nat, end: int)
    requires TensorsStand(data, at, ts, count, end) && 0 <= at
    ensures ts != [] ==>
      && ts[0].offset == at + 12 && ts[0].offset + Block(count, ts[0].rowBytes) <= |data|
      && ParseHeader(data, at) == Some((ts[0].kind, ts[0].rowBytes)) && Geometry(ts[0].kind, ts[0].rowBytes)
      && ts[0].rowBytes >= 0
  {
  }

  lemma ConsStands(data: seq<int>, at: int, t: TensorRows, rest: seq<TensorRows>, count: int)
    requires GoodTensor(t, count) && GoodTensors(rest, count)
    ensures GoodTensors([t] + rest, count)
    ensures Stands(data, at, TensorsBytes([t] + rest, count)) <==>
      Stands(data, at, TensorBytes(t)) && Stands(data, at + |TensorBytes(t)|, TensorsBytes(rest, count))
    ensures |TensorsBytes([t] + rest, count)| == |TensorBytes(t)| + |TensorsBytes(rest, count)|
  {
    hide Stands, Block, TensorBytes;
    TensorsCons(t, rest, count);
    StandsSplit(data, at, TensorBytes(t), TensorsBytes(rest, count));
  }

  lemma OneTensorStands(data: seq<int>, at: int, t: Tensor, count: nat)
    requires Octets(data)
    requires 0 <= at && ParseHeader(data, at) == Some((t.kind, t.rowBytes))
    requires t.offset == at + 12 && t.offset + Block(count, t.rowBytes) <= |data|
    ensures var first := TensorAt(data, t, count);
      GoodTensor(first, count) && Stands(data, at, TensorBytes(first)) && |TensorBytes(first)| == 12 + Block(count, t.rowBytes)
  {
    ReadsHeader(data, at, t.kind, t.rowBytes);
    StandsIsSlice(data, t.offset, TensorAt(data, t, count).bytes);
    StandsSplit(data, at, Header(t.kind, t.rowBytes), TensorAt(data, t, count).bytes);
  }

  /*------------------------------------------------------------------ the parser as a function */

  function Prepend<T>(xs: seq<T>, tail: Option<seq<T>>): Option<seq<T>> {
    if tail.Some? then Some(xs + tail.value) else None
  }

  function ParseCells(data: seq<int>, at: int, n: nat, limit: int): Option<seq<int>>
    requires 0 <= at
    decreases n
  {
    if n == 0 then Some([])
    else if at + 12 > |data| then None
    else
      var position, sequences, sequence := AsI32(data[at..at + 4]), AsU32(data[at + 4..at + 8]), AsI32(data[at + 8..at + 12]);
      if sequences != 1 || sequence != 0 || !(0 <= position < limit) then None
      else Prepend([position], ParseCells(data, at + 12, n - 1, limit))
  }

  function ParseInts(data: seq<int>, at: int, n: nat): Option<seq<int>>
    requires 0 <= at
    decreases n
  {
    if n == 0 then Some([])
    else if at + 4 > |data| || AsI32(data[at..at + 4]) < 0 then None
    else Prepend([AsI32(data[at..at + 4])], ParseInts(data, at + 4, n - 1))
  }

  function ParseTensors(data: seq<int>, at: int, k: nat, count: nat): Option<(seq<Tensor>, int)>
    requires 0 <= at
    decreases k
  {
    if k == 0 then Some(([], at))
    else match ParseHeader(data, at)
      case None => None
      case Some(header) =>
        var next := at + 12 + Block(count, header.1);
        if next > |data| then None
        else match ParseTensors(data, next, k - 1, count)
          case None => None
          case Some(rest) => Some(([Tensor(header.0, header.1, at + 12)] + rest.0, rest.1))
  }

  /** Two unsigned words. */
  function ParsePair(data: seq<int>, at: int): Option<(int, int)>
    requires 0 <= at
  {
    if at + 8 > |data| then None else Some((AsU32(data[at..at + 4]), AsU32(data[at + 4..at + 8])))
  }

  /** Stream count, cell count and cells. */
  function ParsePositions(data: seq<int>, start: int, tokenCount: int): Option<seq<int>>
    requires 0 <= start
  {
    match ParsePair(data, start)
    case None => None
    case Some(head) =>
      if head.0 != 1 || !(1 <= head.1 <= tokenCount) then None
      else match ParseCells(data, start + 8, head.1, tokenCount)
        case None => None
        case Some(positions) => if Distinct(positions) then Some(positions) else None
  }

  /** Layout flag, layer count and tensors. */
  function ParseLayers(data: seq<int>, at: int, count: nat): Option<(seq<Tensor>, int)>
    requires 0 <= at
  {
    match ParsePair(data, at)
    case None => None
    case Some(head) =>
      if head.0 != 0 || !(1 <= head.1 <= MAX_LAYERS) then None
      else ParseTensors(data, at + 8, 2 * head.1, count)
  }

  function ParseCache(data: seq<int>, start: int, tokenCount: int): Option<Cache>
    requires 0 <= start
  {
    match ParsePositions(data, start, tokenCount)
    case None => None
    case Some(positions) =>
      match ParseLayers(data, start + 8 + 12 * |positions|, |positions|)
      case None => None
      case Some(tensors) => Some(Cache(start, tensors.1, positions, |tensors.0| / 2, tensors.0))
  }

  lemma {:induction false} ParsedTensorsEnd(data: seq<int>, at: int, k: nat, count: nat)
    requires 0 <= at && ParseTensors(data, at, k, count).Some?
    ensures ParseTensors(data, at, k, count).value.1 >= at
    decreases k
  {
    if k > 0 {
      ParsedTensorsEnd(data, at + 12 + Block(count, ParseHeader(data, at).value.1), k - 1, count);
    }
  }

  lemma ParsedCacheEnds(data: seq<int>, start: int, tokenCount: int)
    requires 0 <= start && ParseCache(data, start, tokenCount).Some?
    ensures ParseCache(data, start, tokenCount).value.end >= 0
  {
    var c := ParseCache(data, start, tokenCount).value;
    var at := start + 8 + 12 * |c.positions|;
    ParsedTensorsEnd(data, at + 8, 2 * ParsePair(data, at).value.1, |c.positions|);
  }

  /** Magic, version and a bounded token count. */
  function ParseHead(data: seq<int>): Option<int> {
    if |data| < 12 || AsU32(data[0..4]) != MAGIC || AsU32(data[4..8]) != VERSION then None
    else if 1 <= AsU32(data[8..12]) <= MAX_TOKENS then Some(AsU32(data[8..12])) else None
  }

  predicate ArchitectureStands(data: seq<int>, at: int) {
    Stands(data, at, U32(6)) && Stands(data, at + 4, Architecture())
  }

  /** Head, tokens and architecture; the caches follow. */
  function ParsePreamble(data: seq<int>): Option<seq<int>> {
    match ParseHead(data)
    case None => None
    case Some(count) =>
      match ParseInts(data, 12, count)
      case None => None
      case Some(tokens) => if ArchitectureStands(data, 12 + 4 * count) then Some(tokens) else None
  }

  function CachesAt(tokenCount: int): int {
    22 + 4 * tokenCount
  }

  function ParseState(data: seq<int>): Option<State> {
    match ParsePreamble(data)
    case None => None
    case Some(tokens) =>
      match ParseCache(data, CachesAt(|tokens|), |tokens|)
      case None => None
      case Some(global) =>
        ParsedCacheEnds(data, CachesAt(|tokens|), |tokens|);
        match ParseCache(data, global.end, |tokens|)
        case None => None
        case Some(local) =>
          if local.end == |data| && PositionSet(global.positions) == Range(0, |tokens|)
          then Some(State(|data|, tokens, global, local)) else None
  }

  /*------------------------------------------------------------------ the parser accepts exactly what the writer writes */

  lemma ReadsU32(data: seq<int>, at: int, n: int)
    requires Octets(data)
    requires 0 <= at && at + 4 <= |data| && IsU32(n)
    ensures AsU32(data[at..at + 4]) == n <==> Stands(data, at, U32(n))
  {
    U32Exact(data[at..at + 4], n);
    StandsIsSlice(data, at, U32(n));
  }

  lemma ReadsU64(data: seq<int>, at: int, n: int)
    requires Octets(data)
    requires 0 <= at && at + 8 <= |data| && IsU64(n)
    ensures AsU64(data[at..at + 8]) == n <==> Stands(data, at, U64(n))
  {
    U64Exact(data[at..at + 8], n);
    StandsIsSlice(data, at, U64(n));
  }

  lemma ReadsI32(data: seq<int>, at: int, n: int)
    requires Octets(data)
    requires 0 <= at && at + 4 <= |data| && IsI32(n)
    ensures AsI32(data[at..at + 4]) == n <==> Stands(data, at, I32(n))
  {
    I32Exact(data[at..at + 4], n);
    StandsIsSlice(data, at, I32(n));
  }

  lemma ReadsCell(data: seq<int>, at: int, p: int)
    requires Octets(data)
    requires 0 <= at && IsI32(p)
    ensures Stands(data, at, Cell(p)) <==>
      && at + 12 <= |data|
      && AsI32(data[at..at + 4]) == p && AsU32(data[at + 4..at + 8]) == 1 && AsI32(data[at + 8..at + 12]) == 0
  {
    StandsSplit(data, at, I32(p), U32(1) + I32(0));
    StandsSplit(data, at + 4, U32(1), I32(0));
    if at + 12 <= |data| {
      ReadsI32(data, at, p);
      ReadsU32(data, at + 4, 1);
      ReadsI32(data, at + 8, 0);
    }
  }

  lemma CellsStand(data: seq<int>, at: int, p: int, rest: seq<int>)
    requires 0 <= p < MAX_TOKENS && InRange(rest, MAX_TOKENS)
    ensures Stands(data, at, Cells([p] + rest)) <==> Stands(data, at, Cell(p)) && Stands(data, at + 12, Cells(rest))
  {
    assert ([p] + rest)[1..] == rest;
    StandsSplit(data, at, Cell(p), Cells(rest));
  }

  lemma InRangeCons(ps: seq<int>, limit: int)
    requires ps != []
    ensures InRange(ps, limit) <==> 0 <= ps[0] < limit && InRange(ps[1..], limit)
  {
    assert forall i :: 0 < i < |ps| ==> ps[i] == ps[1..][i - 1];
  }

  lemma {:induction false} ParseCellsExact(data: seq<int>, at: int, n: nat, limit: int, ps: seq<int>)
    requires Octets(data)
    requires 0 <= at <= |data| && limit <= MAX_TOKENS
    ensures ParseCells(data, at, n, limit) == Some(ps) <==>
      |ps| == n && InRange(ps, limit) && Stands(data, at, Cells(ps))
    decreases n
  {
    if n > 0 && ps != [] && at + 12 <= |data| {
      ParseCell(data, at, n, limit);
      hide AsI32, AsU32, I32, U32, Cell, Stands, ParseCells, Octets;
      InRangeCons(ps, limit);
      var p, rest := ps[0], ps[1..];
      assert ps == [p] + rest;
      ParseCellsExact(data, at + 12, n - 1, limit, rest);
      if 0 <= p < limit && InRange(rest, limit) {
        CellsStand(data, at, p, rest);
        ReadsCell(data, at, p);
      }
      assert ParseCells(data, at, n, limit) == Some(ps) <==>
        |ps| == n && InRange(ps, limit) && Stands(data, at, Cells(ps));
    }
  }

  lemma ParseCell(data: seq<int>, at: int, n: nat, limit: int)
    requires 0 <= at && at + 12 <= |data| && n > 0
    ensures ParseCells(data, at, n, limit) ==
      if AsU32(data[at + 4..at + 8]) != 1 || AsI32(data[at + 8..at + 12]) != 0 || !(0 <= AsI32(data[at..at + 4]) < limit)
      then None else Prepend([AsI32(data[at..at + 4])], ParseCells(data, at + 12, n - 1, limit))
  {
  }

  lemma {:induction false} ParseIntsExact(data: seq<int>, at: int, n: nat, ns: seq<int>)
    requires Octets(data)
    requires 0 <= at <= |data|
    ensures ParseInts(data, at, n) == Some(ns) <==>
      |ns| == n && InRange(ns, 0x8000_0000) && Stands(data, at, Ints(ns))
    decreases n
  {
    hide *;
    if n == 0 || ns == [] || at + 4 > |data| {
      IntsBase(data, at, n, ns);
      return;
    }
    IntsUnfold(data, at, n, ns);
    WordIsOctets(data, at);
    I32Exact(data[at..at + 4], AsI32(data[at..at + 4]));
    InRangeCons(ns, 0x8000_0000);
    ParseIntsExact(data, at + 4, n - 1, ns[1..]);
    if 0 <= ns[0] < 0x8000_0000 {
      ReadsI32(data, at, ns[0]);
    }
    if InRange(ns, 0x8000_0000) {
      StandsSplit(data, at, I32(ns[0]), Ints(ns[1..]));
    }
  }

  lemma WordIsOctets(data: seq<int>, at: int)
    requires Octets(data) && 0 <= at && at + 4 <= |data|
    ensures Octets(data[at..at + 4])
  {
  }

  lemma IntsBase(data: seq<int>, at: int, n: nat, ns: seq<int>)
    requires 0 <= at <= |data| && (n == 0 || ns == [] || at + 4 > |data|)
    ensures ParseInts(data, at, n) == Some(ns) <==> |ns| == n && InRange(ns, 0x8000_0000) && Stands(data, at, Ints(ns))
  {
  }

  lemma IntsUnfold(data: seq<int>, at: int, n: nat, ns: seq<int>)
    requires 0 <= at && at + 4 <= |data| && n > 0 && ns != []
    ensures ParseInts(data, at, n) == Some(ns) <==>
      AsI32(data[at..at + 4]) == ns[0] >= 0 && ParseInts(data, at + 4, n - 1) == Some(ns[1..])
    ensures AsI32(data[at..at + 4]) < 0x8000_0000 || !Octets(data)
    ensures InRange(ns, 0x8000_0000) ==> InRange(ns[1..], 0x8000_0000) && Ints(ns) == I32(ns[0]) + Ints(ns[1..])
    ensures 0 <= ns[0] < 0x8000_0000 ==> IsI32(ns[0])
  {
    assert ns == [ns[0]] + ns[1..];
    if Octets(data) {
      I32Exact(data[at..at + 4], AsI32(data[at..at + 4]));
    }
  }

  lemma {:induction false} ParsedTensorsStand(data: seq<int>, at: int, k: nat, count: nat)
    requires 0 <= at <= |data| && ParseTensors(data, at, k, count).Some?
    ensures var r := ParseTensors(data, at, k, count).value;
      |r.0| == k && TensorsStand(data, at, r.0, count, r.1)
    decreases k
  {
    if k > 0 {
      var header := ParseHeader(data, at).value;
      var next := at + 12 + Block(count, header.1);
      ParsedTensorsStand(data, next, k - 1, count);
      var rest := ParseTensors(data, next, k - 1, count).value;
      var ts := [Tensor(header.0, header.1, at + 12)] + rest.0;
      assert ts[1..] == rest.0;
    }
  }

  lemma {:induction false} StandingTensorsParse(data: seq<int>, at: int, ts: seq<Tensor>, count: nat, end: int)
    requires 0 <= at <= |data| && TensorsStand(data, at, ts, count, end)
    ensures ParseTensors(data, at, |ts|, count) == Some((ts, end))
    decreases |ts|
  {
    if ts != [] {
      var t := ts[0];
      StandingTensorsParse(data, at + 12 + Block(count, t.rowBytes), ts[1..], count, end);
      assert ts == [Tensor(t.kind, t.rowBytes, at + 12)] + ts[1..];
    }
  }

  /*------------------------------------------------------------------ one cache */

  lemma ReadsPair(data: seq<int>, at: int, a: int, b: int)
    requires Octets(data)
    requires 0 <= at
    ensures ParsePair(data, at) == Some((a, b)) <==> IsU32(a) && IsU32(b) && Stands(data, at, U32(a) + U32(b))
  {
    if at + 8 <= |data| {
      U32Exact(data[at..at + 4], a);
      U32Exact(data[at + 4..at + 8], b);
      if IsU32(a) && IsU32(b) {
        StandsIsSlice(data, at, U32(a));
        StandsIsSlice(data, at + 4, U32(b));
        StandsSplit(data, at, U32(a), U32(b));
      }
    }
  }

  ghost predicate PositionsStand(data: seq<int>, start: int, ps: seq<int>, tokenCount: int) {
    && 1 <= |ps| <= tokenCount <= MAX_TOKENS && InRange(ps, tokenCount) && Distinct(ps)
    && Stands(data, start, U32(1) + U32(|ps|))
    && Stands(data, start + 8, Cells(ps))
  }

  ghost predicate LayersStand(data: seq<int>, at: int, ts: seq<Tensor>, count: nat, end: int) {
    && |ts| % 2 == 0 && 1 <= |ts| / 2 <= MAX_LAYERS
    && Stands(data, at, U32(0) + U32(|ts| / 2))
    && TensorsStand(data, at + 8, ts, count, end)
  }

  lemma PositionsExact(data: seq<int>, start: int, tokenCount: int, ps: seq<int>)
    requires Octets(data)
    requires 0 <= start && tokenCount <= MAX_TOKENS
    ensures ParsePositions(data, start, tokenCount) == Some(ps) <==> PositionsStand(data, start, ps, tokenCount)
  {
    ReadsPair(data, start, 1, |ps|);
    if start + 8 <= |data| {
      var head := ParsePair(data, start).value;
      ReadsPair(data, start, head.0, head.1);
      ParseCellsExact(data, start + 8, head.1, tokenCount, ps);
    }
  }

  lemma ParsedLayersStand(data: seq<int>, at: int, count: nat)
    requires Octets(data)
    requires 0 <= at && ParseLayers(data, at, count).Some?
    ensures var r := ParseLayers(data, at, count).value; LayersStand(data, at, r.0, count, r.1)
  {
    hide Stands, TensorsStand, ParseTensors, Octets, AsU32;
    var head := ParsePair(data, at).value;
    ReadsPair(data, at, head.0, head.1);
    ParsedTensorsStand(data, at + 8, 2 * head.1, count);
  }

  lemma StandingLayersParse(data: seq<int>, at: int, ts: seq<Tensor>, count: nat, end: int)
    requires Octets(data)
    requires 0 <= at && LayersStand(data, at, ts, count, end)
    ensures ParseLayers(data, at, count) == Some((ts, end))
  {
    hide Stands, TensorsStand, ParseTensors, Octets, AsU32;
    StandsBound(data, at, U32(0) + U32(|ts| / 2));
    ReadsPair(data, at, 0, |ts| / 2);
    StandingTensorsParse(data, at + 8, ts, count, end);
    assert 2 * (|ts| / 2) == |ts|;
  }

  /** `c` locates a well-formed cache section of `data`. */
  ghost predicate Locates(data: seq<int>, c: Cache, tokenCount: int) {
    && 0 <= c.start && c.layers == |c.tensors| / 2
    && PositionsStand(data, c.start, c.positions, tokenCount)
    && LayersStand(data, c.start + 8 + 12 * |c.positions|, c.tensors, |c.positions|, c.end)
  }

  lemma ParsedCacheLocates(data: seq<int>, start: int, tokenCount: int)
    requires Octets(data)
    requires 0 <= start && tokenCount <= MAX_TOKENS && ParseCache(data, start, tokenCount).Some?
    ensures var c := ParseCache(data, start, tokenCount).value; c.start == start && Locates(data, c, tokenCount)
  {
    hide ParsePositions, ParseLayers, PositionsStand, LayersStand;
    var c := ParseCache(data, start, tokenCount).value;
    PositionsExact(data, start, tokenCount, c.positions);
    ParsedLayersStand(data, start + 8 + 12 * |c.positions|, |c.positions|);
  }

  lemma LocatedCacheParses(data: seq<int>, c: Cache, tokenCount: int)
    requires Octets(data)
    requires Locates(data, c, tokenCount)
    ensures ParseCache(data, c.start, tokenCount) == Some(c)
  {
    hide ParsePositions, ParseLayers, Stands, TensorsStand;
    PositionsExact(data, c.start, tokenCount, c.positions);
    StandingLayersParse(data, c.start + 8 + 12 * |c.positions|, c.tensors, |c.positions|, c.end);
  }

  function TensorsAt(c: Cache): int {
    c.start + 16 + 12 * |c.positions|
  }

  /** The rows a located cache section holds. */
  ghost function RowsOf(data: seq<int>, c: Cache, tokenCount: int): CacheRows
    requires Locates(data, c, tokenCount)
  {
    CacheRows(c.positions, TensorContents(data, TensorsAt(c), c.tensors, |c.positions|, c.end))
  }

  function CacheHead(c: CacheRows, tokenCount: int): seq<int>
    requires GoodCache(c, tokenCount)
  {
    U32(1) + U32(|c.positions|)
  }

  function CacheLayout(c: CacheRows, tokenCount: int): seq<int>
    requires GoodCache(c, tokenCount)
  {
    U32(0) + U32(|c.tensors| / 2)
  }

  /** The four parts of an encoded cache, each at its offset. */
  lemma CacheParts(data: seq<int>, at: int, c: CacheRows, tokenCount: int)
    requires GoodCache(c, tokenCount)
    ensures Stands(data, at, EncodeCache(c, tokenCount)) <==>
      && Stands(data, at, CacheHead(c, tokenCount))
      && Stands(data, at + 8, Cells(c.positions))
      && Stands(data, at + 8 + 12 * |c.positions|, CacheLayout(c, tokenCount))
      && Stands(data, at + 16 + 12 * |c.positions|, TensorsBytes(c.tensors, |c.positions|))
    ensures |EncodeCache(c, tokenCount)| == 16 + 12 * |c.positions| + |TensorsBytes(c.tensors, |c.positions|)|
  {
    var head, cells := CacheHead(c, tokenCount), Cells(c.positions);
    var layout, tensors := CacheLayout(c, tokenCount), TensorsBytes(c.tensors, |c.positions|);
    hide Stands, Cells, TensorsBytes, U32;
    FourParts(data, at, head, cells, layout, tensors);
    assert EncodeCache(c, tokenCount) == head + (cells + (layout + tensors));
  }

  lemma FourParts(data: seq<int>, at: int, a: seq<int>, b: seq<int>, c: seq<int>, d: seq<int>)
    ensures Stands(data, at, a + (b + (c + d))) <==>
      && Stands(data, at, a) && Stands(data, at + |a|, b)
      && Stands(data, at + |a| + |b|, c) && Stands(data, at + |a| + |b| + |c|, d)
  {
    StandsSplit(data, at, a, b + (c + d));
    StandsSplit(data, at + |a|, b, c + d);
    StandsSplit(data, at + |a| + |b|, c, d);
  }

  lemma LocatedCacheIsGood(data: seq<int>, c: Cache, tokenCount: int)
    requires Locates(data, c, tokenCount)
    ensures GoodCache(RowsOf(data, c, tokenCount), tokenCount)
  {
    TensorContentsGood(data, TensorsAt(c), c.tensors, |c.positions|, c.end);
  }

  lemma LocatedCacheStands(data: seq<int>, c: Cache, tokenCount: int)
    requires Octets(data)
    requires Locates(data, c, tokenCount) && GoodCache(RowsOf(data, c, tokenCount), tokenCount)
    ensures var bytes := EncodeCache(RowsOf(data, c, tokenCount), tokenCount);
      Stands(data, c.start, bytes) && c.end == c.start + |bytes|
  {
    hide Stands, TensorsStand, TensorContents, EncodeCache, TensorsBytes, Cells;
    TensorContentsGood(data, TensorsAt(c), c.tensors, |c.positions|, c.end);
    TensorContentsStand(data, TensorsAt(c), c.tensors, |c.positions|, c.end);
    PartsMakeCache(data, c.start, RowsOf(data, c, tokenCount), tokenCount, c.end);
  }

  lemma PartsMakeCache(data: seq<int>, at: int, c: CacheRows, tokenCount: int, end: int)
    requires GoodCache(c, tokenCount)
    requires Stands(data, at, U32(1) + U32(|c.positions|))
    requires Stands(data, at + 8, Cells(c.positions))
    requires Stands(data, at + 8 + 12 * |c.positions|, U32(0) + U32(|c.tensors| / 2))
    requires Stands(data, at + 16 + 12 * |c.positions|, TensorsBytes(c.tensors, |c.positions|))
    requires end == at + 16 + 12 * |c.positions| + |TensorsBytes(c.tensors, |c.positions|)|
    ensures Stands(data, at, EncodeCache(c, tokenCount)) && end == at + |EncodeCache(c, tokenCount)|
  {
    CacheParts(data, at, c, tokenCount);
  }

  /** Where the writer puts the tensors of `rows`. */
  function LayOut(at: int, rows: seq<TensorRows>, count: nat): (ts: seq<Tensor>)
    requires GoodTensors(rows, count)
    ensures |ts| == |rows|
    decreases rows
  {
    if rows == [] then []
    else [Tensor(rows[0].kind, rows[0].rowBytes, at + 12)]
         + LayOut(at + 12 + Block(count, rows[0].rowBytes), rows[1..], count)
  }

  function LayOutEnd(at: int, rows: seq<TensorRows>, count: nat): int
    requires GoodTensors(rows, count)
    decreases rows
  {
    if rows == [] then at else LayOutEnd(at + 12 + Block(count, rows[0].rowBytes), rows[1..], count)
  }

  lemma {:induction false} WrittenTensorsStand(data: seq<int>, at: int, rows: seq<TensorRows>, count: nat)
    requires Octets(data)
    requires 0 <= at && GoodTensors(rows, count) && Stands(data, at, TensorsBytes(rows, count))
    ensures TensorsStand(data, at, LayOut(at, rows, count), count, LayOutEnd(at, rows, count))
    decreases |rows|
  {
    hide *;
    StandsBound(data, at, TensorsBytes(rows, count));
    if rows == [] {
      NoTensors(data, at, rows, count);
    } else {
      RowsSplit(rows, count);
      LayOutUnfold(at, rows, count);
      WrittenTensorsSplit(data, at, rows, count);
      var next := at + 12 + Block(count, rows[0].rowBytes);
      WrittenTensorsStand(data, next, rows[1..], count);
      ConsTensors(data, at, rows[0].kind, rows[0].rowBytes, LayOut(next, rows[1..], count),
                  count, LayOutEnd(next, rows[1..], count));
    }
  }

  lemma NoTensors(data: seq<int>, at: int, rows: seq<TensorRows>, count: nat)
    requires 0 <= at <= |data| && rows == []
    ensures TensorsStand(data, at, LayOut(at, rows, count), count, LayOutEnd(at, rows, count))
    ensures TensorContents(data, at, LayOut(at, rows, count), count, LayOutEnd(at, rows, count)) == rows
  {
  }

  /** Reading back written tensors finds the same rows. */
  lemma {:induction false} WrittenTensorsReadBack(data: seq<int>, at: int, rows: seq<TensorRows>, count: nat)
    requires Octets(data)
    requires 0 <= at && GoodTensors(rows, count) && Stands(data, at, TensorsBytes(rows, count))
    requires TensorsStand(data, at, LayOut(at, rows, count), count, LayOutEnd(at, rows, count))
    ensures TensorContents(data, at, LayOut(at, rows, count), count, LayOutEnd(at, rows, count)) == rows
    decreases |rows|
  {
    hide *;
    StandsBound(data, at, TensorsBytes(rows, count));
    if rows == [] {
      NoTensors(data, at, rows, count);
    } else {
      RowsSplit(rows, count);
      var next := at + 12 + Block(count, rows[0].rowBytes);
      LayOutUnfold(at, rows, count);
      ContentsUnfold(data, at, LayOut(at, rows, count), count, LayOutEnd(at, rows, count));
      WrittenTensorsSplit(data, at, rows, count);
      WrittenTensorsReadBack(data, next, rows[1..], count);
    }
  }

  lemma RowsSplit(rows: seq<TensorRows>, count: nat)
    requires rows != [] && GoodTensors(rows, count)
    ensures GoodTensor(rows[0], count) && GoodTensors(rows[1..], count) && Geometry(rows[0].kind, rows[0].rowBytes)
    ensures rows[0].rowBytes >= 0 && rows == [rows[0]] + rows[1..]
    ensures TensorsBytes(rows, count) == TensorBytes(rows[0]) + TensorsBytes(rows[1..], count)
  {
  }

  lemma LayOutUnfold(at: int, rows: seq<TensorRows>, count: nat)
    requires rows != [] && GoodTensors(rows, count)
    ensures LayOut(at, rows, count)[0] == Tensor(rows[0].kind, rows[0].rowBytes, at + 12)
    ensures LayOut(at, rows, count) == [LayOut(at, rows, count)[0]] + LayOut(at, rows, count)[1..]
    ensures LayOut(at, rows, count)[1..] == LayOut(at + 12 + Block(count, rows[0].rowBytes), rows[1..], count)
    ensures LayOutEnd(at, rows, count) == LayOutEnd(at + 12 + Block(count, rows[0].rowBytes), rows[1..], count)
  {
  }

  lemma ContentsUnfold(data: seq<int>, at: int, ts: seq<Tensor>, count: nat, end: int)
    requires ts != [] && TensorsStand(data, at, ts, count, end)
    ensures TensorsStand(data, ts[0].offset + Block(count, ts[0].rowBytes), ts[1..], count, end)
    ensures TensorContents(data, at, ts, count, end)
         == [TensorAt(data, ts[0], count)]
            + TensorContents(data, ts[0].offset + Block(count, ts[0].rowBytes), ts[1..], count, end)
  {
  }

  lemma WrittenTensorsSplit(data: seq<int>, at: int, rows: seq<TensorRows>, count: nat)
    requires Octets(data)
    requires 0 <= at && rows != [] && GoodTensors(rows, count) && Stands(data, at, TensorsBytes(rows, count))
    ensures var next := at + 12 + Block(count, rows[0].rowBytes);
      && ParseHeader(data, at) == Some((rows[0].kind, rows[0].rowBytes))
      && next <= |data| && TensorAt(data, Tensor(rows[0].kind, rows[0].rowBytes, at + 12), count) == rows[0]
      && Stands(data, next, TensorsBytes(rows[1..], count))
  {
    hide *;
    RowsSplit(rows, count);
    SplitWritten(data, at, rows[0], TensorsBytes(rows[1..], count), count);
  }

  lemma SplitWritten(data: seq<int>, at: int, first: TensorRows, rest: seq<int>, count: nat)
    requires Octets(data)
    requires 0 <= at && GoodTensor(first, count) && Stands(data, at, TensorBytes(first) + rest)
    ensures var next := at + 12 + Block(count, first.rowBytes);
      && ParseHeader(data, at) == Some((first.kind, first.rowBytes))
      && next <= |data| && TensorAt(data, Tensor(first.kind, first.rowBytes, at + 12), count) == first
      && Stands(data, next, rest)
  {
    hide Stands, TensorBytes, ParseHeader, TensorAt, Block, Octets;
    assert Geometry(first.kind, first.rowBytes);
    StandsSplit(data, at, TensorBytes(first), rest);
    OneWrittenTensor(data, at, first, count);
  }

  lemma ConsTensors(data: seq<int>, at: int, kind: int, rowBytes: int, tail: seq<Tensor>, count: nat, end: int)
    requires 0 <= at && ParseHeader(data, at) == Some((kind, rowBytes))
    requires at + 12 + Block(count, rowBytes) <= |data|
    requires TensorsStand(data, at + 12 + Block(count, rowBytes), tail, count, end)
    ensures TensorsStand(data, at, [Tensor(kind, rowBytes, at + 12)] + tail, count, end)
  {
    assert ([Tensor(kind, rowBytes, at + 12)] + tail)[1..] == tail;
  }

  lemma OneWrittenTensor(data: seq<int>, at: int, t: TensorRows, count: nat)
    requires Octets(data)
    requires 0 <= at && GoodTensor(t, count) && Stands(data, at, TensorBytes(t))
    ensures ParseHeader(data, at) == Some((t.kind, t.rowBytes))
    ensures |TensorBytes(t)| == 12 + Block(count, t.rowBytes)
    ensures at + 12 + Block(count, t.rowBytes) <= |data|
    ensures TensorAt(data, Tensor(t.kind, t.rowBytes, at + 12), count) == t
  {
    StandsSplit(data, at, Header(t.kind, t.rowBytes), t.bytes);
    StandsIsSlice(data, at + 12, t.bytes);
    ReadsHeader(data, at, t.kind, t.rowBytes);
  }

  lemma WrittenPositionsStand(data: seq<int>, at: int, rows: CacheRows, tokenCount: int)
    requires GoodCache(rows, tokenCount) && Stands(data, at, EncodeCache(rows, tokenCount))
    ensures PositionsStand(data, at, rows.positions, tokenCount)
  {
    CacheParts(data, at, rows, tokenCount);
  }

  lemma WrittenLayersStand(data: seq<int>, at: int, rows: CacheRows, tokenCount: int)
    requires Octets(data)
    requires 0 <= at && GoodCache(rows, tokenCount) && Stands(data, at, EncodeCache(rows, tokenCount))
    ensures var c := CacheFor(at, rows, tokenCount); LayersStand(data, TensorsAt(c) - 8, c.tensors, |rows.positions|, c.end)
  {
    hide Stands, TensorsStand, EncodeCache, TensorsBytes, Cells;
    CacheParts(data, at, rows, tokenCount);
    WrittenTensorsStand(data, at + 16 + 12 * |rows.positions|, rows.tensors, |rows.positions|);
  }

  /** The section description of a cache written at `at`. */
  function CacheFor(at: int, rows: CacheRows, tokenCount: int): Cache
    requires GoodCache(rows, tokenCount)
  {
    var n, first := |rows.positions|, at + 16 + 12 * |rows.positions|;
    Cache(at, LayOutEnd(first, rows.tensors, n), rows.positions, |rows.tensors| / 2, LayOut(first, rows.tensors, n))
  }

  lemma WrittenCacheLocates(data: seq<int>, at: int, rows: CacheRows, tokenCount: int)
    requires Octets(data)
    requires 0 <= at && GoodCache(rows, tokenCount) && Stands(data, at, EncodeCache(rows, tokenCount))
    ensures Locates(data, CacheFor(at, rows, tokenCount), tokenCount)
  {
    hide Stands, TensorsStand, EncodeCache, PositionsStand;
    WrittenPositionsStand(data, at, rows, tokenCount);
    WrittenLayersStand(data, at, rows, tokenCount);
  }

  lemma WrittenCacheReadsBack(data: seq<int>, at: int, rows: CacheRows, tokenCount: int)
    requires Octets(data)
    requires 0 <= at && GoodCache(rows, tokenCount) && Stands(data, at, EncodeCache(rows, tokenCount))
    requires Locates(data, CacheFor(at, rows, tokenCount), tokenCount)
    ensures RowsOf(data, CacheFor(at, rows, tokenCount), tokenCount) == rows
  {
    hide Stands, Octets, Locates, CacheFor, RowsOf, LayOut, LayOutEnd, TensorContents, TensorsStand, InRange, Distinct, GoodTensors, EncodeCache, TensorsBytes;
    var first := at + 16 + 12 * |rows.positions|;
    CacheParts(data, at, rows, tokenCount);
    LocatedUnfold(data, CacheFor(at, rows, tokenCount), tokenCount);
    CacheForUnfold(at, rows, tokenCount);
    WrittenTensorsReadBack(data, first, rows.tensors, |rows.positions|);
  }

  lemma LocatedUnfold(data: seq<int>, c: Cache, tokenCount: int)
    requires Locates(data, c, tokenCount)
    ensures TensorsStand(data, TensorsAt(c), c.tensors, |c.positions|, c.end)
    ensures RowsOf(data, c, tokenCount) == CacheRows(c.positions, TensorContents(data, TensorsAt(c), c.tensors, |c.positions|, c.end))
  {
    hide TensorsStand, TensorContents, Stands, PositionsStand;
  }

  lemma CacheForUnfold(at: int, rows: CacheRows, tokenCount: int)
    requires GoodCache(rows, tokenCount)
    ensures GoodTensors(rows.tensors, |rows.positions|)
    ensures var first, n, c := at + 16 + 12 * |rows.positions|, |rows.positions|, CacheFor(at, rows, tokenCount);
      && TensorsAt(c) == first && c.positions == rows.positions
      && c.tensors == LayOut(first, rows.tensors, n) && c.end == LayOutEnd(first, rows.tensors, n)
  {
    hide LayOut, LayOutEnd, GoodTensors;
  }

  /*------------------------------------------------------------------ whole files */

  predicate GoodTokens(tokens: seq<int>) {
    1 <= |tokens| <= MAX_TOKENS && InRange(tokens, 0x8000_0000)
  }

  predicate HeadStands(data: seq<int>, count: int) {
    && 1 <= count <= MAX_TOKENS
    && Stands(data, 0, U32(MAGIC)) && Stands(data, 4, U32(VERSION)) && Stands(data, 8, U32(count))
  }

  lemma HeadExact(data: seq<int>, count: int)
    requires Octets(data)
    ensures ParseHead(data) == Some(count) <==> HeadStands(data, count)
  {
    if |data| >= 12 && 1 <= count <= MAX_TOKENS {
      hide Stands, AsU32, U32;
      ReadsU32(data, 0, MAGIC);
      ReadsU32(data, 4, VERSION);
      ReadsU32(data, 8, count);
    }
  }

  lemma PreambleParts(data: seq<int>, tokens: seq<int>)
    requires GoodTokens(tokens)
    ensures |Preamble(tokens)| == CachesAt(|tokens|)
    ensures Stands(data, 0, Preamble(tokens)) <==>
      && HeadStands(data, |tokens|) && Stands(data, 12, Ints(tokens)) && ArchitectureStands(data, 12 + 4 * |tokens|)
  {
    hide Stands, U32, Ints;
    var head, tail := U32(MAGIC) + (U32(VERSION) + U32(|tokens|)), Ints(tokens) + (U32(6) + Architecture());
    StandsSplit(data, 0, head, tail);
    StandsSplit(data, 0, U32(MAGIC), U32(VERSION) + U32(|tokens|));
    StandsSplit(data, 4, U32(VERSION), U32(|tokens|));
    StandsSplit(data, 12, Ints(tokens), U32(6) + Architecture());
    StandsSplit(data, 12 + 4 * |tokens|, U32(6), Architecture());
  }

  lemma PreambleExact(data: seq<int>, tokens: seq<int>)
    requires Octets(data)
    ensures ParsePreamble(data) == Some(tokens) <==> GoodTokens(tokens) && Stands(data, 0, Preamble(tokens))
  {
    HeadExact(data, |tokens|);
    if ParseHead(data).Some? {
      HeadExact(data, ParseHead(data).value);
      assert 12 <= |data|;
    }
    hide ParseHead, HeadStands, ParseInts, ArchitectureStands, Stands, Preamble;
    if ParseHead(data).Some? {
      ParseIntsExact(data, 12, ParseHead(data).value, tokens);
    }
    if GoodTokens(tokens) { PreambleParts(data, tokens); }
  }

  ghost predicate LocatesAll(data: seq<int>, st: State) {
    && st.size == |data| && GoodTokens(st.tokens)
    && Stands(data, 0, Preamble(st.tokens))
    && st.global.start == CachesAt(|st.tokens|) && Locates(data, st.global, |st.tokens|)
    && st.local.start == st.global.end && Locates(data, st.local, |st.tokens|)
    && st.local.end == |data|
    && PositionSet(st.global.positions) == Range(0, |st.tokens|)
  }

  /** The content a parsed file describes. */
  ghost function SessionOf(data: seq<int>, st: State): Session
    requires LocatesAll(data, st)
  {
    Session(st.tokens, RowsOf(data, st.global, |st.tokens|), RowsOf(data, st.local, |st.tokens|))
  }

  lemma ParsedStateLocates(data: seq<int>)
    requires Octets(data)
    requires ParseState(data).Some?
    ensures LocatesAll(data, ParseState(data).value)
  {
    var st := ParseState(data).value;
    PreambleExact(data, st.tokens);
    hide ParsePreamble, ParseCache, Locates, Stands, Preamble;
    ParsedCacheLocates(data, CachesAt(|st.tokens|), |st.tokens|);
    ParsedCacheEnds(data, CachesAt(|st.tokens|), |st.tokens|);
    ParsedCacheLocates(data, st.global.end, |st.tokens|);
  }

  lemma LocatedStateParses(data: seq<int>, st: State)
    requires Octets(data)
    requires LocatesAll(data, st)
    ensures ParseState(data) == Some(st)
  {
    assert st.local.start >= 0;
    hide ParsePreamble, ParseCache, Locates, Stands, Preamble;
    PreambleExact(data, st.tokens);
    LocatedCacheParses(data, st.global, |st.tokens|);
    LocatedCacheParses(data, st.local, |st.tokens|);
  }

  lemma EncodeParts(data: seq<int>, s: Session)
    requires GoodSession(s)
    ensures var n, g := |s.tokens|, EncodeCache(s.global, |s.tokens|);
      && |Encode(s)| == CachesAt(n) + |g| + |EncodeCache(s.local, n)|
      && (Stands(data, 0, Encode(s)) <==>
          && Stands(data, 0, Preamble(s.tokens))
          && Stands(data, CachesAt(n), g)
          && Stands(data, CachesAt(n) + |g|, EncodeCache(s.local, n)))
  {
    hide Stands, Preamble, EncodeCache;
    var n, g, l := |s.tokens|, EncodeCache(s.global, |s.tokens|), EncodeCache(s.local, |s.tokens|);
    PreambleParts(data, s.tokens);
    StandsSplit(data, 0, Preamble(s.tokens), g + l);
    StandsSplit(data, CachesAt(n), g, l);
  }

  lemma LocatedStateIsGood(data: seq<int>, st: State)
    requires LocatesAll(data, st)
    ensures GoodSession(SessionOf(data, st))
  {
    hide Stands, Preamble, Locates;
    LocatedCacheIsGood(data, st.global, |st.tokens|);
    LocatedCacheIsGood(data, st.local, |st.tokens|);
  }

  /** The parser is sound: an accepted file is exactly the encoding of the content it describes. */
  lemma AcceptedMeansEncoded(data: seq<int>)
    requires Octets(data)
    requires ParseState(data).Some?
    ensures LocatesAll(data, ParseState(data).value)
    ensures var s := SessionOf(data, ParseState(data).value); GoodSession(s) && Encode(s) == data
  {
    var st := ParseState(data).value;
    ParsedStateLocates(data);
    LocatedStateIsGood(data, st);
    var s := SessionOf(data, st);
    assert Stands(data, 0, Encode(s)) && |Encode(s)| == |data| by {
      hide Stands, Preamble, EncodeCache, Encode, Locates;
      LocatedCacheIsGood(data, st.global, |st.tokens|);
      LocatedCacheIsGood(data, st.local, |st.tokens|);
      LocatedCacheStands(data, st.global, |st.tokens|);
      LocatedCacheStands(data, st.local, |st.tokens|);
      EncodeParts(data, s);
    }
    StandsIsSlice(data, 0, Encode(s));
  }

  /** Where the writer puts the parts of `s`. */
  function StateFor(s: Session): State
    requires GoodSession(s)
  {
    var n := |s.tokens|;
    var g := CacheFor(CachesAt(n), s.global, n);
    State(|Encode(s)|, s.tokens, g, CacheFor(g.end, s.local, n))
  }

  lemma {:induction false} LayOutEndIsLength(at: int, rows: seq<TensorRows>, count: nat)
    requires GoodTensors(rows, count)
    ensures LayOutEnd(at, rows, count) == at + |TensorsBytes(rows, count)|
    decreases |rows|
  {
    if rows != [] {
      LayOutEndIsLength(at + 12 + Block(count, rows[0].rowBytes), rows[1..], count);
    }
  }

  lemma CacheForEnd(at: int, rows: CacheRows, tokenCount: int)
    requires GoodCache(rows, tokenCount)
    ensures CacheFor(at, rows, tokenCount).end == at + |EncodeCache(rows, tokenCount)|
  {
    LayOutEndIsLength(at + 16 + 12 * |rows.positions|, rows.tensors, |rows.positions|);
    CacheParts([], 0, rows, tokenCount);
  }

  /** The parser is complete: whatever the writer writes is accepted and read back unchanged. */
  lemma EncodedIsAccepted(s: Session)
    requires GoodSession(s) && Octets(Encode(s))
    ensures ParseState(Encode(s)) == Some(StateFor(s))
    ensures LocatesAll(Encode(s), StateFor(s)) && SessionOf(Encode(s), StateFor(s)) == s
  {
    var data, n, st := Encode(s), |s.tokens|, StateFor(s);
    assert Stands(data, 0, data);
    assert GoodTokens(s.tokens);
    hide Stands, Preamble, EncodeCache, Encode, Locates, CacheFor, RowsOf, ParseState, Octets, GoodCache, GoodTokens, InRange;
    EncodeParts(data, s);
    CacheForEnd(CachesAt(n), s.global, n);
    CacheForEnd(st.global.end, s.local, n);
    WrittenCacheLocates(data, CachesAt(n), s.global, n);
    WrittenCacheReadsBack(data, CachesAt(n), s.global, n);
    WrittenCacheLocates(data, st.global.end, s.local, n);
    WrittenCacheReadsBack(data, st.global.end, s.local, n);
    CacheForFields(CachesAt(n), s.global, n);
    CacheForFields(st.global.end, s.local, n);
    LocatedStateParses(data, st);
  }

  lemma CacheForFields(at: int, rows: CacheRows, tokenCount: int)
    requires GoodCache(rows, tokenCount)
    ensures var c := CacheFor(at, rows, tokenCount); c.start == at && c.positions == rows.positions
  {
  }

  /** Distinct contents have distinct files. */
  lemma EncodeInjective(a: Session, b: Session)
    requires GoodSession(a) && GoodSession(b) && Encode(a) == Encode(b) && Octets(Encode(a))
    ensures a == b
  {
    EncodedIsAccepted(a);
    EncodedIsAccepted(b);
  }
}
