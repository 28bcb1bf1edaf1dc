/** The windowed compactor and its independent verifier, over bytes (dmn/native_cache.py:127-213). */
module CacheCompactor {
  import opened Wrappers
  import opened Bytes
  import opened SessionFormat
  import opened NativeCache
  import opened Compaction
  import opened CacheFiles

  /*------------------------------------------------------------------ where the source keeps its rows */

  lemma {:induction false} ContentAt(data: seq<int>, at: int, ts: seq<Tensor>, count: nat, end: int, k: int)
    requires 0 <= at && TensorsStand(data, at, ts, count, end) && 0 <= k < |ts|
    ensures Geometry(ts[k].kind, ts[k].rowBytes) && InFile(data, ts[k], count)
    ensures |TensorContents(data, at, ts, count, end)| == |ts|
    ensures TensorContents(data, at, ts, count, end)[k] == TensorAt(data, ts[k], count)
    decreases |ts|
  {
    TensorContentsGood(data, at, ts, count, end);
    if k > 0 {
      ContentAt(data, ts[0].offset + Block(count, ts[0].rowBytes), ts[1..], count, end, k - 1);
    }
  }

  lemma LocalRows(data: seq<int>, st: State, k: int)
    requires LocatesAll(data, st) && 0 <= k < |st.local.tensors|
    ensures var t, count, rows := st.local.tensors[k], |st.local.positions|, SessionOf(data, st).local;
      && Geometry(t.kind, t.rowBytes) && InFile(data, t, count)
      && rows.positions == st.local.positions && |rows.tensors| == |st.local.tensors|
      && rows.tensors[k] == TensorAt(data, t, count)
  {
    hide Stands, Preamble, TensorsStand, TensorContents, PositionsStand;
    assert Locates(data, st.local, |st.tokens|);
    ContentAt(data, TensorsAt(st.local), st.local.tensors, |st.local.positions|, st.local.end, k);
  }

  /** Everything before the local section, and the file of any session that differs only in its local cache. */
  lemma SharedPrefix(data: seq<int>, st: State, other: Session)
    requires Octets(data) && ParseState(data) == Some(st) && LocatesAll(data, st)
    requires GoodSession(other) && other.tokens == st.tokens && other.global == SessionOf(data, st).global
    ensures 0 <= st.local.start <= |data|
    ensures Encode(other) == data[..st.local.start] + EncodeCache(other.local, |st.tokens|)
  {
    AcceptedMeansEncoded(data);
    var s, n := SessionOf(data, st), |st.tokens|;
    EncodedIsAccepted(s);
    CacheForEnd(CachesAt(n), s.global, n);
    PreambleParts([], st.tokens);
    CacheForFields(StateFor(s).global.end, s.local, n);
    hide *;
    EncodeUnfold(s);
    EncodeUnfold(other);
    StateForUnfold(s);
    PrefixOf(Preamble(st.tokens), EncodeCache(s.global, n), EncodeCache(s.local, n), data, st.local.start);
    ConcatAssoc(Preamble(st.tokens), EncodeCache(s.global, n), EncodeCache(other.local, n));
  }

  lemma EncodeUnfold(s: Session)
    requires GoodSession(s)
    ensures GoodTokens(s.tokens) && GoodCache(s.global, |s.tokens|) && GoodCache(s.local, |s.tokens|)
    ensures Encode(s) == Preamble(s.tokens) + (EncodeCache(s.global, |s.tokens|) + EncodeCache(s.local, |s.tokens|))
  {
  }

  lemma StateForUnfold(s: Session)
    requires GoodSession(s)
    ensures StateFor(s).local.start == CachesAt(|s.tokens|) + |EncodeCache(s.global, |s.tokens|)|
    ensures StateFor(s).tokens == s.tokens
  {
    hide EncodeCache, LayOut, LayOutEnd, Encode;
    CacheForEnd(CachesAt(|s.tokens|), s.global, |s.tokens|);
  }

  lemma PrefixOf(a: seq<int>, b: seq<int>, c: seq<int>, data: seq<int>, n: int)
    requires data == a + (b + c) && n == |a| + |b|
    ensures 0 <= n <= |data| && data[..n] == a + b
  {
  }

  /*------------------------------------------------------------------ writing */

  lemma WordOctets(n: int)
    ensures IsU32(n) ==> Octets(U32(n))
    ensures IsI32(n) ==> Octets(I32(n))
    ensures IsU64(n) ==> Octets(U64(n))
  {
    if IsU32(n) { LeOctets(n, 4); }
    if IsI32(n) { LeOctets(if n < 0 then n + 0x1_0000_0000 else n, 4); }
    if IsU64(n) { LeOctets(n, 8); }
  }

  /** Writes the header and the kept rows of one tensor. */
  method WriteTensor(source: Reader, target: Writer, t: Tensor, count: nat, idx: seq<int>)
    requires source.Valid() && target.Valid()
    requires Geometry(t.kind, t.rowBytes) && InFile(source.data, t, count) && Indexes(idx, count)
    modifies source`at, target
    ensures source.Valid() && target.Valid()
    ensures target.written == old(target.written) + TensorBytes(CompactTensor(TensorAt(source.data, t, count), count, idx))
  {
    ghost var before := target.written;
    WordOctets(t.kind);
    WordOctets(t.rowBytes);
    target.Write(Header(t.kind, t.rowBytes));
    var runs := Coalesce(idx);
    CopyRuns(source, target, t, count, runs);
    ConcatAssoc(before, Header(t.kind, t.rowBytes),
                PickRows(TensorAt(source.data, t, count).bytes, t.rowBytes, count, idx));
  }

  lemma CellsUnfold(ps: seq<int>, i: int)
    requires InRange(ps, MAX_TOKENS) && 0 <= i < |ps|
    ensures InRange(ps[i..], MAX_TOKENS) && Cells(ps[i..]) == Cell(ps[i]) + Cells(ps[i + 1..])
  {
    assert ps[i..][1..] == ps[i + 1..];
  }

  lemma NoCells()
    ensures Cells([]) == []
  {
  }

  lemma CellOctets(p: int)
    requires 0 <= p < MAX_TOKENS
    ensures Octets(Cell(p))
  {
    WordOctets(p);
    WordOctets(1);
    WordOctets(0);
  }

  /** Writes the cell records of the kept indices. */
  method WriteCells(target: Writer, ps: seq<int>, idx: seq<int>)
    requires target.Valid() && Indexes(idx, |ps|) && InRange(Pick(ps, idx), MAX_TOKENS)
    modifies target
    ensures target.Valid() && target.written == old(target.written) + Cells(Pick(ps, idx))
  {
    ghost var kept, before := Pick(ps, idx), target.written;
    assert kept[0..] == kept;
    hide Octets, Cell, Cells;
    for i := 0 to |idx|
      invariant target.Valid() && target.written + Cells(kept[i..]) == before + Cells(kept)
    {
      var p := ps[idx[i]];
      assert p == kept[i];
      CellOctets(p);
      CellsUnfold(kept, i);
      ConcatAssoc(target.written, Cell(p), Cells(kept[i + 1..]));
      target.Write(Cell(p));
    }
    assert kept[|idx|..] == [];
    NoCells();
    assert target.written + [] == target.written;
  }

  lemma TensorsUnfold(ts: seq<TensorRows>, count: int, idx: seq<int>, k: int)
    requires GoodTensors(ts, count) && Indexes(idx, count) && 0 <= k < |ts|
    ensures GoodTensors(ts[k..], count) && GoodTensor(ts[k], count) && GoodTensors(ts[k + 1..], count)
    ensures var rest := CompactTensors(ts[k..], count, idx);
      && GoodTensors(rest, |idx|)
      && GoodTensors(CompactTensors(ts[k + 1..], count, idx), |idx|)
      && Geometry(ts[k].kind, ts[k].rowBytes)
      && TensorsBytes(rest, |idx|) == TensorBytes(CompactTensor(ts[k], count, idx))
                                      + TensorsBytes(CompactTensors(ts[k + 1..], count, idx), |idx|)
  {
    TensorsFrom(ts, count, k);
    TensorsFrom(ts, count, k + 1);
    assert ts[k..][1..] == ts[k + 1..];
    CompactTensorsGood(ts[k..], count, idx);
    CompactTensorsGood(ts[k + 1..], count, idx);
    PickRowsLength(ts[k].bytes, ts[k].rowBytes, count, idx);
    TensorsCons(CompactTensor(ts[k], count, idx), CompactTensors(ts[k + 1..], count, idx), |idx|);
  }

  lemma {:induction false} TensorsFrom(ts: seq<TensorRows>, count: int, k: int)
    requires GoodTensors(ts, count) && 0 <= k <= |ts|
    ensures GoodTensors(ts[k..], count)
    ensures k < |ts| ==> GoodTensor(ts[k], count)
    decreases k
  {
    if k > 0 {
      TensorsFrom(ts[1..], count, k - 1);
      assert ts[1..][k - 1..] == ts[k..];
    } else {
      assert ts[0..] == ts;
    }
  }

  /** Writes every tensor of the compacted local cache. */
  method WriteTensors(source: Reader, target: Writer, local: Cache, idx: seq<int>, ghost ts: seq<TensorRows>)
    requires source.Valid() && target.Valid()
    requires var count := |local.positions|;
      && GoodTensors(ts, count) && Indexes(idx, count) && |ts| == |local.tensors|
      && forall k :: 0 <= k < |ts| ==>
           var t := local.tensors[k];
           Geometry(t.kind, t.rowBytes) && InFile(source.data, t, count) && ts[k] == TensorAt(source.data, t, count)
    modifies source`at, target
    ensures source.Valid() && target.Valid()
    ensures GoodTensors(CompactTensors(ts, |local.positions|, idx), |idx|)
    ensures target.written == old(target.written) + TensorsBytes(CompactTensors(ts, |local.positions|, idx), |idx|)
  {
    ghost var count, before := |local.positions|, target.written;
    CompactTensorsGood(ts, count, idx);
    ghost var all := TensorsBytes(CompactTensors(ts, count, idx), |idx|);
    assert ts[0..] == ts;
    for k := 0 to |local.tensors|
      invariant source.Valid() && target.Valid() && GoodTensors(ts[k..], count)
      invariant GoodTensors(CompactTensors(ts[k..], count, idx), |idx|)
      invariant target.written + TensorsBytes(CompactTensors(ts[k..], count, idx), |idx|) == before + all
    {
      ghost var at := target.written;
      WriteTensor(source, target, local.tensors[k], |local.positions|, idx);
      TensorsUnfold(ts, count, idx, k);
      ConcatAssoc(at, TensorBytes(CompactTensor(ts[k], count, idx)), TensorsBytes(CompactTensors(ts[k + 1..], count, idx), |idx|));
    }
    assert ts[|ts|..] == [];
  }

  /** Writes the compacted local section. */
  method WriteLocal(source: Reader, target: Writer, local: Cache, idx: seq<int>, ghost rows: CacheRows, ghost tokenCount: int)
    requires source.Valid() && target.Valid()
    requires GoodCache(rows, tokenCount) && rows.positions == local.positions && |rows.tensors| == |local.tensors|
    requires local.layers == |local.tensors| / 2 && Indexes(idx, |local.positions|)
    requires GoodCache(CacheRows(Pick(rows.positions, idx), CompactTensors(rows.tensors, |rows.positions|, idx)), tokenCount)
    requires forall k :: 0 <= k < |rows.tensors| ==>
      var t := local.tensors[k];
      && Geometry(t.kind, t.rowBytes) && InFile(source.data, t, |local.positions|)
      && rows.tensors[k] == TensorAt(source.data, t, |local.positions|)
    modifies source`at, target
    ensures source.Valid() && target.Valid()
    ensures target.written == old(target.written)
      + EncodeCache(CacheRows(Pick(rows.positions, idx), CompactTensors(rows.tensors, |rows.positions|, idx)), tokenCount)
  {
    ghost var before, n := target.written, |idx|;
    PairOctets(1, |idx|);
    PairOctets(0, local.layers);
    hide Octets, Cells, TensorsBytes, InRange, Distinct, Stands;
    target.Write(U32(1) + U32(|idx|));
    WriteCells(target, local.positions, idx);
    target.Write(U32(0) + U32(local.layers));
    WriteTensors(source, target, local, idx, rows.tensors);
    FourJoin(before, U32(1) + U32(n), Cells(Pick(rows.positions, idx)), U32(0) + U32(local.layers),
             TensorsBytes(CompactTensors(rows.tensors, |rows.positions|, idx), n));
  }

  lemma PairOctets(a: int, b: int)
    requires IsU32(a) && IsU32(b)
    ensures Octets(U32(a) + U32(b))
  {
    WordOctets(a);
    WordOctets(b);
  }

  lemma FourJoin(x: seq<int>, a: seq<int>, b: seq<int>, c: seq<int>, d: seq<int>)
    ensures (((x + a) + b) + c) + d == x + (a + (b + (c + d)))
  {
  }

  /** The ascending indices of the cells to keep. */
  method KeptIndices(ps: seq<int>, cutoff: int) returns (idx: seq<int>)
    ensures idx == Kept(ps, cutoff)
  {
    idx := [];
    for i := 0 to |ps|
      invariant idx == Kept(ps[..i], cutoff)
    {
      assert ps[..i + 1][..i] == ps[..i];
      if ps[i] >= cutoff {
        idx := idx + [i];
      }
    }
    assert ps[..|ps|] == ps;
  }

  datatype CompactError = BadSource | BadWindow | MissingRows

  /** What the compactor must answer. */
  ghost predicate CompactedFile(data: seq<int>, window: int, r: Result<seq<int>, CompactError>)
    requires Octets(data)
  {
    if ParseState(data).None? then r == Err(BadSource)
    else if !(1 <= window <= MAX_TOKENS) then r == Err(BadWindow)
    else
      AcceptedMeansEncoded(data);
      var s := SessionOf(data, ParseState(data).value);
      if RecentComplete(s, window) then
        CompactedIsGood(s, window);
        r == Ok(Encode(Compacted(s, window)))
      else r == Err(MissingRows)
  }

  lemma AllLocalRows(data: seq<int>, st: State)
    requires LocatesAll(data, st)
    ensures var rows, count := SessionOf(data, st).local, |st.local.positions|;
      && rows.positions == st.local.positions && |rows.tensors| == |st.local.tensors|
      && st.local.layers == |st.local.tensors| / 2
      && forall k :: 0 <= k < |rows.tensors| ==>
           var t := st.local.tensors[k];
           Geometry(t.kind, t.rowBytes) && InFile(data, t, count) && rows.tensors[k] == TensorAt(data, t, count)
  {
    hide TensorAt, Stands, Preamble;
    assert Locates(data, st.local, |st.tokens|);
    if |st.local.tensors| > 0 { LocalRows(data, st, 0); }
    forall k | 0 <= k < |st.local.tensors|
      ensures Geometry(st.local.tensors[k].kind, st.local.tensors[k].rowBytes)
      ensures InFile(data, st.local.tensors[k], |st.local.positions|)
      ensures SessionOf(data, st).local.tensors[k] == TensorAt(data, st.local.tensors[k], |st.local.positions|)
    {
      LocalRows(data, st, k);
    }
  }

  lemma CompactedLocal(s: Session, window: int)
    requires GoodSession(s) && GoodSession(Compacted(s, window))
    ensures var idx := Kept(s.local.positions, Cutoff(|s.tokens|, window));
      && Indexes(idx, |s.local.positions|) && GoodTensors(s.local.tensors, |s.local.positions|)
      && Compacted(s, window).local
         == CacheRows(Pick(s.local.positions, idx), CompactTensors(s.local.tensors, |s.local.positions|, idx))
  {
    KeptIndexes(s.local.positions, Cutoff(|s.tokens|, window));
  }

  lemma CompactedParts(data: seq<int>, st: State, window: int)
    requires LocatesAll(data, st)
    requires var s := SessionOf(data, st); GoodSession(s) && GoodSession(Compacted(s, window))
    ensures var s := SessionOf(data, st);
      && s.tokens == st.tokens && Compacted(s, window).tokens == st.tokens && Compacted(s, window).global == s.global
      && GoodCache(s.local, |st.tokens|) && GoodCache(Compacted(s, window).local, |st.tokens|)
  {
    hide GoodCache, InRange, RowsOf, LocatesAll;
  }

  /** The compacted local section follows the unchanged beginning of the file. */
  lemma LocalPlan(data: seq<int>, st: State, window: int)
    requires Octets(data) && ParseState(data) == Some(st) && LocatesAll(data, st)
    requires var s := SessionOf(data, st); GoodSession(s) && GoodSession(Compacted(s, window))
    ensures var s := SessionOf(data, st);
      && GoodCache(s.local, |st.tokens|) && GoodCache(Compacted(s, window).local, |st.tokens|)
      && 0 <= st.local.start <= |data|
      && Encode(Compacted(s, window)) == data[..st.local.start] + EncodeCache(Compacted(s, window).local, |st.tokens|)
  {
    hide ParseState, LocatesAll, Encode, EncodeCache, GoodCache, GoodSession, SessionOf, Compacted, Octets;
    CompactedParts(data, st, window);
    SharedPrefix(data, st, Compacted(SessionOf(data, st), window));
  }

  method WriteCompacted(data: seq<int>, st: State, window: int, idx: seq<int>) returns (written: seq<int>)
    requires Octets(data) && ParseState(data) == Some(st) && LocatesAll(data, st)
    requires var s := SessionOf(data, st); GoodSession(s) && GoodSession(Compacted(s, window))
    requires idx == Kept(st.local.positions, Cutoff(|st.tokens|, window))
    ensures written == Encode(Compacted(SessionOf(data, st), window)) && Octets(written)
  {
    hide ParseState, LocatesAll, Encode, EncodeCache, TensorAt, InFile, Kept, CompactTensors, GoodTensors, GoodSession, GoodCache,
      SessionOf, Compacted, Octets, Geometry, Indexes, Pick;
    ghost var s := SessionOf(data, st);
    CompactedParts(data, st, window);
    CompactedLocal(s, window);
    AllLocalRows(data, st);
    LocalPlan(data, st, window);
    var source := new Reader(data);
    var target := new Writer();
    Copy(source, target, 0, st.local.start);
    WriteLocal(source, target, st.local, idx, s.local, |st.tokens|);
    written := target.written;
    assert [] + data[0..st.local.start] == data[..st.local.start];
  }

  /**
   The compactor: copies everything before the local section, then writes the kept cells, run by run.
   The file it writes always parses again, to the same tokens.
   */
  method CompactState(data: seq<int>, window: int) returns (r: Result<seq<int>, CompactError>)
    requires Octets(data)
    ensures CompactedFile(data, window, r)
    ensures r.Ok? ==> Octets(r.value) && ParseState(r.value).Some?
  {
    var parsed := InspectState(data);
    if parsed.None? {
      return Err(BadSource);
    }
    var st := parsed.value;
    AcceptedMeansEncoded(data);
    if !(1 <= window <= MAX_TOKENS) {
      return Err(BadWindow);
    }
    var cutoff := Max(0, |st.tokens| - window);
    var idx := KeptIndices(st.local.positions, cutoff);
    KeptIndexes(st.local.positions, cutoff);
    if PositionSet(Pick(st.local.positions, idx)) != Range(cutoff, |st.tokens|) {
      return Err(MissingRows);
    }
    ghost var s := SessionOf(data, st);
    CompactedIsGood(s, window);
    var written := WriteCompacted(data, st, window, idx);
    EncodedIsAccepted(Compacted(s, window));
    var converted := InspectState(written);
    assert converted.Some? && converted.value.tokens == st.tokens;
    r := Ok(written);
  }

  /*------------------------------------------------------------------ verifying */

  /** The destination is exactly the compaction of the source. */
  ghost predicate IsCompaction(source: seq<int>, destination: seq<int>, window: int)
    requires Octets(source) && Octets(destination)
  {
    && ParseState(source).Some? && ParseState(destination).Some?
    && (AcceptedMeansEncoded(source); AcceptedMeansEncoded(destination);
        var before := SessionOf(source, ParseState(source).value);
        RecentComplete(before, window)
        && SessionOf(destination, ParseState(destination).value) == Compacted(before, window))
  }

  /** Byte equality of two ranges, in bounded pieces. */
  method Compare(left: Reader, right: Reader, a: nat, b: nat, count: nat) returns (same: bool)
    requires left != right && left.Valid() && right.Valid()
    requires a + count <= |left.data| && b + count <= |right.data|
    modifies left`at, right`at
    ensures left.Valid() && right.Valid()
    ensures same <==> left.data[a..a + count] == right.data[b..b + count]
  {
    left.Seek(a);
    right.Seek(b);
    var done := 0;
    while done < count
      invariant done <= count && left.Valid() && right.Valid() && left.at == a + done && right.at == b + done
      invariant left.data[a..a + done] == right.data[b..b + done]
    {
      var n := Min(count - done, CHUNK);
      var first := left.ReadSome(n);
      var second := right.ReadSome(n);
      if |first| != n || |second| != n || first != second {
        SlicesDiffer(left.data, right.data, a, b, count, done, n);
        return false;
      }
      SlicesExtend(left.data, right.data, a, b, done, n);
      done := done + n;
    }
    same := true;
  }

  lemma SlicesExtend(x: seq<int>, y: seq<int>, a: nat, b: nat, done: nat, n: nat)
    requires a + done + n <= |x| && b + done + n <= |y|
    requires x[a..a + done] == y[b..b + done] && x[a + done..a + done + n] == y[b + done..b + done + n]
    ensures x[a..a + (done + n)] == y[b..b + (done + n)]
  {
    SliceJoin(x, a, a + done, a + done + n);
    SliceJoin(y, b, b + done, b + done + n);
  }

  lemma SlicesDiffer(x: seq<int>, y: seq<int>, a: nat, b: nat, count: nat, done: nat, n: nat)
    requires a + count <= |x| && b + count <= |y| && done + n <= count
    requires x[a + done..a + done + n] != y[b + done..b + done + n]
    ensures x[a..a + count] != y[b..b + count]
  {
    SliceOfSlice(x, a, a + count, done, done + n);
    SliceOfSlice(y, b, b + count, done, done + n);
  }

  /** Row-by-row comparison of one tensor against its picked rows. */
  method CompareRows(left: Reader, right: Reader, original: Tensor, copied: Tensor, count: nat, idx: seq<int>) returns (same: bool)
    requires left != right && left.Valid() && right.Valid()
    requires copied.rowBytes == original.rowBytes && Indexes(idx, count)
    requires InFile(left.data, original, count) && InFile(right.data, copied, |idx|)
    modifies left`at, right`at
    ensures left.Valid() && right.Valid()
    ensures same <==>
      TensorAt(right.data, copied, |idx|).bytes == PickRows(TensorAt(left.data, original, count).bytes, original.rowBytes, count, idx)
  {
    ghost var from, to := TensorAt(left.data, original, count).bytes, TensorAt(right.data, copied, |idx|).bytes;
    ghost var w := original.rowBytes;
    NoRows(from, w, count, 0);
    NoRows(to, w, |idx|, 0);
    hide PickRows, Rows, RowAt, Block, TensorAt;
    assert idx[..0] == [];
    for k := 0 to |idx|
      invariant left.Valid() && right.Valid()
      invariant Rows(to, w, |idx|, 0, k) == PickRows(from, w, count, idx[..k])
    {
      same := CompareRow(left, right, original, copied, count, |idx|, idx[k], k);
      if !same {
        if to == PickRows(from, w, count, idx) { PickedRow(from, w, count, idx, k); }
        return false;
      }
      RowsSnoc(to, w, |idx|, 0, k + 1);
      PickRowsSnoc(from, w, count, idx[..k], idx[k]);
      assert idx[..k + 1] == idx[..k] + [idx[k]];
    }
    assert idx[..|idx|] == idx;
    AllRows(to, w, |idx|);
    same := true;
  }

  method CompareRow(left: Reader, right: Reader, original: Tensor, copied: Tensor, count: nat, kept: nat, i: int, k: int)
    returns (same: bool)
    requires left != right && left.Valid() && right.Valid() && copied.rowBytes == original.rowBytes
    requires InFile(left.data, original, count) && InFile(right.data, copied, kept) && 0 <= i < count && 0 <= k < kept
    modifies left`at, right`at
    ensures left.Valid() && right.Valid()
    ensures same <==>
      RowAt(TensorAt(right.data, copied, kept).bytes, original.rowBytes, kept, k)
      == RowAt(TensorAt(left.data, original, count).bytes, original.rowBytes, count, i)
  {
    RowInFile(left.data, original, count, i);
    RowInFile(right.data, copied, kept, k);
    same := Compare(left, right, original.offset + i * original.rowBytes, copied.offset + k * copied.rowBytes, original.rowBytes);
  }

  lemma AllRows(bytes: seq<int>, width: int, count: nat)
    requires 0 <= width && |bytes| == Block(count, width)
    ensures Rows(bytes, width, count, 0, count) == bytes
  {
  }

  lemma RowInFile(data: seq<int>, t: Tensor, count: nat, i: int)
    requires InFile(data, t, count) && 0 <= i < count
    ensures 0 <= t.offset + i * t.rowBytes && t.offset + i * t.rowBytes + t.rowBytes <= |data|
    ensures data[t.offset + i * t.rowBytes..t.offset + i * t.rowBytes + t.rowBytes]
         == RowAt(TensorAt(data, t, count).bytes, t.rowBytes, count, i)
  {
    var w := t.rowBytes;
    BlockIsProduct(i, w);
    BlockGrows(i + 1, count, w);
    SliceOfSlice(data, t.offset, t.offset + Block(count, w), Block(i, w), Block(i, w) + w);
  }

  ghost predicate TensorMatches(left: seq<int>, right: seq<int>, original: Tensor, copied: Tensor, count: int, idx: seq<int>)
    requires Indexes(idx, count) && InFile(left, original, count) && InFile(right, copied, |idx|)
  {
    && copied.kind == original.kind && copied.rowBytes == original.rowBytes
    && TensorAt(right, copied, |idx|).bytes == PickRows(TensorAt(left, original, count).bytes, original.rowBytes, count, idx)
  }

  ghost predicate TensorsMatch(left: seq<int>, right: seq<int>, original: seq<Tensor>, copied: seq<Tensor>, count: int, idx: seq<int>, upTo: int) {
    && Indexes(idx, count) && upTo <= |original| && upTo <= |copied|
    && forall k :: 0 <= k < upTo ==>
         InFile(left, original[k], count) && InFile(right, copied[k], |idx|)
         && TensorMatches(left, right, original[k], copied[k], count, idx)
  }

  /** Equal prefixes up to the local section mean equal tokens and equal global caches. */
  lemma PrefixDecides(source: seq<int>, destination: seq<int>, b: State, a: State)
    requires Octets(source) && Octets(destination)
    requires ParseState(source) == Some(b) && LocatesAll(source, b)
    requires ParseState(destination) == Some(a) && LocatesAll(destination, a)
    requires a.tokens == b.tokens
    ensures 0 <= b.local.start <= |source| && 0 <= a.local.start <= |destination|
    ensures SessionOf(destination, a).global == SessionOf(source, b).global <==>
      a.local.start == b.local.start && source[..b.local.start] == destination[..a.local.start]
  {
    AcceptedMeansEncoded(source);
    AcceptedMeansEncoded(destination);
    var s, d := SessionOf(source, b), SessionOf(destination, a);
    var mixed := Session(s.tokens, d.global, s.local);
    hide *;
    GoodMix(s, d);
    SharedPrefix(source, b, s);
    SharedPrefix(destination, a, d);
    SharedPrefix(destination, a, mixed);
    var n := |b.tokens|;
    if a.local.start == b.local.start && source[..b.local.start] == destination[..a.local.start] {
      assert Encode(mixed) == Encode(s) == source;
      EncodeInjective(mixed, s);
    }
    if d.global == s.global {
      SameStart(source, destination, b, a);
      SharedPrefix(source, b, d);
      PrefixesAgree(source[..b.local.start], destination[..a.local.start], EncodeCache(d.local, n));
    }
  }

  lemma PrefixesAgree(x: seq<int>, y: seq<int>, tail: seq<int>)
    requires x + tail == y + tail
    ensures x == y
  {
    assert |x| == |y|;
    assert (x + tail)[..|x|] == x && (y + tail)[..|y|] == y;
  }

  lemma GoodMix(s: Session, d: Session)
    requires GoodSession(s) && GoodSession(d) && s.tokens == d.tokens
    ensures GoodSession(Session(s.tokens, d.global, s.local))
    ensures GoodCache(s.local, |s.tokens|) && GoodCache(d.local, |s.tokens|)
  {
  }

  lemma SameStart(source: seq<int>, destination: seq<int>, b: State, a: State)
    requires Octets(source) && Octets(destination)
    requires ParseState(source) == Some(b) && LocatesAll(source, b)
    requires ParseState(destination) == Some(a) && LocatesAll(destination, a)
    requires a.tokens == b.tokens && SessionOf(destination, a).global == SessionOf(source, b).global
    ensures a.local.start == b.local.start
  {
    AcceptedMeansEncoded(source);
    AcceptedMeansEncoded(destination);
    EncodedIsAccepted(SessionOf(source, b));
    EncodedIsAccepted(SessionOf(destination, a));
    StateForUnfold(SessionOf(source, b));
    StateForUnfold(SessionOf(destination, a));
  }

  lemma ContentsFields(data: seq<int>, st: State)
    requires LocatesAll(data, st)
    ensures SessionOf(data, st).tokens == st.tokens
    ensures SessionOf(data, st).local.positions == st.local.positions
    ensures |SessionOf(data, st).local.tensors| == |st.local.tensors|
    ensures st.local.layers == |st.local.tensors| / 2 && |st.local.tensors| % 2 == 0
  {
    AllLocalRows(data, st);
    assert Locates(data, st.local, |st.tokens|);
  }

  /** Matching tensors, one by one, are the compacted tensors. */
  lemma TensorsDecide(source: seq<int>, destination: seq<int>, b: State, a: State, idx: seq<int>)
    requires LocatesAll(source, b) && LocatesAll(destination, a)
    requires Indexes(idx, |b.local.positions|) && |a.local.positions| == |idx| && |a.local.tensors| == |b.local.tensors|
    requires GoodTensors(SessionOf(source, b).local.tensors, |b.local.positions|)
    ensures TensorsMatch(source, destination, b.local.tensors, a.local.tensors, |b.local.positions|, idx, |b.local.tensors|)
      <==> SessionOf(destination, a).local.tensors == CompactTensors(SessionOf(source, b).local.tensors, |b.local.positions|, idx)
  {
    hide LocatesAll, SessionOf, TensorAt, GoodTensors, CompactTensors, PickRows, Indexes, InFile, TensorMatches, Geometry, Block;
    var rows, copies, count := SessionOf(source, b).local.tensors, SessionOf(destination, a).local.tensors, |b.local.positions|;
    AllLocalRows(source, b);
    AllLocalRows(destination, a);
    forall k | 0 <= k < |rows|
      ensures InFile(source, b.local.tensors[k], count) && InFile(destination, a.local.tensors[k], |idx|)
      ensures TensorMatches(source, destination, b.local.tensors[k], a.local.tensors[k], count, idx)
        <==> copies[k] == CompactTensors(rows, count, idx)[k]
    {
      OneTensorDecides(source, destination, b.local.tensors[k], a.local.tensors[k], rows, count, idx, k);
    }
    assert |CompactTensors(rows, count, idx)| == |rows| == |copies|;
  }

  lemma OneTensorDecides(source: seq<int>, destination: seq<int>, o: Tensor, c: Tensor, rows: seq<TensorRows>, count: int, idx: seq<int>, k: int)
    requires InFile(source, o, count) && InFile(destination, c, |idx|) && Indexes(idx, count)
    requires GoodTensors(rows, count) && 0 <= k < |rows| && rows[k] == TensorAt(source, o, count)
    ensures TensorMatches(source, destination, o, c, count, idx)
      <==> TensorAt(destination, c, |idx|) == CompactTensors(rows, count, idx)[k]
  {
    TensorOf(rows, count, idx, k);
  }

  /** The positions the verifier demands: tokens, the kept cells in order, and none of the window missing. */
  predicate SamePlan(b: State, a: State, window: int) {
    && a.tokens == b.tokens && a.local.start == b.local.start
    && Indexes(Kept(b.local.positions, Cutoff(|b.tokens|, window)), |b.local.positions|)
    && a.local.positions == Pick(b.local.positions, Kept(b.local.positions, Cutoff(|b.tokens|, window)))
    && PositionSet(a.local.positions) == Range(Cutoff(|b.tokens|, window), |b.tokens|)
  }

  lemma IsCompactionUnfold(source: seq<int>, destination: seq<int>, window: int, b: State, a: State)
    requires Octets(source) && Octets(destination)
    requires ParseState(source) == Some(b) && ParseState(destination) == Some(a)
    requires LocatesAll(source, b) && LocatesAll(destination, a)
    ensures GoodSession(SessionOf(source, b)) && GoodSession(SessionOf(destination, a))
    ensures GoodTensors(SessionOf(source, b).local.tensors, |b.local.positions|)
    ensures SessionOf(source, b).local.positions == b.local.positions
    ensures var s, d, idx := SessionOf(source, b), SessionOf(destination, a), Kept(b.local.positions, Cutoff(|b.tokens|, window));
      && Indexes(idx, |b.local.positions|)
      && (IsCompaction(source, destination, window) <==>
          && d.tokens == s.tokens && d.global == s.global
          && d.local.positions == Pick(b.local.positions, idx)
          && PositionSet(d.local.positions) == Range(Cutoff(|b.tokens|, window), |b.tokens|)
          && d.local.tensors == CompactTensors(s.local.tensors, |b.local.positions|, idx))
  {
    hide ParseState, TensorsStand, TensorContents, LocatesAll, Encode, CompactTensors, PositionSet, Range;
    AcceptedMeansEncoded(source);
    AcceptedMeansEncoded(destination);
    ContentsFields(source, b);
    KeptIndexes(b.local.positions, Cutoff(|b.tokens|, window));
  }

  lemma StartsInFile(data: seq<int>, st: State)
    requires Octets(data) && ParseState(data) == Some(st) && LocatesAll(data, st)
    ensures 0 <= st.local.start <= |data|
  {
    AcceptedMeansEncoded(data);
    SharedPrefix(data, st, SessionOf(data, st));
  }

  lemma VerifierDecides(source: seq<int>, destination: seq<int>, window: int, b: State, a: State)
    requires Octets(source) && Octets(destination)
    requires ParseState(source) == Some(b) && ParseState(destination) == Some(a)
    requires LocatesAll(source, b) && LocatesAll(destination, a)
    ensures 0 <= b.local.start <= |source| && 0 <= a.local.start <= |destination|
    ensures IsCompaction(source, destination, window) <==>
      && SamePlan(b, a, window)
      && source[..b.local.start] == destination[..a.local.start]
      && b.local.layers == a.local.layers
      && TensorsMatch(source, destination, b.local.tensors, a.local.tensors, |b.local.positions|,
                      Kept(b.local.positions, Cutoff(|b.tokens|, window)), |b.local.tensors|)
  {
    hide ParseState, LocatesAll, SessionOf, TensorsMatch, Encode, EncodeCache, Kept, CompactTensors, GoodTensors, GoodCache,
         GoodSession, Octets, Indexes, PositionSet, Range, Cutoff, IsCompaction;
    var s, d, idx := SessionOf(source, b), SessionOf(destination, a), Kept(b.local.positions, Cutoff(|b.tokens|, window));
    StartsInFile(source, b);
    StartsInFile(destination, a);
    IsCompactionUnfold(source, destination, window, b, a);
    ContentsFields(source, b);
    ContentsFields(destination, a);
    if a.tokens == b.tokens {
      PrefixDecides(source, destination, b, a);
      if |a.local.positions| == |idx| && |a.local.tensors| == |b.local.tensors| {
        TensorsDecide(source, destination, b, a, idx);
      }
    }
    assert |CompactTensors(s.local.tensors, |b.local.positions|, idx)| == |s.local.tensors|;
  }

  /** The independent verifier accepts exactly the compactions of the source, for any integer window. */
  method VerifyCompaction(source: seq<int>, destination: seq<int>, window: int) returns (ok: bool)
    requires Octets(source) && Octets(destination)
    ensures ok <==> IsCompaction(source, destination, window)
  {
    var before := InspectState(source);
    if before.None? {
      return false;
    }
    var after := InspectState(destination);
    if after.None? {
      return false;
    }
    var b, a := before.value, after.value;
    ParsedStateLocates(source);
    ParsedStateLocates(destination);
    VerifierDecides(source, destination, window, b, a);
    hide *;
    var planned := CheckPlan(b, a, window);
    if !planned {
      return false;
    }
    ok := CompareContents(source, destination, b, a, window);
  }

  method CheckPlan(b: State, a: State, window: int) returns (ok: bool)
    ensures ok <==> SamePlan(b, a, window)
  {
    var cutoff := Max(0, |b.tokens| - window);
    var idx := KeptIndices(b.local.positions, cutoff);
    KeptIndexes(b.local.positions, cutoff);
    ok := b.tokens == a.tokens && b.local.start == a.local.start && a.local.positions == Pick(b.local.positions, idx)
          && PositionSet(a.local.positions) == Range(cutoff, |b.tokens|);
  }

  method CompareContents(source: seq<int>, destination: seq<int>, b: State, a: State, window: int) returns (same: bool)
    requires Octets(source) && Octets(destination)
    requires LocatesAll(source, b) && LocatesAll(destination, a) && SamePlan(b, a, window)
    requires 0 <= b.local.start <= |source| && 0 <= a.local.start <= |destination|
    ensures same <==>
      && source[..b.local.start] == destination[..a.local.start] && b.local.layers == a.local.layers
      && TensorsMatch(source, destination, b.local.tensors, a.local.tensors, |b.local.positions|,
                      Kept(b.local.positions, Cutoff(|b.tokens|, window)), |b.local.tensors|)
  {
    hide LocatesAll, TensorsMatch, PositionSet, Range, Kept, Octets, InFile;
    var left := new Reader(source);
    var right := new Reader(destination);
    same := Compare(left, right, 0, 0, b.local.start);
    assert source[0..0 + b.local.start] == source[..b.local.start];
    assert destination[0..0 + b.local.start] == destination[..a.local.start];
    if !same || b.local.layers != a.local.layers {
      return false;
    }
    ContentsFields(source, b);
    ContentsFields(destination, a);
    AllLocalRows(source, b);
    AllLocalRows(destination, a);
    var idx := KeptIndices(b.local.positions, Max(0, |b.tokens| - window));
    same := CompareTensors(left, right, b.local.tensors, a.local.tensors, |b.local.positions|, idx);
  }

  method CompareTensors(left: Reader, right: Reader, original: seq<Tensor>, copied: seq<Tensor>, count: nat, idx: seq<int>)
    returns (same: bool)
    requires left != right && left.Valid() && right.Valid() && |original| == |copied| && Indexes(idx, count)
    requires forall k :: 0 <= k < |original| ==> InFile(left.data, original[k], count) && InFile(right.data, copied[k], |idx|)
    modifies left`at, right`at
    ensures same <==> TensorsMatch(left.data, right.data, original, copied, count, idx, |original|)
  {
    for k := 0 to |original|
      invariant left.Valid() && right.Valid()
      invariant TensorsMatch(left.data, right.data, original, copied, count, idx, k)
    {
      if original[k].kind != copied[k].kind || original[k].rowBytes != copied[k].rowBytes {
        return false;
      }
      same := CompareRows(left, right, original[k], copied[k], count, idx);
      if !same {
        return false;
      }
    }
    same := true;
  }

  /** What the compactor writes, the verifier accepts. */
  lemma CompactorMeetsVerifier(data: seq<int>, window: int, r: Result<seq<int>, CompactError>)
    requires Octets(data) && CompactedFile(data, window, r) && r.Ok? && Octets(r.value)
    ensures IsCompaction(data, r.value, window)
  {
    AcceptedMeansEncoded(data);
    var s := SessionOf(data, ParseState(data).value);
    CompactedIsGood(s, window);
    EncodedIsAccepted(Compacted(s, window));
  }

  /** Conversely, the file the verifier accepts is the one the compactor writes. */
  lemma VerifiedIsUnique(data: seq<int>, written: seq<int>, window: int)
    requires Octets(data) && Octets(written) && 1 <= window <= MAX_TOKENS && IsCompaction(data, written, window)
    ensures CompactedFile(data, window, Ok(written))
  {
    AcceptedMeansEncoded(data);
    AcceptedMeansEncoded(written);
  }

  /** Compacting the compacted file, to the same or a narrower window, is compacting the original directly. */
  lemma CompactFileTwice(data: seq<int>, middle: seq<int>, wide: int, narrow: int, r: Result<seq<int>, CompactError>)
    requires Octets(data) && Octets(middle) && 1 <= narrow <= wide
    requires CompactedFile(data, wide, Ok(middle)) && CompactedFile(middle, narrow, r)
    ensures CompactedFile(data, narrow, r) && r.Ok?
    ensures narrow == wide ==> r == Ok(middle)
  {
    AcceptedMeansEncoded(data);
    var s := SessionOf(data, ParseState(data).value);
    CompactedIsGood(s, wide);
    EncodedIsAccepted(Compacted(s, wide));
    CompactTwice(s, wide, narrow);
    CompleteForNarrower(s, wide, narrow);
  }
}
