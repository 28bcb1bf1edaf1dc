/** Reading and copying session files: a reader with a moving position, run-coalesced copying (dmn/native_cache.py). */
module CacheFiles {
  import opened Wrappers
  import opened Bytes
  import opened SessionFormat
  import opened NativeCache
  import opened Compaction

  const CHUNK := 8 * 1024 * 1024

  /** A file opened for reading. */
  class Reader {
    const data: seq<int>
    var at: nat

    ghost predicate Valid()
      reads this
    {
      at <= |data| && Octets(data)
    }

    constructor (bytes: seq<int>)
      requires Octets(bytes)
      ensures Valid() && data == bytes && at == 0
    {
      data := bytes;
      at := 0;
    }

    /** Exactly `n` bytes, or a truncation error that leaves the position alone. */
    method Read(n: int) returns (r: Option<seq<int>>)
      requires Valid()
      modifies this`at
      ensures Valid()
      ensures r == if 0 <= n <= |data| - old(at) then Some(data[old(at)..old(at) + n]) else None
      ensures at == if r.Some? then old(at) + n else old(at)
    {
      if n < 0 || n > |data| - at {
        return None;
      }
      r := Some(data[at..at + n]);
      at := at + n;
    }

    method Skip(n: int) returns (ok: bool)
      requires Valid()
      modifies this`at
      ensures Valid()
      ensures ok == (0 <= n <= |data| - old(at))
      ensures at == if ok then old(at) + n else old(at)
    {
      if n < 0 || n > |data| - at {
        return false;
      }
      at := at + n;
      ok := true;
    }

    /** A plain stream read: up to `n` bytes, fewer only at the end of the file. */
    method ReadSome(n: nat) returns (bytes: seq<int>)
      requires Valid()
      modifies this`at
      ensures Valid()
      ensures at == old(at) + Min(n, |data| - old(at)) && bytes == data[old(at)..at]
    {
      var end := at + Min(n, |data| - at);
      bytes := data[at..end];
      at := end;
    }

    method Seek(offset: nat)
      requires Valid() && offset <= |data|
      modifies this`at
      ensures Valid() && at == offset
    {
      at := offset;
    }
  }

  /** A file opened for writing. */
  class Writer {
    var written: seq<int>

    ghost predicate Valid()
      reads this
    {
      Octets(written)
    }

    constructor ()
      ensures Valid() && written == []
    {
      written := [];
    }

    method Write(bytes: seq<int>)
      requires Valid() && Octets(bytes)
      modifies this
      ensures Valid()
      ensures written == old(written) + bytes
    {
      written := written + bytes;
    }
  }

  /*------------------------------------------------------------------ reading */

  lemma SliceOfSlice(data: seq<int>, from: int, to: int, i: int, j: int)
    requires 0 <= from <= to <= |data| && 0 <= i <= j <= to - from
    ensures data[from..to][i..j] == data[from + i..from + j]
  {
    var s := data[from..to];
    assert forall k :: i <= k < j ==> s[k] == data[from + k];
    assert forall k :: 0 <= k < j - i ==> s[i..j][k] == s[i + k] && data[from + i..from + j][k] == data[from + i + k];
  }

  method ReadPair(reader: Reader) returns (r: Option<(int, int)>)
    requires reader.Valid()
    modifies reader`at
    ensures reader.Valid()
    ensures r == ParsePair(reader.data, old(reader.at))
    ensures r.Some? ==> reader.at == old(reader.at) + 8
  {
    var bytes := reader.Read(8);
    if bytes.None? {
      return None;
    }
    ghost var data, at := reader.data, old(reader.at);
    assert bytes.value[..4] == data[at..at + 4] && bytes.value[4..] == data[at + 4..at + 8];
    r := Some((AsU32(bytes.value[..4]), AsU32(bytes.value[4..])));
  }

  lemma PrependTwice<T>(a: seq<T>, b: seq<T>, tail: Option<seq<T>>)
    ensures Prepend(a, Prepend(b, tail)) == Prepend(a + b, tail)
  {
    if tail.Some? { assert a + (b + tail.value) == (a + b) + tail.value; }
  }

  lemma PrependNothing<T>(tail: Option<seq<T>>)
    ensures Prepend([], tail) == tail
  {
    if tail.Some? { assert [] + tail.value == tail.value; }
  }

  /** One cell record: a position of one sequence, which is sequence 0. */
  function CellAt(data: seq<int>, at: int, limit: int): Option<int>
    requires 0 <= at
  {
    if at + 12 > |data| then None
    else
      var position, sequences, sequence := AsI32(data[at..at + 4]), AsU32(data[at + 4..at + 8]), AsI32(data[at + 8..at + 12]);
      if sequences != 1 || sequence != 0 || !(0 <= position < limit) then None else Some(position)
  }

  lemma CellsFrom(data: seq<int>, at: int, n: nat, limit: int)
    requires 0 <= at && n > 0
    ensures ParseCells(data, at, n, limit) ==
      if CellAt(data, at, limit).None? then None
      else Prepend([CellAt(data, at, limit).value], ParseCells(data, at + 12, n - 1, limit))
  {
  }

  method ReadCell(reader: Reader, limit: int) returns (r: Option<int>)
    requires reader.Valid()
    modifies reader`at
    ensures reader.Valid()
    ensures r == CellAt(reader.data, old(reader.at), limit)
    ensures r.Some? ==> reader.at == old(reader.at) + 12
  {
    ghost var data, at := reader.data, reader.at;
    var bytes := reader.Read(12);
    if bytes.None? {
      return None;
    }
    SliceOfSlice(data, at, at + 12, 0, 4);
    SliceOfSlice(data, at, at + 12, 4, 8);
    SliceOfSlice(data, at, at + 12, 8, 12);
    var position := AsI32(bytes.value[0..4]);
    if AsU32(bytes.value[4..8]) != 1 || AsI32(bytes.value[8..12]) != 0 || !(0 <= position < limit) {
      return None;
    }
    r := Some(position);
  }

  method ReadCells(reader: Reader, count: nat, limit: int) returns (r: Option<seq<int>>)
    requires reader.Valid()
    modifies reader`at
    ensures reader.Valid()
    ensures r == ParseCells(reader.data, old(reader.at), count, limit)
    ensures r.Some? ==> |r.value| == count && reader.at == old(reader.at) + 12 * count
  {
    hide CellAt;
    ghost var data, start := reader.data, reader.at;
    var positions := [];
    PrependNothing(ParseCells(data, start, count, limit));
    for i := 0 to count
      invariant reader.Valid() && reader.at == start + 12 * i && |positions| == i
      invariant ParseCells(data, start, count, limit) == Prepend(positions, ParseCells(data, reader.at, count - i, limit))
    {
      CellsFrom(data, reader.at, count - i, limit);
      var position := ReadCell(reader, limit);
      if position.None? {
        return None;
      }
      PrependTwice(positions, [position.value], ParseCells(data, reader.at, count - i - 1, limit));
      positions := positions + [position.value];
    }
    assert positions + [] == positions;
    r := Some(positions);
  }

  function PrependTensors(ts: seq<Tensor>, tail: Option<(seq<Tensor>, int)>): Option<(seq<Tensor>, int)> {
    if tail.Some? then Some((ts + tail.value.0, tail.value.1)) else None
  }

  lemma PrependTensorsTwice(a: seq<Tensor>, b: seq<Tensor>, tail: Option<(seq<Tensor>, int)>)
    ensures PrependTensors(a, PrependTensors(b, tail)) == PrependTensors(a + b, tail)
  {
    if tail.Some? { assert a + (b + tail.value.0) == (a + b) + tail.value.0; }
  }

  lemma PrependTensorsNothing(tail: Option<(seq<Tensor>, int)>)
    ensures PrependTensors([], tail) == tail
  {
    if tail.Some? { assert [] + tail.value.0 == tail.value.0; }
  }

  method ReadHeader(reader: Reader) returns (r: Option<(int, int)>)
    requires reader.Valid()
    modifies reader`at
    ensures reader.Valid()
    ensures r == ParseHeader(reader.data, old(reader.at))
    ensures r.Some? ==> reader.at == old(reader.at) + 12
  {
    var bytes := reader.Read(12);
    if bytes.None? {
      return None;
    }
    ghost var data, at := reader.data, old(reader.at);
    assert bytes.value[..4] == data[at..at + 4] && bytes.value[4..] == data[at + 4..at + 12];
    var kind, rowBytes := AsI32(bytes.value[..4]), AsU64(bytes.value[4..]);
    if kind != 1 && kind != 8 {
      return None;
    }
    if !(1 <= rowBytes <= MAX_ROW) || rowBytes % (if kind == 1 then 2 else 34) != 0 {
      return None;
    }
    r := Some((kind, rowBytes));
  }

  /** One tensor: its header, then `count` rows that are all in the file. */
  function TensorFrom(data: seq<int>, at: int, count: nat): Option<Tensor>
    requires 0 <= at
  {
    if ParseHeader(data, at).None? then None
    else
      var (kind, rowBytes) := ParseHeader(data, at).value;
      if at + 12 + Block(count, rowBytes) > |data| then None else Some(Tensor(kind, rowBytes, at + 12))
  }

  lemma TensorsFrom(data: seq<int>, at: int, k: nat, count: nat)
    requires 0 <= at && k > 0
    ensures ParseTensors(data, at, k, count) ==
      if TensorFrom(data, at, count).None? then None
      else
        var t := TensorFrom(data, at, count).value;
        PrependTensors([t], ParseTensors(data, t.offset + Block(count, t.rowBytes), k - 1, count))
  {
  }

  method ReadTensor(reader: Reader, count: nat) returns (r: Option<Tensor>)
    requires reader.Valid()
    modifies reader`at
    ensures reader.Valid()
    ensures r == TensorFrom(reader.data, old(reader.at), count)
    ensures r.Some? ==> reader.at == r.value.offset + Block(count, r.value.rowBytes)
  {
    var header := ReadHeader(reader);
    if header.None? {
      return None;
    }
    BlockIsProduct(count, header.value.1);
    var tensor := Tensor(header.value.0, header.value.1, reader.at);
    var ok := reader.Skip(count * tensor.rowBytes);
    if !ok {
      return None;
    }
    r := Some(tensor);
  }

  method ReadTensors(reader: Reader, total: nat, count: nat) returns (r: Option<seq<Tensor>>)
    requires reader.Valid()
    modifies reader`at
    ensures reader.Valid()
    ensures r.None? <==> ParseTensors(reader.data, old(reader.at), total, count).None?
    ensures r.Some? ==> ParseTensors(reader.data, old(reader.at), total, count) == Some((r.value, reader.at))
  {
    hide TensorFrom, Octets;
    ghost var data, start := reader.data, reader.at;
    var tensors := [];
    PrependTensorsNothing(ParseTensors(data, start, total, count));
    for i := 0 to total
      invariant reader.Valid()
      invariant ParseTensors(data, start, total, count)
             == PrependTensors(tensors, ParseTensors(data, reader.at, total - i, count))
    {
      TensorsFrom(data, reader.at, total - i, count);
      var tensor := ReadTensor(reader, count);
      if tensor.None? {
        return None;
      }
      PrependTensorsTwice(tensors, [tensor.value], ParseTensors(data, reader.at, total - i - 1, count));
      tensors := tensors + [tensor.value];
    }
    assert tensors + [] == tensors;
    r := Some(tensors);
  }

  method ReadPositions(reader: Reader, tokenCount: nat) returns (r: Option<seq<int>>)
    requires reader.Valid()
    modifies reader`at
    ensures reader.Valid()
    ensures r == ParsePositions(reader.data, old(reader.at), tokenCount)
    ensures r.Some? ==> reader.at == old(reader.at) + 8 + 12 * |r.value|
  {
    var head := ReadPair(reader);
    if head.None? || head.value.0 != 1 || !(1 <= head.value.1 <= tokenCount) {
      return None;
    }
    r := ReadCells(reader, head.value.1, tokenCount);
    if r.Some? {
      DistinctByCount(r.value);
      if |PositionSet(r.value)| != head.value.1 {
        return None;
      }
    }
  }

  method ReadLayers(reader: Reader, count: nat) returns (r: Option<seq<Tensor>>)
    requires reader.Valid()
    modifies reader`at
    ensures reader.Valid()
    ensures r.None? <==> ParseLayers(reader.data, old(reader.at), count).None?
    ensures r.Some? ==> ParseLayers(reader.data, old(reader.at), count) == Some((r.value, reader.at))
  {
    var layout := ReadPair(reader);
    if layout.None? || layout.value.0 != 0 || !(1 <= layout.value.1 <= MAX_LAYERS) {
      return None;
    }
    r := ReadTensors(reader, 2 * layout.value.1, count);
  }

  /** The section parser. */
  method ReadCache(reader: Reader, tokenCount: nat) returns (r: Option<Cache>)
    requires reader.Valid()
    modifies reader`at
    ensures reader.Valid()
    ensures r == ParseCache(reader.data, old(reader.at), tokenCount)
    ensures r.Some? ==> reader.at == r.value.end
  {
    var start := reader.at;
    var positions := ReadPositions(reader, tokenCount);
    if positions.None? {
      return None;
    }
    var tensors := ReadLayers(reader, |positions.value|);
    if tensors.None? {
      return None;
    }
    r := Some(Cache(start, reader.at, positions.value, |tensors.value| / 2, tensors.value));
  }

  method ReadTokens(reader: Reader, count: nat) returns (r: Option<seq<int>>)
    requires reader.Valid() && count >= 1
    modifies reader`at
    ensures reader.Valid()
    ensures r == ParseInts(reader.data, old(reader.at), count)
    ensures r.Some? ==> |r.value| == count && reader.at == old(reader.at) + 4 * count
  {
    ghost var data, start := reader.data, reader.at;
    var tokens := [];
    PrependNothing(ParseInts(data, start, count));
    for i := 0 to count
      invariant reader.Valid() && reader.at == start + 4 * i && |tokens| == i
      invariant ParseInts(data, start, count) == Prepend(tokens, ParseInts(data, reader.at, count - i))
    {
      var bytes := reader.Read(4);
      if bytes.None? || AsI32(bytes.value) < 0 {
        return None;
      }
      PrependTwice(tokens, [AsI32(bytes.value)], ParseInts(data, reader.at, count - i - 1));
      tokens := tokens + [AsI32(bytes.value)];
    }
    assert tokens + [] == tokens;
    r := Some(tokens);
  }

  method ReadPreamble(reader: Reader) returns (r: Option<seq<int>>)
    requires reader.Valid() && reader.at == 0
    modifies reader`at
    ensures reader.Valid()
    ensures r == ParsePreamble(reader.data)
    ensures r.Some? ==> reader.at == CachesAt(|r.value|)
  {
    ghost var data := reader.data;
    var head := reader.Read(12);
    if head.None? {
      return None;
    }
    assert head.value[..4] == data[0..4] && head.value[4..8] == data[4..8] && head.value[8..] == data[8..12];
    var magic, version, count := AsU32(head.value[..4]), AsU32(head.value[4..8]), AsU32(head.value[8..]);
    if magic != MAGIC || version != VERSION || !(1 <= count <= MAX_TOKENS) {
      return None;
    }
    var tokens := ReadTokens(reader, count);
    if tokens.None? {
      return None;
    }
    var ok := ReadArchitecture(reader);
    r := if ok then tokens else None;
  }

  method ReadArchitecture(reader: Reader) returns (ok: bool)
    requires reader.Valid()
    modifies reader`at
    ensures reader.Valid()
    ensures ok == ArchitectureStands(reader.data, old(reader.at))
    ensures ok ==> reader.at == old(reader.at) + 10
  {
    ghost var data, at := reader.data, reader.at;
    StandsIsSlice(data, at + 4, Architecture());
    var size := reader.Read(4);
    if size.None? {
      return false;
    }
    ReadsU32(data, at, 6);
    if AsU32(size.value) != 6 {
      return false;
    }
    var name := reader.Read(6);
    ok := name.Some? && name.value == Architecture();
  }

  /** The strict parser: a reader walking once through the file computes exactly `ParseState`. */
  method InspectState(data: seq<int>) returns (r: Option<State>)
    requires Octets(data)
    ensures r == ParseState(data)
  {
    var reader := new Reader(data);
    var tokens := ReadPreamble(reader);
    if tokens.None? {
      return None;
    }
    var global := ReadCache(reader, |tokens.value|);
    if global.None? {
      return None;
    }
    var local := ReadCache(reader, |tokens.value|);
    if local.None? || reader.at != |data| {
      return None;
    }
    if PositionSet(global.value.positions) != Range(0, |tokens.value|) {
      return None;
    }
    r := Some(State(|data|, tokens.value, global.value, local.value));
  }

  /*------------------------------------------------------------------ copying */

  /** Copies `size` bytes in bounded pieces; an unchanged source never runs out. */
  method Copy(source: Reader, target: Writer, offset: nat, size: nat)
    requires source.Valid() && target.Valid() && offset + size <= |source.data|
    modifies source`at, target
    ensures source.Valid() && target.Valid()
    ensures target.written == old(target.written) + source.data[offset..offset + size]
  {
    source.Seek(offset);
    var left: nat := size;
    ghost var before := target.written;
    assert before + source.data[offset..offset] == before;
    while left > 0
      invariant source.Valid() && target.Valid() && source.at == offset + size - left && left <= size
      invariant target.written == before + source.data[offset..source.at]
    {
      ghost var at := source.at;
      var bytes := source.ReadSome(Min(left, CHUNK));
      if |bytes| == 0 {
        assert false;
      }
      SliceJoin(source.data, offset, at, source.at);
      ConcatAssoc(before, source.data[offset..at], bytes);
      target.Write(bytes);
      left := left - |bytes|;
    }
  }

  function Flatten(runs: seq<(int, nat)>): seq<int> {
    if runs == [] then []
    else var last := |runs| - 1; Flatten(runs[..last]) + Interval(runs[last].0, runs[last].1)
  }

  lemma FlattenSnoc(runs: seq<(int, nat)>, run: (int, nat))
    ensures Flatten(runs + [run]) == Flatten(runs) + Interval(run.0, run.1)
  {
    assert (runs + [run])[..|runs|] == runs;
  }

  lemma RunGrows(runs: seq<(int, nat)>)
    requires runs != []
    ensures var last := |runs| - 1; var run := runs[last];
      Flatten(runs[last := (run.0, run.1 + 1)]) == Flatten(runs) + [run.0 + run.1]
  {
    var last := |runs| - 1;
    var run := runs[last];
    assert runs[last := (run.0, run.1 + 1)][..last] == runs[..last];
    assert Interval(run.0, run.1 + 1) == Interval(run.0, run.1) + [run.0 + run.1];
    ConcatAssoc(Flatten(runs[..last]), Interval(run.0, run.1), [run.0 + run.1]);
  }

  ghost predicate Coalesced(runs: seq<(int, nat)>) {
    && (forall j :: 0 <= j < |runs| ==> runs[j].1 >= 1)
    && (forall j :: 0 < j < |runs| ==> runs[j - 1].0 + runs[j - 1].1 != runs[j].0)
  }

  /** The runs with one more index: the last run grows, or a new one begins. */
  function WithIndex(runs: seq<(int, nat)>, i: int): seq<(int, nat)> {
    var last := |runs| - 1;
    if runs != [] && runs[last].0 + runs[last].1 == i then runs[last := (runs[last].0, runs[last].1 + 1)] else runs + [(i, 1)]
  }

  lemma WithIndexFlattens(runs: seq<(int, nat)>, i: int)
    ensures Flatten(WithIndex(runs, i)) == Flatten(runs) + [i]
  {
    hide Flatten;
    if runs != [] && runs[|runs| - 1].0 + runs[|runs| - 1].1 == i {
      RunGrows(runs);
    } else {
      FlattenSnoc(runs, (i, 1));
      assert Interval(i, 1) == [i];
    }
  }

  lemma WithIndexCoalesces(runs: seq<(int, nat)>, i: int)
    requires Coalesced(runs)
    ensures Coalesced(WithIndex(runs, i))
  {
  }

  lemma TakeNext<T>(s: seq<T>, k: nat)
    requires k < |s|
    ensures s[..k + 1] == s[..k] + [s[k]]
  {
  }

  lemma NoRuns(runs: seq<(int, nat)>, idx: seq<int>)
    requires runs == []
    ensures Coalesced(runs) && Flatten(runs) == idx[..0]
  {
  }

  lemma WithIndexIs(runs: seq<(int, nat)>, i: int, last: int)
    requires last == |runs| - 1
    ensures runs != [] && runs[last].0 + runs[last].1 == i ==> WithIndex(runs, i) == runs[last := (runs[last].0, runs[last].1 + 1)]
    ensures !(runs != [] && runs[last].0 + runs[last].1 == i) ==> WithIndex(runs, i) == runs + [(i, 1)]
  {
  }

  /** The indices as maximal runs: in the same order, and no two neighbours could be merged. */
  method Coalesce(idx: seq<int>) returns (runs: seq<(int, nat)>)
    ensures Flatten(runs) == idx && Coalesced(runs)
  {
    hide Flatten, Coalesced, WithIndex;
    runs := [];
    NoRuns(runs, idx);
    for k := 0 to |idx|
      invariant Flatten(runs) == idx[..k] && Coalesced(runs)
    {
      var i, last := idx[k], |runs| - 1;
      WithIndexFlattens(runs, i);
      WithIndexCoalesces(runs, i);
      WithIndexIs(runs, i, last);
      TakeNext(idx, k);
      if runs != [] && runs[last].0 + runs[last].1 == i {
        runs := runs[last := (runs[last].0, runs[last].1 + 1)];
      } else {
        runs := runs + [(i, 1)];
      }
    }
    assert idx[..|idx|] == idx;
  }

  ghost predicate InFile(data: seq<int>, t: Tensor, count: int) {
    0 <= t.offset && 0 <= t.rowBytes && t.offset + Block(count, t.rowBytes) <= |data|
  }

  lemma IndexesConcat(a: seq<int>, b: seq<int>, count: int)
    requires Indexes(a + b, count)
    ensures Indexes(a, count) && Indexes(b, count)
  {
    assert forall k :: 0 <= k < |a| ==> (a + b)[k] == a[k];
    assert forall k :: 0 <= k < |b| ==> (a + b)[|a| + k] == b[k];
  }

  lemma {:induction false} FlattenedRun(runs: seq<(int, nat)>, j: int, count: int)
    requires 0 <= j < |runs| && Indexes(Flatten(runs), count) && Coalesced(runs)
    ensures 0 <= runs[j].0 && runs[j].0 + runs[j].1 <= count
    ensures Indexes(Flatten(runs[..j]), count)
    decreases |runs|
  {
    var last := |runs| - 1;
    var tail := Interval(runs[last].0, runs[last].1);
    IndexesConcat(Flatten(runs[..last]), tail, count);
    if j < last {
      FlattenedRun(runs[..last], j, count);
      assert runs[..last][..j] == runs[..j];
    } else {
      assert tail[0] == runs[last].0 && tail[|tail| - 1] == runs[last].0 + runs[last].1 - 1;
    }
  }

  method CopyRun(source: Reader, target: Writer, t: Tensor, count: nat, first: int, n: nat)
    requires source.Valid() && target.Valid() && InFile(source.data, t, count) && 0 <= first && first + n <= count
    modifies source`at, target
    ensures source.Valid() && target.Valid()
    ensures target.written == old(target.written) + Rows(TensorAt(source.data, t, count).bytes, t.rowBytes, count, first, n)
  {
    RunInFile(source.data, t, count, first, n);
    Copy(source, target, t.offset + first * t.rowBytes, n * t.rowBytes);
  }

  /** Copying the coalesced runs writes the picked rows, row by row. */
  method CopyRuns(source: Reader, target: Writer, t: Tensor, count: nat, runs: seq<(int, nat)>)
    requires source.Valid() && target.Valid() && InFile(source.data, t, count)
    requires Indexes(Flatten(runs), count) && Coalesced(runs)
    modifies source`at, target
    ensures source.Valid() && target.Valid()
    ensures target.written == old(target.written) + PickRows(TensorAt(source.data, t, count).bytes, t.rowBytes, count, Flatten(runs))
  {
    ghost var before, bytes := target.written, TensorAt(source.data, t, count).bytes;
    assert PickRows(bytes, t.rowBytes, count, []) == [] && before + [] == before;
    assert runs[..0] == [] && Flatten(runs[..0]) == [] && Indexes([], count) && |bytes| == Block(count, t.rowBytes);
    hide PickRows, Rows, Flatten, Coalesced, Indexes, Octets, TensorAt, Block;
    for j := 0 to |runs|
      invariant source.Valid() && target.Valid() && Indexes(Flatten(runs[..j]), count)
      invariant target.written == before + PickRows(bytes, t.rowBytes, count, Flatten(runs[..j]))
    {
      var run := runs[j];
      FlattenedRun(runs, j, count);
      TakeNext(runs, j);
      CopyRun(source, target, t, count, run.0, run.1);
      RunAppends(before, bytes, t.rowBytes, count, runs[..j], run);
    }
    assert runs[..|runs|] == runs;
  }

  lemma RunAppends(before: seq<int>, bytes: seq<int>, width: int, count: nat, done: seq<(int, nat)>, run: (int, nat))
    requires 0 <= width && |bytes| == Block(count, width)
    requires Indexes(Flatten(done), count) && 0 <= run.0 && run.0 + run.1 <= count
    ensures Indexes(Flatten(done + [run]), count)
    ensures (before + PickRows(bytes, width, count, Flatten(done))) + Rows(bytes, width, count, run.0, run.1)
         == before + PickRows(bytes, width, count, Flatten(done + [run]))
  {
    hide PickRows, Rows, Block;
    FlattenSnoc(done, run);
    PickRun(bytes, width, count, run.0, run.1);
    PickRowsAppend(bytes, width, count, Flatten(done), Interval(run.0, run.1));
    ConcatAssoc(before, PickRows(bytes, width, count, Flatten(done)), Rows(bytes, width, count, run.0, run.1));
  }

  lemma RunInFile(data: seq<int>, t: Tensor, count: nat, first: int, n: nat)
    requires InFile(data, t, count) && 0 <= first && first + n <= count
    ensures 0 <= t.offset + first * t.rowBytes && 0 <= n * t.rowBytes
    ensures t.offset + first * t.rowBytes + n * t.rowBytes <= |data|
    ensures var from := t.offset + first * t.rowBytes;
      data[from..from + n * t.rowBytes] == Rows(TensorAt(data, t, count).bytes, t.rowBytes, count, first, n)
  {
    var w := t.rowBytes;
    BlockIsProduct(first, w);
    BlockIsProduct(n, w);
    BlockSplit(first, n, w);
    BlockGrows(first + n, count, w);
    SliceOfSlice(data, t.offset, t.offset + Block(count, w), Block(first, w), Block(first + n, w));
  }
}
