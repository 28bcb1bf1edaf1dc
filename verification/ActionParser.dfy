/**
 The streaming action parser (dmn/protocol.py:207-271): a per-byte machine, and the grammar of
 whole streams that it implements under every chunking.
 */
module ActionParser {
  import opened Wrappers
  import opened Bytes

  /** What a frame yields: its content for decoding, or the oversized part that was discarded. */
  datatype Frame = Complete(raw: seq<int>) | TooLarge(raw: seq<int>)

  datatype State = State(buffer: seq<int>, inFrame: bool, lineStart: bool)

  const NEWLINE := 10

  /** "<dmn_action>" */
  function Start(): (s: seq<int>)
    ensures |s| == 12 && NEWLINE !in s
  {
    [60, 100, 109, 110, 95, 97, 99, 116, 105, 111, 110, 62]
  }

  /** "</dmn_action>" */
  function End(): (s: seq<int>)
    ensures |s| == 13
  {
    [60, 47, 100, 109, 110, 95, 97, 99, 116, 105, 111, 110, 62]
  }

  predicate EndsWith(s: seq<int>, suffix: seq<int>) {
    |suffix| <= |s| && s[|s| - |suffix|..] == suffix
  }

  function Initial(): State {
    State([], false, true)
  }

  function InFrameStep(maxBytes: nat, s: State, b: int): (State, seq<Frame>) {
    var buffer := s.buffer + [b];
    if EndsWith(buffer, End()) then (State([], false, false), [Complete(buffer[..|buffer| - 13])])
    else if |buffer| > maxBytes then (State([], false, false), [TooLarge(buffer)])
    else (State(buffer, true, s.lineStart), [])
  }

  function LineStartStep(s: State, b: int): State {
    var buffer := s.buffer + [b];
    if buffer == Start() then State([], true, false)
    else if !(buffer <= Start()) then State([], false, b == NEWLINE)
    else State(buffer, false, true)
  }

  /** One byte. */
  function Step(maxBytes: nat, s: State, b: int): (State, seq<Frame>) {
    if s.inFrame then InFrameStep(maxBytes, s, b)
    else if s.lineStart then (LineStartStep(s, b), [])
    else (State(s.buffer, false, b == NEWLINE), [])
  }

  /** All bytes of `piece`, in order. */
  function Run(maxBytes: nat, s: State, piece: seq<int>): (State, seq<Frame>) {
    if piece == [] then (s, [])
    else
      var before := Run(maxBytes, s, piece[..|piece| - 1]);
      var last := Step(maxBytes, before.0, piece[|piece| - 1]);
      (last.0, before.1 + last.1)
  }

  class Parser {
    const maxBytes: nat
    var buffer: seq<int>
    var inFrame: bool
    var lineStart: bool

    ghost function Now(): State
      reads this
    {
      State(buffer, inFrame, lineStart)
    }

    /** A new parser, or one restored from a saved state. */
    constructor (limit: nat, saved: Option<State>)
      ensures maxBytes == limit && Now() == if saved.Some? then saved.value else Initial()
    {
      maxBytes := limit;
      buffer := if saved.Some? then saved.value.buffer else [];
      inFrame := saved.Some? && saved.value.inFrame;
      lineStart := saved.None? || saved.value.lineStart;
    }

    method Save() returns (s: State)
      ensures s == Now()
    {
      s := State(buffer, inFrame, lineStart);
    }

    /** Discards a partial frame or start marker, and says whether there was one. */
    method Cancel() returns (hadPartial: bool)
      modifies this
      ensures Now() == Initial() && hadPartial == (old(inFrame) || old(buffer) != [])
    {
      hadPartial := inFrame || buffer != [];
      buffer, inFrame, lineStart := [], false, true;
    }

    method Feed(piece: seq<int>) returns (results: seq<Frame>)
      modifies this
      ensures (Now(), results) == Run(maxBytes, old(Now()), piece)
    {
      results := [];
      ghost var first := Now();
      for i := 0 to |piece|
        invariant (Now(), results) == Run(maxBytes, first, piece[..i])
      {
        assert piece[..i + 1][..i] == piece[..i];
        var frames := FeedByte(piece[i]);
        results := results + frames;
      }
      assert piece[..|piece|] == piece;
    }

    method FeedByte(b: int) returns (frames: seq<Frame>)
      modifies this
      ensures (Now(), frames) == Step(maxBytes, old(Now()), b)
    {
      frames := [];
      if inFrame {
        buffer := buffer + [b];
        if EndsWith(buffer, End()) {
          var raw := buffer[..|buffer| - |End()|];
          buffer, inFrame, lineStart := [], false, false;
          frames := [Complete(raw)];
        } else if |buffer| > maxBytes {
          var raw := buffer;
          var _ := Cancel();
          lineStart := false;
          frames := [TooLarge(raw)];
        }
      } else if lineStart {
        buffer := buffer + [b];
        if buffer == Start() {
          buffer, inFrame, lineStart := [], true, false;
        } else if !(buffer <= Start()) {
          buffer, lineStart := [], b == NEWLINE;
        }
      } else {
        lineStart := b == NEWLINE;
      }
    }
  }

  /*------------------------------------------------------------------ chunking */

  /** Feeding two pieces is feeding their concatenation. */
  lemma {:induction false} RunAppend(maxBytes: nat, s: State, a: seq<int>, b: seq<int>)
    ensures Run(maxBytes, s, a + b) ==
      (Run(maxBytes, Run(maxBytes, s, a).0, b).0, Run(maxBytes, s, a).1 + Run(maxBytes, Run(maxBytes, s, a).0, b).1)
    decreases |b|
  {
    hide Step;
    if b == [] {
      assert a + b == a && Run(maxBytes, s, a).1 + [] == Run(maxBytes, s, a).1;
    } else {
      var last := |b| - 1;
      RunAppend(maxBytes, s, a, b[..last]);
      assert (a + b)[..|a + b| - 1] == a + b[..last] && (a + b)[|a + b| - 1] == b[last];
      var first, middle := Run(maxBytes, s, a), Run(maxBytes, Run(maxBytes, s, a).0, b[..last]);
      var final := Step(maxBytes, middle.0, b[last]).1;
      assert first.1 + (middle.1 + final) == (first.1 + middle.1) + final;
    }
  }

  function Concat(pieces: seq<seq<int>>): seq<int> {
    if pieces == [] then [] else Concat(pieces[..|pieces| - 1]) + pieces[|pieces| - 1]
  }

  /** The pieces one by one, saving and restoring the parser between them. */
  function RunPieces(maxBytes: nat, s: State, pieces: seq<seq<int>>): (State, seq<Frame>) {
    if pieces == [] then (s, [])
    else
      var before := RunPieces(maxBytes, s, pieces[..|pieces| - 1]);
      var last := Run(maxBytes, before.0, pieces[|pieces| - 1]);
      (last.0, before.1 + last.1)
  }

  /** Chunk boundaries are unobservable. */
  lemma {:induction false} ChunkingIsUnobservable(maxBytes: nat, s: State, pieces: seq<seq<int>>)
    ensures RunPieces(maxBytes, s, pieces) == Run(maxBytes, s, Concat(pieces))
  {
    if pieces != [] {
      var last := |pieces| - 1;
      ChunkingIsUnobservable(maxBytes, s, pieces[..last]);
      RunAppend(maxBytes, s, Concat(pieces[..last]), pieces[last]);
    }
  }

  /*------------------------------------------------------------------ bounded memory */

  predicate Reachable(maxBytes: nat, s: State) {
    if s.inFrame then !s.lineStart && |s.buffer| <= maxBytes
    else if s.lineStart then s.buffer < Start()
    else s.buffer == []
  }

  /** Every state a parser can be in keeps a bounded buffer, between frames less than one start marker. */
  lemma {:induction false} RunStaysReachable(maxBytes: nat, s: State, piece: seq<int>)
    requires Reachable(maxBytes, s)
    ensures var t := Run(maxBytes, s, piece).0; Reachable(maxBytes, t) && |t.buffer| <= Max(maxBytes, 11)
  {
    if piece != [] {
      RunStaysReachable(maxBytes, s, piece[..|piece| - 1]);
    }
  }

  /*------------------------------------------------------------------ the grammar */

  /** The first position at or after `from`, at a line start, where a start marker stands. */
  function FirstOpening(d: seq<int>, from: nat, lineStart: bool): Option<nat>
    decreases |d| - from
  {
    if from + 12 > |d| then None
    else if lineStart && Stands(d, from, Start()) then Some(from)
    else FirstOpening(d, from + 1, d[from] == NEWLINE)
  }

  /** The first end marker at or after `from`. */
  function FirstEnd(d: seq<int>, from: nat): Option<nat>
    decreases |d| - from
  {
    if from + 13 > |d| then None
    else if Stands(d, from, End()) then Some(from)
    else FirstEnd(d, from + 1)
  }

  /** The state at the end of text that opens no frame: a possible beginning of a start marker is kept. */
  function Trailing(d: seq<int>, from: nat, lineStart: bool): State
    requires from <= |d|
    decreases |d| - from
  {
    if from == |d| || (lineStart && d[from..] < Start()) then State(d[from..], false, lineStart)
    else Trailing(d, from + 1, d[from] == NEWLINE)
  }

  lemma {:induction false} FirstOpeningRange(d: seq<int>, from: nat, lineStart: bool)
    ensures var r := FirstOpening(d, from, lineStart); r.Some? ==> from <= r.value && r.value + 12 <= |d|
    decreases |d| - from
  {
    if from + 12 <= |d| { FirstOpeningRange(d, from + 1, d[from] == NEWLINE); }
  }

  lemma {:induction false} FirstEndRange(d: seq<int>, from: nat)
    ensures var r := FirstEnd(d, from); r.Some? ==> from <= r.value && r.value + 13 <= |d|
    decreases |d| - from
  {
    if from + 13 <= |d| { FirstEndRange(d, from + 1); }
  }

  /** The frames of a stream: content up to the first end marker, if content and marker fit the limit. */
  function Parse(maxBytes: nat, d: seq<int>, from: nat, lineStart: bool): (State, seq<Frame>)
    requires from <= |d|
    decreases |d| - from
  {
    FirstOpeningRange(d, from, lineStart);
    match FirstOpening(d, from, lineStart)
    case None => (Trailing(d, from, lineStart), [])
    case Some(opening) =>
      var f := opening + 12;
      FirstEndRange(d, f);
      var e := FirstEnd(d, f);
      if e.Some? && e.value - f + 12 <= maxBytes then
        var rest := Parse(maxBytes, d, e.value + 13, false);
        (rest.0, [Complete(d[f..e.value])] + rest.1)
      else if |d| - f > maxBytes then
        var rest := Parse(maxBytes, d, f + maxBytes + 1, false);
        (rest.0, [TooLarge(d[f..f + maxBytes + 1])] + rest.1)
      else (State(d[f..], true, false), [])
  }

  /** `FirstOpening` is the least opening: a start marker at the segment's line start or after a newline. */
  predicate Opens(d: seq<int>, from: nat, lineStart: bool, i: nat) {
    from <= i && Stands(d, i, Start()) && (if i == from then lineStart else i <= |d| && d[i - 1] == NEWLINE)
  }

  lemma {:induction false} FirstOpeningIsLeast(d: seq<int>, from: nat, lineStart: bool, i: nat)
    ensures FirstOpening(d, from, lineStart) == Some(i) <==>
      Opens(d, from, lineStart, i) && forall j: nat :: j < i ==> !Opens(d, from, lineStart, j)
    decreases |d| - from
  {
    FirstOpeningRange(d, from, lineStart);
    if from + 12 > |d| {
      if from <= i { assert !Stands(d, i, Start()); }
    } else {
      var next := d[from] == NEWLINE;
      if lineStart && Stands(d, from, Start()) {
        assert Opens(d, from, lineStart, from);
      } else {
        FirstOpeningIsLeast(d, from + 1, next, i);
        OpensLater(d, from, lineStart, next);
        assert Opens(d, from, lineStart, i) == Opens(d, from + 1, next, i);
      }
    }
  }

  lemma OpensLater(d: seq<int>, from: nat, lineStart: bool, next: bool)
    requires from < |d| && !(lineStart && Stands(d, from, Start())) && next == (d[from] == NEWLINE)
    ensures forall j: nat {:trigger Opens(d, from, lineStart, j)} {:trigger Opens(d, from + 1, next, j)} ::
      Opens(d, from, lineStart, j) == Opens(d, from + 1, next, j)
  {
  }

  lemma {:induction false} FirstEndIsLeast(d: seq<int>, from: nat, e: nat)
    ensures FirstEnd(d, from) == Some(e) <==>
      from <= e && Stands(d, e, End()) && forall j: nat :: from <= j < e ==> !Stands(d, j, End())
    decreases |d| - from
  {
    FirstEndRange(d, from);
    if from + 13 <= |d| {
      FirstEndIsLeast(d, from + 1, e);
    } else if from <= e {
      assert !Stands(d, e, End());
    }
  }

  /*------------------------------------------------------------------ the machine implements the grammar */

  lemma RunOne(maxBytes: nat, s: State, d: seq<int>, p: nat, q: nat)
    requires p < q <= |d|
    ensures var first := Step(maxBytes, s, d[p]);
      Run(maxBytes, s, d[p..q]) == (Run(maxBytes, first.0, d[p + 1..q]).0, first.1 + Run(maxBytes, first.0, d[p + 1..q]).1)
  {
    assert d[p..q] == [d[p]] + d[p + 1..q];
    RunAppend(maxBytes, s, [d[p]], d[p + 1..q]);
    assert [d[p]][..0] == [] && [] + Step(maxBytes, s, d[p]).1 == Step(maxBytes, s, d[p]).1;
  }

  lemma MarkerPrefix(d: seq<int>, from: nat, to: nat)
    requires from <= to <= |d| && to - from <= 12
    ensures Stands(d, from, Start()) || d[from..] < Start() ==> d[from..to] == Start()[..to - from]
  {
    if Stands(d, from, Start()) {
      StandsIsSlice(d, from, Start());
      assert d[from..to] == d[from..from + 12][..to - from];
    } else if d[from..] < Start() {
      assert d[from..to] == d[from..][..to - from];
    }
  }

  /** Inside a mismatched start marker no later position can be an opening or begin a marker. */
  lemma {:induction false} SkipPartial(d: seq<int>, from: nat, to: nat, lineStart: bool)
    requires from < to <= |d| && NEWLINE !in d[from..to - 1]
    requires lineStart ==> to - from <= 12 && d[from..to] != Start()[..to - from]
    ensures FirstOpening(d, from, lineStart) == FirstOpening(d, to, d[to - 1] == NEWLINE)
    ensures Trailing(d, from, lineStart) == Trailing(d, to, d[to - 1] == NEWLINE)
    decreases |d| - from
  {
    if lineStart {
      MarkerPrefix(d, from, to);
    }
    if from + 1 < to {
      assert d[from] == d[from..to - 1][0];
      assert d[from + 1..to - 1] == d[from..to - 1][1..];
      SkipPartial(d, from + 1, to, false);
    }
    if from + 12 > |d| { NoOpeningNearEnd(d, to, d[to - 1] == NEWLINE); }
  }

  lemma NoOpeningNearEnd(d: seq<int>, p: nat, lineStart: bool)
    requires p + 12 > |d|
    ensures FirstOpening(d, p, lineStart) == None
  {
  }

  lemma RunSilent(maxBytes: nat, s: State, d: seq<int>, p: nat, q: nat)
    requires p < q <= |d| && Step(maxBytes, s, d[p]).1 == []
    ensures Run(maxBytes, s, d[p..q]) == Run(maxBytes, Step(maxBytes, s, d[p]).0, d[p + 1..q])
  {
    RunOne(maxBytes, s, d, p, q);
    var rest := Run(maxBytes, Step(maxBytes, s, d[p]).0, d[p + 1..q]);
    assert [] + rest.1 == rest.1;
  }

  lemma RunLast(maxBytes: nat, s: State, d: seq<int>, p: nat)
    requires p < |d|
    ensures Run(maxBytes, s, d[p..p + 1]) == Step(maxBytes, s, d[p])
  {
    RunOne(maxBytes, s, d, p, p + 1);
    assert d[p + 1..p + 1] == [] && Step(maxBytes, s, d[p]).1 + [] == Step(maxBytes, s, d[p]).1;
  }

  function OutsideEnd(d: seq<int>, opening: Option<nat>): int {
    if opening.Some? then opening.value + 12 else |d|
  }

  function OutsideState(d: seq<int>, from: nat, lineStart: bool): State
    requires from <= |d|
  {
    if FirstOpening(d, from, lineStart).Some? then State([], true, false) else Trailing(d, from, lineStart)
  }

  /** Outside frames: having matched `k` bytes of a marker at `from`, the machine finds the first opening. */
  lemma {:induction false} OutsideRun(maxBytes: nat, d: seq<int>, from: nat, k: nat, lineStart: bool)
    requires from + k <= |d| && k < 12 && (!lineStart ==> k == 0) && d[from..from + k] == Start()[..k]
    ensures var end := OutsideEnd(d, FirstOpening(d, from, lineStart)); from + k <= end <= |d|
    ensures Run(maxBytes, State(Start()[..k], false, lineStart), d[from + k..OutsideEnd(d, FirstOpening(d, from, lineStart))])
         == (OutsideState(d, from, lineStart), [])
    decreases |d| - (from + k)
  {
    hide *;
    var p, s := from + k, State(Start()[..k], false, lineStart);
    if p == |d| {
      OutsideAtEnd(maxBytes, d, from, k, lineStart);
    } else if lineStart && d[p] == Start()[k] {
      MatchNext(maxBytes, d, from, k);
      if k == 11 {
        RunLast(maxBytes, s, d, p);
        OutsideUnfold(d, from, lineStart);
      } else {
        OutsideRun(maxBytes, d, from, k + 1, true);
        RunSilent(maxBytes, s, d, p, OutsideEnd(d, FirstOpening(d, from, lineStart)));
      }
    } else {
      if lineStart { Mismatch(maxBytes, d, from, k); } else { NextLine(maxBytes, d, from, k); }
      OutsideRun(maxBytes, d, p + 1, 0, d[p] == NEWLINE);
      OutsideUnfold(d, from, lineStart);
      OutsideUnfold(d, p + 1, d[p] == NEWLINE);
      assert d[p + 1 + 0..OutsideEnd(d, FirstOpening(d, from, lineStart))] == d[p + 1..OutsideEnd(d, FirstOpening(d, from, lineStart))];
      RunSilent(maxBytes, s, d, p, OutsideEnd(d, FirstOpening(d, from, lineStart)));
    }
  }

  lemma OutsideUnfold(d: seq<int>, from: nat, lineStart: bool)
    requires from <= |d|
    ensures OutsideState(d, from, lineStart)
         == if FirstOpening(d, from, lineStart).Some? then State([], true, false) else Trailing(d, from, lineStart)
    ensures OutsideEnd(d, FirstOpening(d, from, lineStart))
         == if FirstOpening(d, from, lineStart).Some? then FirstOpening(d, from, lineStart).value + 12 else |d|
    ensures Start()[..0] == []
  {
  }

  lemma OutsideAtEnd(maxBytes: nat, d: seq<int>, from: nat, k: nat, lineStart: bool)
    requires from + k == |d| && k < 12 && (!lineStart ==> k == 0) && d[from..from + k] == Start()[..k]
    ensures FirstOpening(d, from, lineStart) == None && OutsideEnd(d, None) == |d|
    ensures OutsideState(d, from, lineStart) == State(Start()[..k], false, lineStart)
    ensures Run(maxBytes, State(Start()[..k], false, lineStart), d[from + k..|d|]) == (OutsideState(d, from, lineStart), [])
  {
    assert d[from..] == d[from..from + k];
    assert d[from + k..|d|] == [];
  }

  lemma MatchNext(maxBytes: nat, d: seq<int>, from: nat, k: nat)
    requires from + k < |d| && k < 12 && d[from..from + k] == Start()[..k] && d[from + k] == Start()[k]
    ensures d[from..from + (k + 1)] == Start()[..k + 1]
    ensures Step(maxBytes, State(Start()[..k], false, true), d[from + k])
         == (if k == 11 then State([], true, false) else State(Start()[..k + 1], false, true), [])
    ensures k == 11 ==> FirstOpening(d, from, true) == Some(from) && OutsideEnd(d, Some(from)) == from + 12
  {
    hide FirstOpening;
    NextByte(d, Start(), from, k);
    if k == 11 { WholeMarker(d, from); }
  }

  lemma NextByte(d: seq<int>, start: seq<int>, from: nat, k: nat)
    requires from + k < |d| && k < |start| && d[from..from + k] == start[..k] && d[from + k] == start[k]
    ensures d[from..from + (k + 1)] == start[..k + 1] && start[..k] + [d[from + k]] == start[..k + 1]
    ensures k + 1 == |start| ==> start[..k + 1] == start
  {
  }

  lemma WholeMarker(d: seq<int>, from: nat)
    requires from + 12 <= |d| && d[from..from + 12] == Start()
    ensures FirstOpening(d, from, true) == Some(from) && OutsideEnd(d, Some(from)) == from + 12
  {
    StandsIsSlice(d, from, Start());
  }

  lemma NextLine(maxBytes: nat, d: seq<int>, from: nat, k: nat)
    requires from < |d| && k == 0
    ensures Step(maxBytes, State(Start()[..k], false, false), d[from]) == (State([], false, d[from] == NEWLINE), [])
    ensures FirstOpening(d, from, false) == FirstOpening(d, from + 1, d[from] == NEWLINE)
    ensures Trailing(d, from, false) == Trailing(d, from + 1, d[from] == NEWLINE)
  {
    if from + 12 > |d| { NoOpeningNearEnd(d, from + 1, d[from] == NEWLINE); }
  }

  lemma Mismatch(maxBytes: nat, d: seq<int>, from: nat, k: nat)
    requires from + k < |d| && k < 12 && d[from..from + k] == Start()[..k] && d[from + k] != Start()[k]
    ensures var p := from + k;
      && Step(maxBytes, State(Start()[..k], false, true), d[p]) == (State([], false, d[p] == NEWLINE), [])
      && FirstOpening(d, from, true) == FirstOpening(d, p + 1, d[p] == NEWLINE)
      && Trailing(d, from, true) == Trailing(d, p + 1, d[p] == NEWLINE)
  {
    hide FirstOpening, Trailing;
    var p, start := from + k, Start();
    OtherByte(d, start, from, k);
    SkipPartial(d, from, p + 1, true);
  }

  /** A byte that does not continue the marker: what was read is not a beginning of it. */
  lemma OtherByte(d: seq<int>, start: seq<int>, from: nat, k: nat)
    requires from + k < |d| && k < |start| && d[from..from + k] == start[..k] && d[from + k] != start[k]
    ensures d[from..from + k + 1] == start[..k] + [d[from + k]]
    ensures !(start[..k] + [d[from + k]] <= start) && d[from..from + k + 1] != start[..k + 1]
  {
    var buffer := start[..k] + [d[from + k]];
    assert buffer[k] == d[from + k] != start[k];
    assert start[..k + 1][k] == start[k];
  }

  /*------------------------------------------------------------------ inside a frame */

  /** No end marker lies inside the frame content read so far. */
  predicate NoEndYet(d: seq<int>, f: nat, p: nat) {
    forall j: nat :: f <= j && j + 13 <= p ==> !Stands(d, j, End())
  }

  /** Where a frame's content stops, what it yields and the state after it. */
  function FrameOutcome(maxBytes: nat, d: seq<int>, f: nat): (int, State, seq<Frame>)
    requires f <= |d|
  {
    FirstEndRange(d, f);
    var e := FirstEnd(d, f);
    if e.Some? && e.value - f + 12 <= maxBytes then (e.value + 13, State([], false, false), [Complete(d[f..e.value])])
    else if |d| - f > maxBytes then (f + maxBytes + 1, State([], false, false), [TooLarge(d[f..f + maxBytes + 1])])
    else (|d|, State(d[f..], true, false), [])
  }

  lemma EndsHere(d: seq<int>, f: nat, q: nat)
    requires f <= q <= |d|
    ensures EndsWith(d[f..q], End()) <==> f + 13 <= q && Stands(d, q - 13, End())
  {
    if f + 13 <= q {
      StandsIsSlice(d, q - 13, End());
      assert d[f..q][|d[f..q]| - 13..] == d[q - 13..q];
    }
  }

  lemma {:induction false} FrameRun(maxBytes: nat, d: seq<int>, f: nat, p: nat)
    requires f <= p <= |d| && p - f <= maxBytes && NoEndYet(d, f, p)
    ensures p <= FrameOutcome(maxBytes, d, f).0 <= |d|
    ensures Run(maxBytes, State(d[f..p], true, false), d[p..FrameOutcome(maxBytes, d, f).0])
         == (FrameOutcome(maxBytes, d, f).1, FrameOutcome(maxBytes, d, f).2)
    decreases |d| - p
  {
    hide *;
    var s := State(d[f..p], true, false);
    if p == |d| {
      FrameAtEnd(maxBytes, d, f, p);
    } else if p - f == maxBytes || EndsWith(d[f..p + 1], End()) {
      FrameCloses(maxBytes, d, f, p);
      RunLast(maxBytes, s, d, p);
    } else {
      FrameGoesOn(maxBytes, d, f, p);
      FrameRun(maxBytes, d, f, p + 1);
      RunSilent(maxBytes, s, d, p, FrameOutcome(maxBytes, d, f).0);
    }
  }

  lemma FrameAtEnd(maxBytes: nat, d: seq<int>, f: nat, p: nat)
    requires f <= p == |d| && p - f <= maxBytes && NoEndYet(d, f, p)
    ensures FrameOutcome(maxBytes, d, f) == (|d|, State(d[f..p], true, false), [])
    ensures Run(maxBytes, State(d[f..p], true, false), d[p..|d|]) == (State(d[f..p], true, false), [])
  {
    FirstEndRange(d, f);
    if FirstEnd(d, f).Some? { FirstEndIsLeast(d, f, FirstEnd(d, f).value); }
    assert d[f..p] == d[f..] && d[p..|d|] == [];
  }

  lemma FrameCloses(maxBytes: nat, d: seq<int>, f: nat, p: nat)
    requires f <= p < |d| && p - f <= maxBytes && NoEndYet(d, f, p)
    requires p - f == maxBytes || EndsWith(d[f..p + 1], End())
    ensures FrameOutcome(maxBytes, d, f).0 == p + 1
    ensures Step(maxBytes, State(d[f..p], true, false), d[p]) == (FrameOutcome(maxBytes, d, f).1, FrameOutcome(maxBytes, d, f).2)
  {
    hide FrameOutcome, EndsWith, NoEndYet;
    assert d[f..p] + [d[p]] == d[f..p + 1];
    if EndsWith(d[f..p + 1], End()) {
      EndCloses(maxBytes, d, f, p);
      assert d[f..p + 1][..p - 12 - f] == d[f..p - 12];
    } else {
      LimitCloses(maxBytes, d, f, p);
    }
  }

  lemma EndCloses(maxBytes: nat, d: seq<int>, f: nat, p: nat)
    requires f <= p < |d| && p - f <= maxBytes && NoEndYet(d, f, p) && EndsWith(d[f..p + 1], End())
    ensures f + 12 <= p && FrameOutcome(maxBytes, d, f) == (p + 1, State([], false, false), [Complete(d[f..p - 12])])
  {
    EndsHere(d, f, p + 1);
    hide EndsWith;
    FirstEndIsLeast(d, f, p - 12);
  }

  lemma LimitCloses(maxBytes: nat, d: seq<int>, f: nat, p: nat)
    requires f <= p < |d| && p - f == maxBytes && NoEndYet(d, f, p) && !EndsWith(d[f..p + 1], End())
    ensures FrameOutcome(maxBytes, d, f) == (p + 1, State([], false, false), [TooLarge(d[f..p + 1])])
  {
    NoEndWithin(maxBytes, d, f, p);
    hide EndsWith, NoEndYet, FirstEnd;
    FirstEndRange(d, f);
  }

  /** The first end marker, if any, is too late for the limit. */
  lemma NoEndWithin(maxBytes: nat, d: seq<int>, f: nat, p: nat)
    requires f <= p < |d| && p - f == maxBytes && NoEndYet(d, f, p) && !EndsWith(d[f..p + 1], End())
    ensures FirstEnd(d, f).Some? ==> FirstEnd(d, f).value - f + 12 > maxBytes
  {
    EndsHere(d, f, p + 1);
    hide EndsWith, FirstEnd;
    if FirstEnd(d, f).Some? { FirstEndIsLeast(d, f, FirstEnd(d, f).value); }
  }

  lemma FrameGoesOn(maxBytes: nat, d: seq<int>, f: nat, p: nat)
    requires f <= p < |d| && p - f < maxBytes && NoEndYet(d, f, p) && !EndsWith(d[f..p + 1], End())
    ensures NoEndYet(d, f, p + 1)
    ensures Step(maxBytes, State(d[f..p], true, false), d[p]) == (State(d[f..p + 1], true, false), [])
  {
    EndsHere(d, f, p + 1);
    assert d[f..p] + [d[p]] == d[f..p + 1];
  }

  /*------------------------------------------------------------------ whole streams */

  lemma RunThrough(maxBytes: nat, s: State, d: seq<int>, p: nat, q: nat)
    requires p <= q <= |d|
    ensures Run(maxBytes, s, d[p..]) ==
      (Run(maxBytes, Run(maxBytes, s, d[p..q]).0, d[q..]).0,
       Run(maxBytes, s, d[p..q]).1 + Run(maxBytes, Run(maxBytes, s, d[p..q]).0, d[q..]).1)
  {
    assert d[p..] == d[p..q] + d[q..];
    RunAppend(maxBytes, s, d[p..q], d[q..]);
  }

  /** The machine computes the grammar: frames and final state alike. */
  lemma {:induction false} MachineIsGrammar(maxBytes: nat, d: seq<int>, from: nat, lineStart: bool)
    requires from <= |d|
    ensures Run(maxBytes, State([], false, lineStart), d[from..]) == Parse(maxBytes, d, from, lineStart)
    decreases |d| - from
  {
    hide *;
    var s, opening := State([], false, lineStart), FirstOpening(d, from, lineStart);
    OutsideUnfold(d, from, lineStart);
    OutsideRun(maxBytes, d, from, 0, lineStart);
    assert d[from + 0..OutsideEnd(d, opening)] == d[from..OutsideEnd(d, opening)];
    ParseUnfold(maxBytes, d, from, lineStart);
    if opening.None? {
      assert d[from..|d|] == d[from..];
    } else {
      var f := opening.value + 12;
      RunThrough(maxBytes, s, d, from, f);
      FrameFollows(maxBytes, d, f);
      var rest := Run(maxBytes, State([], true, false), d[f..]).1;
      assert [] + rest == rest;
      if !FrameOutcome(maxBytes, d, f).1.inFrame {
        MachineIsGrammar(maxBytes, d, FrameOutcome(maxBytes, d, f).0, false);
      }
    }
  }

  lemma ParseUnfold(maxBytes: nat, d: seq<int>, from: nat, lineStart: bool)
    requires from <= |d|
    ensures var opening := FirstOpening(d, from, lineStart);
      if opening.None? then Parse(maxBytes, d, from, lineStart) == (Trailing(d, from, lineStart), [])
      else
        && from < opening.value + 12 <= |d|
        && var o := FrameOutcome(maxBytes, d, opening.value + 12);
        && opening.value + 12 <= o.0 <= |d|
        && Parse(maxBytes, d, from, lineStart) ==
           if o.1.inFrame then (o.1, [])
           else (Parse(maxBytes, d, o.0, false).0, o.2 + Parse(maxBytes, d, o.0, false).1)
  {
    hide FirstOpening, Trailing, FirstEnd;
    FirstOpeningRange(d, from, lineStart);
    if FirstOpening(d, from, lineStart).Some? { FrameInRange(maxBytes, d, FirstOpening(d, from, lineStart).value + 12); }
  }

  lemma FrameInRange(maxBytes: nat, d: seq<int>, f: nat)
    requires f <= |d|
    ensures f <= FrameOutcome(maxBytes, d, f).0 <= |d|
  {
    hide FirstEnd;
    FirstEndRange(d, f);
  }

  lemma FrameFollows(maxBytes: nat, d: seq<int>, f: nat)
    requires f <= |d|
    ensures var o := FrameOutcome(maxBytes, d, f);
      && f <= o.0 <= |d|
      && (!o.1.inFrame ==> o.1 == State([], false, false))
      && Run(maxBytes, State([], true, false), d[f..])
         == if o.1.inFrame then (o.1, [])
            else (Run(maxBytes, o.1, d[o.0..]).0, o.2 + Run(maxBytes, o.1, d[o.0..]).1)
  {
    FrameRun(maxBytes, d, f, f);
    assert d[f..f] == [];
    var o := FrameOutcome(maxBytes, d, f);
    RunThrough(maxBytes, State([], true, false), d, f, o.0);
    if o.1.inFrame {
      assert d[|d|..] == [];
    }
  }

  /** A fresh parser fed any chunks yields exactly the frames of the stream they make up. */
  lemma StreamTheorem(maxBytes: nat, pieces: seq<seq<int>>)
    ensures RunPieces(maxBytes, Initial(), pieces) == Parse(maxBytes, Concat(pieces), 0, true)
  {
    ChunkingIsUnobservable(maxBytes, Initial(), pieces);
    MachineIsGrammar(maxBytes, Concat(pieces), 0, true);
    assert Concat(pieces)[0..] == Concat(pieces);
  }
}
