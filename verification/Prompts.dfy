/**
 Protected context and the retirement planner (dmn/prompts.py).

 Positions are indices into the one persistent token sequence.  A position is
 protected when it lies in the permanent prefix or in one of the named spans;
 everything else may be retired, oldest first.
 */
module Prompts {
  import opened Wrappers

  datatype Key =
    | Protocol | Agreement | Activity
    | Learning | Conversations | Web | WorkingGuidance
    | WorkingNote | WorkingRaw

  const PROTECTED_SPANS: seq<Key> :=
    [Protocol, Agreement, Activity, Learning, Conversations, Web, WorkingGuidance, WorkingNote, WorkingRaw]

  datatype Span = Span(start: int, end: int)

  /** A retirement step: `count` tokens leave from `start`, in the coordinates current at that step. */
  datatype Range = Range(start: int, count: int)

  datatype Mark = Unset | At(position: int) | Invalidated

  /** The part of the runtime state that positions refer to. */
  datatype State = State(keepPrefix: int, spans: map<Key, Span>, mark: Mark)

  datatype Error =
    | InvalidPrefix | InvalidSpans | InvalidSuffix | NoUsableContext
    | RemovesProtected | InvalidWindow | BreaksWindow

  /*------------------------------------------------------------------ specification */

  predicate In(s: Span, p: int) {
    s.start <= p < s.end
  }

  ghost predicate Protected(st: State, exclude: set<Key>, p: int) {
    0 <= p < st.keepPrefix || exists k :: k in st.spans && k !in exclude && In(st.spans[k], p)
  }

  predicate Fits(s: Span, length: int) {
    0 <= s.start < s.end <= length
  }

  ghost predicate SpansFit(st: State, length: int, exclude: set<Key>) {
    forall k :: k in st.spans && k !in exclude ==> Fits(st.spans[k], length)
  }

  ghost predicate WellFormed(st: State, length: int, exclude: set<Key>) {
    0 <= st.keepPrefix <= length && SpansFit(st, length, exclude)
  }

  ghost predicate AllFit(spans: seq<Span>, length: int) {
    forall i :: 0 <= i < |spans| ==> Fits(spans[i], length)
  }

  /** Nonempty, ascending and neither overlapping nor touching. */
  ghost predicate Canonical(rs: seq<Span>) {
    && (forall i :: 0 <= i < |rs| ==> rs[i].start < rs[i].end)
    && (forall i, j :: 0 <= i < j < |rs| ==> rs[i].end < rs[j].start)
  }

  ghost predicate Covered(rs: seq<Span>, p: int) {
    exists i :: 0 <= i < |rs| && In(rs[i], p)
  }

  /** The unprotected positions below `h`, ascending. */
  ghost function Free(st: State, h: int): seq<int>
    decreases h
  {
    if h <= 0 then [] else Free(st, h - 1) + (if Protected(st, {}, h - 1) then [] else [h - 1])
  }

  lemma {:induction false} FreeIsExact(st: State, h: int, p: int)
    ensures p in Free(st, h) <==> 0 <= p < h && !Protected(st, {}, p)
    decreases h
  {
    if h > 0 {
      FreeIsExact(st, h - 1, p);
    }
  }

  lemma {:induction false} FreeAscends(st: State, h: int)
    ensures forall i :: 0 <= i < |Free(st, h)| ==> 0 <= Free(st, h)[i] < h
    ensures forall i, j :: 0 <= i < j < |Free(st, h)| ==> Free(st, h)[i] < Free(st, h)[j]
    decreases h
  {
    if h > 0 {
      FreeAscends(st, h - 1);
    }
  }

  /** Length of the run of consecutive numbers that opens `f`, counted from index `i`. */
  function RunFrom(f: seq<int>, i: nat): nat
    requires 0 < i <= |f|
    decreases |f| - i
  {
    if i < |f| && f[i] == f[i - 1] + 1 then RunFrom(f, i + 1) else i
  }

  function FirstRun(f: seq<int>): nat {
    if f == [] then 0 else RunFrom(f, 1)
  }

  function Needed(length: int, required: int, reserve: int, notice: int, capacity: int): int {
    Max(1, length + required + reserve + notice + 256 - capacity)
  }

  /** How many positions one retirement takes: half the oldest gap, or what is needed. */
  ghost function Quota(free: seq<int>, needed: int): int {
    Max((FirstRun(free) + 1) / 2, needed)
  }

  function Total(ranges: seq<Range>): int {
    if ranges == [] then 0 else ranges[0].count + Total(ranges[1..])
  }

  predicate Positive(ranges: seq<Range>) {
    forall i :: 0 <= i < |ranges| ==> ranges[i].count > 0
  }

  /** The positions a plan deletes, in the coordinates before its first step. */
  function Expand(ranges: seq<Range>, removed: int): seq<int>
    requires Positive(ranges)
  {
    if ranges == [] then []
    else Interval(ranges[0].start + removed, ranges[0].count) + Expand(ranges[1..], removed + ranges[0].count)
  }

  /*------------------------------------------------------------------ protected_ranges */

  predicate Before(a: Span, b: Span) {
    a.start < b.start || (a.start == b.start && a.end <= b.end)
  }

  ghost predicate Sorted(s: seq<Span>) {
    forall i, j :: 0 <= i < j < |s| ==> s[i].start <= s[j].start
  }

  function Insert(x: Span, s: seq<Span>): (r: seq<Span>)
    requires Sorted(s)
    ensures Sorted(r)
    ensures forall y :: y in r <==> y == x || y in s
  {
    if s == [] || Before(x, s[0]) then [x] + s
    else
      var rest := Insert(x, s[1..]);
      assert forall y :: y in s <==> y == s[0] || y in s[1..];
      assert forall i :: 0 <= i < |rest| ==> rest[i] in rest;
      [s[0]] + rest
  }

  /** Python's `sorted` on (start, end) pairs. */
  function SortSpans(s: seq<Span>): (r: seq<Span>)
    ensures Sorted(r)
    ensures forall y :: y in r <==> y in s
  {
    if s == [] then [] else Insert(s[0], SortSpans(s[1..]))
  }

  lemma EveryKeyListed(k: Key)
    ensures k in PROTECTED_SPANS
  {
    match k
    case Protocol => assert PROTECTED_SPANS[0] == k;
    case Agreement => assert PROTECTED_SPANS[1] == k;
    case Activity => assert PROTECTED_SPANS[2] == k;
    case Learning => assert PROTECTED_SPANS[3] == k;
    case Conversations => assert PROTECTED_SPANS[4] == k;
    case Web => assert PROTECTED_SPANS[5] == k;
    case WorkingGuidance => assert PROTECTED_SPANS[6] == k;
    case WorkingNote => assert PROTECTED_SPANS[7] == k;
    case WorkingRaw => assert PROTECTED_SPANS[8] == k;
  }

  /** Collect the prefix and every listed span, refusing any that does not fit. */
  method CollectSpans(st: State, length: int, exclude: set<Key>) returns (r: Result<seq<Span>, Error>)
    ensures r.Ok? <==> WellFormed(st, length, exclude)
    ensures r.Ok? ==> AllFit(r.value, length)
    ensures r.Ok? ==> forall p :: Covered(r.value, p) <==> Protected(st, exclude, p)
  {
    if !(0 <= st.keepPrefix <= length) {
      return Err(InvalidPrefix);
    }
    var spans := if st.keepPrefix > 0 then [Span(0, st.keepPrefix)] else [];
    var n := 0;
    ghost var seen: set<Key> := {};
    while n < |PROTECTED_SPANS|
      invariant 0 <= n <= |PROTECTED_SPANS|
      invariant forall k :: k in seen <==> k in PROTECTED_SPANS[..n]
      invariant forall k :: k in seen && k in st.spans && k !in exclude ==> Fits(st.spans[k], length)
      invariant forall i :: 0 <= i < |spans| ==> Fits(spans[i], length)
      invariant forall s :: s in spans ==>
        s == Span(0, st.keepPrefix) || exists k :: k in st.spans && k !in exclude && s == st.spans[k]
      invariant st.keepPrefix > 0 ==> Span(0, st.keepPrefix) in spans
      invariant forall k :: k in seen && k in st.spans && k !in exclude ==> st.spans[k] in spans
    {
      var key := PROTECTED_SPANS[n];
      if key in st.spans && key !in exclude {
        if !Fits(st.spans[key], length) {
          return Err(InvalidSpans);
        }
        spans := spans + [st.spans[key]];
      }
      seen := seen + {key};
      n := n + 1;
    }
    forall k: Key ensures k in seen {
      EveryKeyListed(k);
    }
    forall p ensures Covered(spans, p) <==> Protected(st, exclude, p) {
      if Protected(st, exclude, p) {
        if 0 <= p < st.keepPrefix {
          CoveredBy(spans, Span(0, st.keepPrefix), p);
        } else {
          var k :| k in st.spans && k !in exclude && In(st.spans[k], p);
          CoveredBy(spans, st.spans[k], p);
        }
      }
      if Covered(spans, p) {
        var i :| 0 <= i < |spans| && In(spans[i], p);
        assert spans[i] in spans;
      }
    }
    return Ok(spans);
  }

  lemma CoveredBy(rs: seq<Span>, s: Span, p: int)
    requires s in rs && In(s, p)
    ensures Covered(rs, p)
  {
    var i :| 0 <= i < |rs| && rs[i] == s;
    assert In(rs[i], p);
  }

  lemma CoveredSame(a: seq<Span>, b: seq<Span>)
    requires forall y :: y in a <==> y in b
    ensures forall p :: Covered(a, p) <==> Covered(b, p)
  {
    forall p ensures Covered(a, p) <==> Covered(b, p) {
      if Covered(a, p) { var i :| 0 <= i < |a| && In(a[i], p); CoveredBy(b, a[i], p); }
      if Covered(b, p) { var i :| 0 <= i < |b| && In(b[i], p); CoveredBy(a, b[i], p); }
    }
  }

  lemma CoveredAppend(rs: seq<Span>, s: Span, p: int)
    ensures Covered(rs + [s], p) <==> Covered(rs, p) || In(s, p)
  {
    var t := rs + [s];
    if Covered(rs, p) { var i :| 0 <= i < |rs| && In(rs[i], p); assert In(t[i], p); }
    if In(s, p) { assert In(t[|rs|], p); }
  }

  /** One pass of the merge loop: widen the last interval or open a new one. */
  function Absorb(merged: seq<Span>, s: Span): (r: seq<Span>) {
    if merged != [] && s.start <= merged[|merged| - 1].end then
      var last := merged[|merged| - 1];
      merged[..|merged| - 1] + [Span(last.start, Max(last.end, s.end))]
    else
      merged + [s]
  }

  lemma AbsorbCovers(merged: seq<Span>, s: Span, p: int)
    requires Canonical(merged) && s.start < s.end
    requires merged != [] ==> merged[|merged| - 1].start <= s.start
    ensures Covered(Absorb(merged, s), p) <==> Covered(merged, p) || In(s, p)
  {
    if merged != [] && s.start <= merged[|merged| - 1].end {
      var front, last := merged[..|merged| - 1], merged[|merged| - 1];
      assert merged == front + [last];
      CoveredAppend(front, last, p);
      CoveredAppend(front, Span(last.start, Max(last.end, s.end)), p);
    } else {
      CoveredAppend(merged, s, p);
    }
  }

  function MergeAll(spans: seq<Span>): seq<Span> {
    if spans == [] then [] else Absorb(MergeAll(spans[..|spans| - 1]), spans[|spans| - 1])
  }

  lemma AbsorbCanonical(merged: seq<Span>, s: Span, length: int)
    requires Canonical(merged) && AllFit(merged, length) && Fits(s, length)
    requires merged != [] ==> merged[|merged| - 1].start <= s.start
    ensures Canonical(Absorb(merged, s)) && AllFit(Absorb(merged, s), length)
    ensures var m := Absorb(merged, s); m != [] && m[|m| - 1].start <= s.start
  {
    if merged != [] && s.start <= merged[|merged| - 1].end {
      var last := merged[|merged| - 1];
      CanonicalGrows(merged, Span(last.start, Max(last.end, s.end)), length);
    } else {
      CanonicalAppend(merged, s, length);
    }
  }

  lemma CanonicalGrows(merged: seq<Span>, s: Span, length: int)
    requires merged != [] && Canonical(merged) && AllFit(merged, length) && Fits(s, length) && s.start == merged[|merged| - 1].start
    ensures Canonical(merged[..|merged| - 1] + [s]) && AllFit(merged[..|merged| - 1] + [s], length)
  {
  }

  lemma CanonicalAppend(merged: seq<Span>, s: Span, length: int)
    requires Canonical(merged) && AllFit(merged, length) && Fits(s, length)
    requires merged != [] ==> merged[|merged| - 1].end < s.start
    ensures Canonical(merged + [s]) && AllFit(merged + [s], length)
  {
  }

  lemma {:induction false} MergeAllCanonical(spans: seq<Span>, length: int)
    requires Sorted(spans) && AllFit(spans, length)
    ensures Canonical(MergeAll(spans)) && AllFit(MergeAll(spans), length)
    ensures var m := MergeAll(spans); m != [] ==> spans != [] && m[|m| - 1].start <= spans[|spans| - 1].start
  {
    MergeAllUnfold(spans);
    if spans != [] {
      hide MergeAll, Absorb, Canonical, Sorted, AllFit;
      var front, s := spans[..|spans| - 1], spans[|spans| - 1];
      SortedFront(spans, length);
      MergeAllCanonical(front, length);
      AbsorbCanonical(MergeAll(front), s, length);
    }
  }

  lemma SortedFront(spans: seq<Span>, length: int)
    requires Sorted(spans) && AllFit(spans, length) && spans != []
    ensures var front, s := spans[..|spans| - 1], spans[|spans| - 1];
      && Sorted(front) && AllFit(front, length) && Fits(s, length)
      && (front != [] ==> front[|front| - 1].start <= s.start)
  {
  }

  lemma MergeAllUnfold(spans: seq<Span>)
    ensures spans == [] ==> MergeAll(spans) == []
    ensures spans != [] ==> MergeAll(spans) == Absorb(MergeAll(spans[..|spans| - 1]), spans[|spans| - 1])
  {
  }

  lemma {:induction false} MergeAllCovers(spans: seq<Span>, length: int, p: int)
    requires Sorted(spans) && AllFit(spans, length)
    ensures Covered(MergeAll(spans), p) <==> Covered(spans, p)
  {
    if spans != [] {
      var front, s := spans[..|spans| - 1], spans[|spans| - 1];
      MergeAllCanonical(front, length);
      MergeAllCovers(front, length, p);
      AbsorbCovers(MergeAll(front), s, p);
      assert spans == front + [s];
      CoveredAppend(front, s, p);
    }
  }

  method ProtectedRanges(st: State, length: int, exclude: set<Key>) returns (r: Result<seq<Span>, Error>)
    ensures r.Ok? <==> WellFormed(st, length, exclude)
    ensures r.Ok? ==> Canonical(r.value)
    ensures r.Ok? ==> forall p :: Covered(r.value, p) <==> Protected(st, exclude, p)
    ensures r.Ok? ==> AllFit(r.value, length)
  {
    var collected := CollectSpans(st, length, exclude);
    if collected.Err? {
      return Err(collected.error);
    }
    var spans := SortSpans(collected.value);
    var merged: seq<Span> := [];
    var n := 0;
    while n < |spans|
      invariant 0 <= n <= |spans|
      invariant merged == MergeAll(spans[..n])
    {
      assert spans[..n + 1][..n] == spans[..n];
      merged := Absorb(merged, spans[n]);
      n := n + 1;
    }
    assert spans[..n] == spans;
    assert forall i :: 0 <= i < |spans| ==> spans[i] in collected.value;
    MergeAllCanonical(spans, length);
    CoveredSame(spans, collected.value);
    forall p ensures Covered(merged, p) <==> Protected(st, exclude, p) {
      MergeAllCovers(spans, length, p);
    }
    return Ok(merged);
  }

  /** Canonical lists are a normal form: equal coverage means equal lists. */
  lemma {:induction false} CanonicalUnique(a: seq<Span>, b: seq<Span>)
    requires Canonical(a) && Canonical(b)
    requires forall p :: Covered(a, p) <==> Covered(b, p)
    ensures a == b
    decreases |a|
  {
    if a == [] {
      if b != [] { HeadCovered(b); }
    } else {
      HeadCovered(a);
      assert b != [];
      FirstSpan(a, b);
      FirstSpan(b, a);
      forall p ensures Covered(a[1..], p) <==> Covered(b[1..], p) {
        TailCoverage(a, p);
        TailCoverage(b, p);
      }
      CanonicalUnique(a[1..], b[1..]);
      assert a == [a[0]] + a[1..] && b == [b[0]] + b[1..];
    }
  }

  lemma HeadCovered(a: seq<Span>)
    requires Canonical(a) && a != []
    ensures Covered(a, a[0].start)
  {
    assert In(a[0], a[0].start);
  }

  lemma TailCoverage(a: seq<Span>, p: int)
    requires a != [] && Canonical(a)
    ensures Covered(a[1..], p) <==> Covered(a, p) && p >= a[0].end
  {
    if Covered(a, p) && p >= a[0].end {
      var i :| 0 <= i < |a| && In(a[i], p);
      assert In(a[1..][i - 1], p);
    }
    if Covered(a[1..], p) {
      var i :| 0 <= i < |a[1..]| && In(a[1..][i], p);
      assert In(a[i + 1], p);
    }
  }

  lemma FirstSpan(a: seq<Span>, b: seq<Span>)
    requires a != [] && b != [] && Canonical(a) && Canonical(b)
    requires forall p :: Covered(a, p) <==> Covered(b, p)
    ensures a[0] == b[0]
  {
    assert In(a[0], a[0].start) && Covered(a, a[0].start);
    assert In(b[0], b[0].start) && Covered(b, b[0].start);
    var i :| 0 <= i < |a| && In(a[i], b[0].start);
    var j :| 0 <= j < |b| && In(b[j], a[0].start);
    assert a[0].start == b[0].start;
    GapAfterFirst(a);
    GapAfterFirst(b);
    assert forall i :: 0 <= i < |b| ==> !In(b[i], a[0].end);
    assert forall i :: 0 <= i < |a| ==> !In(a[i], b[0].end);
    assert !In(b[0], a[0].end) && !In(a[0], b[0].end);
  }

  lemma GapAfterFirst(a: seq<Span>)
    requires a != [] && Canonical(a)
    ensures !Covered(a, a[0].end)
  {
  }

  /*------------------------------------------------------------------ protected_size */

  ghost function CoveredSet(rs: seq<Span>, length: int): set<int> {
    set p | 0 <= p < length && Covered(rs, p)
  }

  ghost function SpanSet(s: Span): set<int> {
    set p | s.start <= p < s.end && In(s, p)
  }

  lemma {:induction false} SpanSize(s: Span)
    requires s.start <= s.end
    ensures |SpanSet(s)| == s.end - s.start
    decreases s.end - s.start
  {
    if s.start == s.end {
      assert SpanSet(s) == {};
    } else {
      var fewer := Span(s.start, s.end - 1);
      SpanSize(fewer);
      assert SpanSet(s) == SpanSet(fewer) + {s.end - 1};
    }
  }

  function Sum(rs: seq<Span>): int {
    if rs == [] then 0 else Sum(rs[..|rs| - 1]) + rs[|rs| - 1].end - rs[|rs| - 1].start
  }

  lemma CoveredSetAppend(front: seq<Span>, last: Span, length: int)
    requires Fits(last, length)
    requires forall i :: 0 <= i < |front| ==> front[i].end <= last.start
    ensures |CoveredSet(front + [last], length)| == |CoveredSet(front, length)| + |SpanSet(last)|
  {
    forall p ensures Covered(front + [last], p) <==> Covered(front, p) || In(last, p) {
      CoveredAppend(front, last, p);
    }
    assert CoveredSet(front, length) !! SpanSet(last);
    assert CoveredSet(front + [last], length) == CoveredSet(front, length) + SpanSet(last);
  }

  lemma {:induction false} SumIsCardinality(rs: seq<Span>, length: int)
    requires Canonical(rs) && AllFit(rs, length)
    ensures Sum(rs) == |CoveredSet(rs, length)|
  {
    if rs == [] {
      assert CoveredSet(rs, length) == {};
    } else {
      var front, last := rs[..|rs| - 1], rs[|rs| - 1];
      FrontCanonical(rs, length);
      SumIsCardinality(front, length);
      SpanSize(last);
      CoveredSetAppend(front, last, length);
      assert front + [last] == rs;
    }
  }

  lemma FrontCanonical(rs: seq<Span>, length: int)
    requires rs != [] && Canonical(rs) && AllFit(rs, length)
    ensures var front, last := rs[..|rs| - 1], rs[|rs| - 1];
      && Canonical(front) && AllFit(front, length) && Fits(last, length)
      && forall i :: 0 <= i < |front| ==> front[i].end <= last.start
  {
  }

  ghost function ProtectedSet(st: State, length: int, exclude: set<Key>): set<int> {
    set p | 0 <= p < length && Protected(st, exclude, p)
  }

  /** Overlapping protection is counted once: the size is the number of protected positions. */
  method ProtectedSize(st: State, length: int, exclude: set<Key>) returns (r: Result<int, Error>)
    ensures r.Ok? <==> WellFormed(st, length, exclude)
    ensures r.Ok? ==> r.value == |ProtectedSet(st, length, exclude)|
  {
    var ranges := ProtectedRanges(st, length, exclude);
    if ranges.Err? {
      return Err(ranges.error);
    }
    var total, n := 0, 0;
    while n < |ranges.value|
      invariant 0 <= n <= |ranges.value|
      invariant total == Sum(ranges.value[..n])
    {
      assert ranges.value[..n + 1][..n] == ranges.value[..n];
      total := total + ranges.value[n].end - ranges.value[n].start;
      n := n + 1;
    }
    assert ranges.value[..n] == ranges.value;
    SumIsCardinality(ranges.value, length);
    assert CoveredSet(ranges.value, length) == ProtectedSet(st, length, exclude);
    return Ok(total);
  }

  /*------------------------------------------------------------------ retirement_ranges */

  lemma {:induction false} FreeOpen(st: State, a: int, b: int)
    requires 0 <= a <= b
    requires forall p :: a <= p < b ==> !Protected(st, {}, p)
    ensures Free(st, b) == Free(st, a) + Interval(a, b - a)
    decreases b
  {
    if a < b {
      FreeOpen(st, a, b - 1);
      assert Interval(a, b - a) == Interval(a, b - 1 - a) + [b - 1];
    }
  }

  lemma {:induction false} FreeShut(st: State, a: int, b: int)
    requires 0 <= a <= b
    requires forall p :: a <= p < b ==> Protected(st, {}, p)
    ensures Free(st, b) == Free(st, a)
    decreases b
  {
    if a < b {
      FreeShut(st, a, b - 1);
    }
  }

  /** The gap, if any, that opens at `cursor` and is cut at `end`. */
  function Gap(cursor: int, end: int): seq<Range> {
    if end > cursor then [Range(cursor, end - cursor)] else []
  }

  /** The positions of gaps given in original coordinates. */
  function Positions(gaps: seq<Range>): seq<int>
    requires Positive(gaps)
  {
    if gaps == [] then [] else Interval(gaps[0].start, gaps[0].count) + Positions(gaps[1..])
  }

  lemma {:induction false} PositionsAppend(a: seq<Range>, b: seq<Range>)
    requires Positive(a) && Positive(b)
    ensures Positive(a + b) && Positions(a + b) == Positions(a) + Positions(b)
  {
    if a == [] {
      assert a + b == b;
    } else {
      PositionsOf(a);
      TailOfConcat(a, b);
      PositionsOf(a + b);
      hide Positions;
      PositionsAppend(a[1..], b);
      ConcatAssoc(Interval(a[0].start, a[0].count), Positions(a[1..]), Positions(b));
    }
  }

  lemma PositionsOf(gaps: seq<Range>)
    requires Positive(gaps) && gaps != []
    ensures Positions(gaps) == Interval(gaps[0].start, gaps[0].count) + Positions(gaps[1..])
  {
  }

  lemma TailOfConcat(a: seq<Range>, b: seq<Range>)
    requires a != [] && Positive(a) && Positive(b)
    ensures (a + b)[0] == a[0] && (a + b)[1..] == a[1..] + b && Positive(a + b)
  {
  }

  lemma OneGap(cursor: int, end: int)
    ensures Positive(Gap(cursor, end))
    ensures Positions(Gap(cursor, end)) == if end > cursor then Interval(cursor, end - cursor) else []
  {
    if end > cursor {
      assert Gap(cursor, end)[1..] == [];
    }
  }

  ghost predicate Describes(rs: seq<Span>, st: State, length: int) {
    && Canonical(rs) && AllFit(rs, length)
    && forall p :: Covered(rs, p) <==> Protected(st, {}, p)
  }

  function CursorAt(rs: seq<Span>, n: nat): int
    requires n <= |rs|
  {
    if n == 0 then 0 else rs[n - 1].end
  }

  /** Walking past protected interval `n` adds exactly the gap before it to the free positions. */
  lemma FreeThrough(rs: seq<Span>, st: State, length: int, n: nat, limit: int)
    requires Describes(rs, st, length) && n < |rs| && 0 <= limit
    ensures Free(st, Min(rs[n].end, limit))
         == Free(st, Min(CursorAt(rs, n), limit)) + Positions(Gap(CursorAt(rs, n), Min(rs[n].start, limit)))
  {
    var cursor, s := CursorAt(rs, n), rs[n];
    OneGap(cursor, Min(s.start, limit));
    var a, b, c := Min(cursor, limit), Min(s.start, limit), Min(s.end, limit);
    forall p | a <= p < b ensures !Protected(st, {}, p) {
      assert forall i :: 0 <= i < |rs| ==> !In(rs[i], p);
    }
    forall p | b <= p < c ensures Protected(st, {}, p) {
      assert In(s, p);
      CoveredBy(rs, s, p);
    }
    if n > 0 { assert rs[n - 1].end < s.start; }
    FreeOpen(st, a, b);
    FreeShut(st, b, c);
  }

  lemma FreeTail(rs: seq<Span>, st: State, length: int, limit: int)
    requires Describes(rs, st, length) && 0 <= limit
    ensures Free(st, limit) == Free(st, Min(CursorAt(rs, |rs|), limit)) + Positions(Gap(CursorAt(rs, |rs|), limit))
  {
    var cursor := CursorAt(rs, |rs|);
    OneGap(cursor, limit);
    forall p | Min(cursor, limit) <= p < limit ensures !Protected(st, {}, p) {
      assert forall i :: 0 <= i < |rs| ==> !In(rs[i], p);
    }
    FreeOpen(st, Min(cursor, limit), limit);
  }

  ghost predicate Separated(gaps: seq<Range>) {
    && Positive(gaps)
    && forall i, j :: 0 <= i < j < |gaps| ==> gaps[i].start + gaps[i].count < gaps[j].start
  }

  lemma {:induction false} RunOfInterval(start: int, count: nat, rest: seq<int>, i: nat)
    requires 0 < i <= count
    requires rest != [] ==> rest[0] > start + count
    ensures RunFrom(Interval(start, count) + rest, i) == count
    decreases count - i
  {
    if i < count {
      RunOfInterval(start, count, rest, i + 1);
    }
  }

  lemma FirstRunOfGaps(gaps: seq<Range>)
    requires Separated(gaps) && gaps != []
    ensures FirstRun(Positions(gaps)) == gaps[0].count
  {
    RunOfInterval(gaps[0].start, gaps[0].count, Positions(gaps[1..]), 1);
  }

  lemma GapStep(gaps: seq<Range>, ranges: seq<Span>, st: State, length: int, n: nat, limit: int)
    requires Describes(ranges, st, length) && 0 <= limit && n < |ranges|
    requires Separated(gaps) && Positions(gaps) == Free(st, Min(CursorAt(ranges, n), limit))
    requires gaps != [] ==> gaps[|gaps| - 1].start + gaps[|gaps| - 1].count < CursorAt(ranges, n)
    ensures var more := gaps + Gap(CursorAt(ranges, n), Min(ranges[n].start, limit));
      && Positive(more) && Separated(more) && Positions(more) == Free(st, Min(ranges[n].end, limit))
      && (more != [] ==> more[|more| - 1].start + more[|more| - 1].count < ranges[n].end)
  {
    var cursor := CursorAt(ranges, n);
    RangesAscend(ranges, st, length, n);
    hide Describes, Free, Positions;
    FreeThrough(ranges, st, length, n, limit);
    OneGap(cursor, Min(ranges[n].start, limit));
    PositionsAppend(gaps, Gap(cursor, Min(ranges[n].start, limit)));
    GapSeparates(gaps, cursor, Min(ranges[n].start, limit));
  }

  lemma RangesAscend(ranges: seq<Span>, st: State, length: int, n: nat)
    requires Describes(ranges, st, length) && n < |ranges|
    ensures CursorAt(ranges, n) <= ranges[n].start < ranges[n].end
  {
    if n > 0 { assert ranges[n - 1].end < ranges[n].start; }
    assert Fits(ranges[n], length);
  }

  lemma GapSeparates(gaps: seq<Range>, cursor: int, end: int)
    requires Separated(gaps)
    requires gaps != [] ==> gaps[|gaps| - 1].start + gaps[|gaps| - 1].count < cursor
    ensures var more := gaps + Gap(cursor, end);
      && Separated(more)
      && (more != [] ==> more[|more| - 1].start + more[|more| - 1].count < cursor || more[|more| - 1].start + more[|more| - 1].count == end)
  {
    if end <= cursor { assert gaps + Gap(cursor, end) == gaps; }
  }

  lemma NoGaps(st: State)
    ensures Free(st, 0) == [] && Positive([]) && Separated([]) && Positions([]) == []
  {
  }

  lemma LastGap(gaps: seq<Range>, ranges: seq<Span>, st: State, length: int, limit: int)
    requires Describes(ranges, st, length) && 0 <= limit
    requires Separated(gaps) && Positions(gaps) == Free(st, Min(CursorAt(ranges, |ranges|), limit))
    requires gaps != [] ==> gaps[|gaps| - 1].start + gaps[|gaps| - 1].count < CursorAt(ranges, |ranges|)
    ensures var all := gaps + Gap(CursorAt(ranges, |ranges|), limit);
      Positive(all) && Separated(all) && Positions(all) == Free(st, limit)
  {
    var cursor := CursorAt(ranges, |ranges|);
    hide Describes, Free, Positions;
    FreeTail(ranges, st, length, limit);
    OneGap(cursor, limit);
    PositionsAppend(gaps, Gap(cursor, limit));
    GapSeparates(gaps, cursor, limit);
  }

  /** The gap scan: every unprotected position below `limit`, as separated ascending gaps. */
  method FindGaps(ghost st: State, ghost length: int, ranges: seq<Span>, limit: int) returns (gaps: seq<Range>)
    requires Describes(ranges, st, length) && 0 <= limit
    ensures Positive(gaps) && Separated(gaps) && Positions(gaps) == Free(st, limit)
  {
    hide Describes, Separated, Free, Positions, Protected, Gap, Positive;
    var cursor := 0;
    gaps := [];
    var n := 0;
    NoGaps(st);
    while n < |ranges|
      invariant 0 <= n <= |ranges| && cursor == CursorAt(ranges, n)
      invariant Positive(gaps) && Separated(gaps) && Positions(gaps) == Free(st, Min(cursor, limit))
      invariant gaps != [] ==> gaps[|gaps| - 1].start + gaps[|gaps| - 1].count < cursor
    {
      var start, stop := ranges[n].start, ranges[n].end;
      var end := Min(start, limit);
      GapStep(gaps, ranges, st, length, n, limit);
      WithGap(gaps, cursor, end);
      if end > cursor {
        gaps := gaps + [Range(cursor, end - cursor)];
      }
      cursor := stop;
      n := n + 1;
    }
    LastGap(gaps, ranges, st, length, limit);
    WithGap(gaps, cursor, limit);
    if limit > cursor {
      gaps := gaps + [Range(cursor, limit - cursor)];
    }
  }

  lemma WithGap(gaps: seq<Range>, cursor: int, end: int)
    ensures gaps + Gap(cursor, end) == if end > cursor then gaps + [Range(cursor, end - cursor)] else gaps
  {
  }

  lemma {:induction false} ExpandAppend(ranges: seq<Range>, r: Range, removed: int)
    requires Positive(ranges) && r.count > 0
    ensures Positive(ranges + [r])
    ensures Expand(ranges + [r], removed)
         == Expand(ranges, removed) + Interval(r.start + removed + Total(ranges), r.count)
  {
    var all := ranges + [r];
    if ranges == [] {
      assert all[1..] == [];
    } else {
      TailOfConcat(ranges, [r]);
      ExpandOf(ranges, removed);
      ExpandOf(all, removed);
      hide Expand;
      ExpandAppend(ranges[1..], r, removed + ranges[0].count);
      ConcatAssoc(Interval(ranges[0].start + removed, ranges[0].count), Expand(ranges[1..], removed + ranges[0].count),
                  Interval(r.start + removed + Total(ranges), r.count));
    }
  }

  lemma ExpandOf(ranges: seq<Range>, removed: int)
    requires Positive(ranges) && ranges != []
    ensures Expand(ranges, removed)
         == Interval(ranges[0].start + removed, ranges[0].count) + Expand(ranges[1..], removed + ranges[0].count)
  {
  }

  lemma {:induction false} TotalAppend(ranges: seq<Range>, r: Range)
    ensures Total(ranges + [r]) == Total(ranges) + r.count
  {
    var all := ranges + [r];
    if ranges == [] {
      assert all[1..] == [];
    } else {
      TotalAppend(ranges[1..], r);
      assert all[1..] == ranges[1..] + [r];
    }
  }

  lemma {:induction false} TotalIsLength(gaps: seq<Range>)
    requires Positive(gaps)
    ensures Total(gaps) == |Positions(gaps)|
  {
    if gaps != [] {
      TotalIsLength(gaps[1..]);
    }
  }

  /** Taking from each gap in turn deletes exactly the first `quota` free positions. */
  method TakeOldest(gaps: seq<Range>, quota: int) returns (ranges: seq<Range>)
    requires Positive(gaps) && 0 <= quota <= |Positions(gaps)|
    ensures Positive(ranges) && Expand(ranges, 0) == Positions(gaps)[..quota] && Total(ranges) == quota
  {
    hide Positions, Expand, Total;
    var remaining, removed := quota, 0;
    ranges := [];
    var n := 0;
    NothingTaken(gaps);
    while n < |gaps|
      invariant 0 <= n <= |gaps|
      invariant remaining >= 0 && removed >= 0 && removed + remaining == quota
      invariant Positive(ranges) && Total(ranges) == removed
      invariant removed <= |Positions(gaps[..n])|
      invariant remaining > 0 ==> removed == |Positions(gaps[..n])|
      invariant Expand(ranges, 0) == Positions(gaps[..n])[..removed]
      invariant Positions(gaps) == Positions(gaps[..n]) + Positions(gaps[n..])
    {
      var start, count := gaps[n].start, gaps[n].count;
      var take := Min(count, remaining);
      SplitGaps(gaps, n);
      TakeStep(Positions(gaps[..n]), start, count, removed, take);
      if take > 0 {
        ExpandAppend(ranges, Range(start - removed, take), 0);
        TotalAppend(ranges, Range(start - removed, take));
        ranges := ranges + [Range(start - removed, take)];
        removed := removed + take;
        remaining := remaining - take;
      }
      n := n + 1;
    }
    assert gaps[..n] == gaps && gaps[n..] == [];
  }

  lemma NothingTaken(gaps: seq<Range>)
    requires Positive(gaps)
    ensures Positive([]) && Total([]) == 0 && Expand([], 0) == []
    ensures gaps[..0] == [] && Positions(gaps[..0]) == [] && gaps[0..] == gaps
  {
  }

  /** Taking `take` more positions from the next gap extends the prefix taken so far. */
  lemma TakeStep(before: seq<int>, start: int, count: nat, removed: nat, take: nat)
    requires removed <= |before| && take <= count && (take > 0 ==> removed == |before|)
    ensures (before + Interval(start, count))[..removed + take]
         == if take > 0 then before[..removed] + Interval(start, take) else before[..removed]
  {
    if take > 0 {
      assert before[..removed] == before;
      assert Interval(start, count)[..take] == Interval(start, take);
    }
  }

  lemma SplitGaps(gaps: seq<Range>, n: nat)
    requires Positive(gaps) && n < |gaps|
    ensures Positions(gaps[..n + 1]) == Positions(gaps[..n]) + Interval(gaps[n].start, gaps[n].count)
    ensures Positions(gaps) == Positions(gaps[..n + 1]) + Positions(gaps[n + 1..])
  {
    hide Positions;
    assert gaps[..n + 1] == gaps[..n] + [gaps[n]];
    OnePosition(gaps[n]);
    PositionsAppend(gaps[..n], [gaps[n]]);
    assert gaps == gaps[..n + 1] + gaps[n + 1..];
    PositionsAppend(gaps[..n + 1], gaps[n + 1..]);
  }

  lemma OnePosition(r: Range)
    requires r.count > 0
    ensures Positive([r]) && Positions([r]) == Interval(r.start, r.count)
  {
    assert [r][1..] == [];
  }

  /** When a retirement is possible at all. */
  ghost predicate CanRetire(st: State, length: int, needed: int, minimumSuffix: int) {
    && 1 <= minimumSuffix <= length
    && WellFormed(st, length, {})
    && needed <= |Free(st, length - minimumSuffix)|
  }

  method RetirementRanges(st: State, length: int, required: int, reserve: int, notice: int,
                          minimumSuffix: int, capacity: Option<int>)
    returns (r: Result<seq<Range>, Error>)
    ensures var needed := Needed(length, required, reserve, notice, if capacity.Some? then capacity.value else length);
      && (r.Ok? <==> CanRetire(st, length, needed, minimumSuffix))
      && (r.Ok? ==>
            var free := Free(st, length - minimumSuffix);
            && needed <= Quota(free, needed) <= |free|
            && Positive(r.value) && r.value != []
            && Expand(r.value, 0) == free[..Quota(free, needed)]
            && Total(r.value) == Quota(free, needed))
  {
    hide Positions, Expand, FirstRun, Quota, Free, Separated, Protected, WellFormed, Total;
    if !(1 <= minimumSuffix <= length) {
      return Err(InvalidSuffix);
    }
    var eligibleEnd := length - minimumSuffix;
    var protectedRanges := ProtectedRanges(st, length, {});
    if protectedRanges.Err? {
      return Err(protectedRanges.error);
    }
    var gaps := FindGaps(st, length, protectedRanges.value, eligibleEnd);
    TotalIsLength(gaps);
    var available := Total(gaps);
    var needed := Needed(length, required, reserve, notice, if capacity.Some? then capacity.value else length);
    if available == 0 || needed > available {
      return Err(NoUsableContext);
    }
    PlanNotEmpty(gaps);
    QuotaFits(gaps, needed);
    var ranges := TakeOldest(gaps, Max((gaps[0].count + 1) / 2, needed));
    PlanNotEmpty(ranges);
    return Ok(ranges);
  }

  lemma QuotaFits(gaps: seq<Range>, needed: int)
    requires Positive(gaps) && Separated(gaps) && gaps != [] && 1 <= needed <= |Positions(gaps)|
    ensures needed <= Quota(Positions(gaps), needed) == Max((gaps[0].count + 1) / 2, needed) <= |Positions(gaps)|
  {
    FirstRunOfGaps(gaps);
    SplitGaps(gaps, 0);
  }

  lemma PlanNotEmpty(ranges: seq<Range>)
    ensures Total(ranges) > 0 ==> ranges != []
  {
  }
}
