/** Model-selected protection: pins, the marker and the shared allowance (dmn/working_memory.py). */
module WorkingMemory {
  import opened Wrappers
  import opened Prompts
  import opened Retirement
  import opened Headroom

  /*------------------------------------------------------------------ usage */

  function Pins(st: State): seq<Span> {
    (if WorkingNote in st.spans then [st.spans[WorkingNote]] else [])
    + (if WorkingRaw in st.spans then [st.spans[WorkingRaw]] else [])
  }

  /** The positions that at least one pin holds. */
  ghost function PinnedSet(pins: seq<Span>): set<int> {
    set i, p | 0 <= i < |pins| && pins[i].start <= p < pins[i].end && In(pins[i], p) :: p
  }

  ghost function PinCount(st: State): nat {
    |PinnedSet(Pins(st))|
  }

  ghost predicate PinsFit(st: State) {
    && (WorkingNote in st.spans ==> 0 <= st.spans[WorkingNote].start < st.spans[WorkingNote].end)
    && (WorkingRaw in st.spans ==> 0 <= st.spans[WorkingRaw].start < st.spans[WorkingRaw].end)
  }

  lemma PinnedAppend(pins: seq<Span>, s: Span)
    ensures PinnedSet(pins + [s]) == PinnedSet(pins) + SpanSet(s)
  {
    var t := pins + [s];
    forall p ensures p in PinnedSet(t) <==> p in PinnedSet(pins) + SpanSet(s) {
      if p in PinnedSet(pins) { var i :| 0 <= i < |pins| && In(pins[i], p); assert In(t[i], p); }
      if p in SpanSet(s) { assert In(t[|pins|], p); }
      if p in PinnedSet(t) { var i :| 0 <= i < |t| && In(t[i], p); assert i < |pins| ==> In(pins[i], p); }
    }
  }

  lemma {:induction false} PinnedSame(a: seq<Span>, b: seq<Span>)
    requires forall y :: y in a <==> y in b
    ensures PinnedSet(a) == PinnedSet(b)
  {
    forall p ensures p in PinnedSet(a) <==> p in PinnedSet(b) {
      if p in PinnedSet(a) {
        var i :| 0 <= i < |a| && In(a[i], p);
        assert a[i] in b;
        var j :| 0 <= j < |b| && b[j] == a[i];
        assert In(b[j], p);
      }
      if p in PinnedSet(b) {
        var i :| 0 <= i < |b| && In(b[i], p);
        assert b[i] in a;
        var j :| 0 <= j < |a| && a[j] == b[i];
        assert In(a[j], p);
      }
    }
  }

  /** What the scan knows after the first pins: every position counted lies below `end`. */
  ghost predicate ScannedTo(pins: seq<Span>, count: int, end: int) {
    && count == |PinnedSet(pins)|
    && 0 <= end && (forall i :: 0 <= i < |pins| ==> pins[i].end <= end)
    && (end > 0 ==> exists i :: 0 <= i < |pins| && pins[i].end == end)
  }

  lemma ScanStep(pins: seq<Span>, s: Span, count: int, end: int)
    requires ScannedTo(pins, count, end) && 0 <= s.start < s.end
    requires forall i :: 0 <= i < |pins| ==> pins[i].start <= s.start
    ensures ScannedTo(pins + [s], count + Max(0, s.end - Max(s.start, end)), Max(end, s.end))
  {
    PinnedAppend(pins, s);
    var added := Span(Max(s.start, end), Max(s.end, Max(s.start, end)));
    SpanSize(added);
    forall p ensures p in SpanSet(s) && p !in PinnedSet(pins) <==> p in SpanSet(added) {
      AddedPosition(pins, s, count, end, p);
    }
    SplitUnion(PinnedSet(pins), SpanSet(s), SpanSet(added));
    ScanEnd(pins, s, count, end);
    hide PinnedSet, SpanSet;
  }

  lemma SplitUnion(a: set<int>, b: set<int>, added: set<int>)
    requires forall p :: p in b && p !in a <==> p in added
    ensures |a + b| == |a| + |added|
  {
    assert added == b - a by {
      forall p ensures p in added <==> p in b - a { }
    }
    assert a + b == a + (b - a);
  }

  lemma ScanEnd(pins: seq<Span>, s: Span, count: int, end: int)
    requires ScannedTo(pins, count, end) && 0 <= s.start < s.end
    ensures var t, last := pins + [s], Max(end, s.end);
      && (forall i :: 0 <= i < |t| ==> t[i].end <= last)
      && exists i :: 0 <= i < |t| && t[i].end == last
  {
    var t := pins + [s];
    if end <= s.end {
      assert t[|pins|].end == s.end;
    } else {
      var i :| 0 <= i < |pins| && pins[i].end == end;
      assert t[i].end == end;
    }
  }

  /** What a pin adds to the union begins where the scan has come to. */
  lemma AddedPosition(pins: seq<Span>, s: Span, count: int, end: int, p: int)
    requires ScannedTo(pins, count, end) && 0 <= s.start < s.end
    requires forall i :: 0 <= i < |pins| ==> pins[i].start <= s.start
    ensures p in SpanSet(s) && p !in PinnedSet(pins) <==> p in SpanSet(Span(Max(s.start, end), Max(s.end, Max(s.start, end))))
  {
    if In(s, p) && p < end {
      var i :| 0 <= i < |pins| && pins[i].end == end;
      assert In(pins[i], p);
    }
  }

  /** Overlapping pins are charged once. */
  method Usage(st: State) returns (count: int)
    requires PinsFit(st)
    ensures count == PinCount(st)
  {
    hide PinnedSet, ScannedTo;
    var spans := SortSpans(Pins(st));
    var end, n := 0, 0;
    count := 0;
    NothingScanned();
    while n < |spans|
      invariant 0 <= n <= |spans|
      invariant ScannedTo(spans[..n], count, end)
    {
      var start, stop := spans[n].start, spans[n].end;
      assert spans[n] in Pins(st);
      ScanStep(spans[..n], spans[n], count, end);
      assert spans[..n + 1] == spans[..n] + [spans[n]];
      count := count + Max(0, stop - Max(start, end));
      end := Max(end, stop);
      n := n + 1;
    }
    assert spans[..n] == spans;
    PinnedSame(spans, Pins(st));
    ScannedCount(spans, count, end);
  }

  lemma NothingScanned()
    ensures ScannedTo([], 0, 0)
  {
    assert PinnedSet([]) == {};
  }

  lemma ScannedCount(pins: seq<Span>, count: int, end: int)
    requires ScannedTo(pins, count, end)
    ensures count == |PinnedSet(pins)|
  {
  }

  /*------------------------------------------------------------------ usage and retirement */

  lemma PinnedFollow(v: View, start: int, count: int, p: int)
    requires Clear(v, start, count)
    ensures p in PinnedSet(Pins(ShiftView(v, start, count).st)) <==> Lift(p, start, count) in PinnedSet(Pins(v.st))
  {
    var a, b, q := Pins(v.st), Pins(ShiftView(v, start, count).st), Lift(p, start, count);
    assert |a| == |b|;
    forall i | 0 <= i < |a| ensures In(b[i], p) <==> In(a[i], q) {
      if WorkingNote in v.st.spans { ClearSpan(v, start, count, WorkingNote); }
      if WorkingRaw in v.st.spans { ClearSpan(v, start, count, WorkingRaw); }
    }
    if p in PinnedSet(b) { var i :| 0 <= i < |b| && In(b[i], p); assert In(a[i], q); }
    if q in PinnedSet(a) { var i :| 0 <= i < |a| && In(a[i], q); assert In(b[i], p); }
  }

  lemma {:induction false} LiftedSize(low: set<int>, high: set<int>, start: int, count: int)
    requires count > 0
    requires forall p :: p in low <==> Lift(p, start, count) in high
    requires forall q :: q in high ==> q < start || start + count <= q
    ensures |low| == |high|
    decreases |low|
  {
    if |low| == 0 {
      forall q ensures q !in high {
        assert q in high ==> Lift(if q < start then q else q - count, start, count) == q;
      }
      assert high == {};
    } else {
      var p := Member(low);
      LiftedSize(low - {p}, high - {Lift(p, start, count)}, start, count);
    }
  }

  lemma ShiftKeepsUsage(v: View, start: int, count: int)
    requires Clear(v, start, count)
    ensures PinCount(ShiftView(v, start, count).st) == PinCount(v.st)
  {
    forall p ensures p in PinnedSet(Pins(ShiftView(v, start, count).st)) <==> Lift(p, start, count) in PinnedSet(Pins(v.st)) {
      PinnedFollow(v, start, count, p);
    }
    forall q | q in PinnedSet(Pins(v.st)) ensures q < start || start + count <= q {
      if WorkingNote in v.st.spans { ClearSpan(v, start, count, WorkingNote); }
      if WorkingRaw in v.st.spans { ClearSpan(v, start, count, WorkingRaw); }
    }
    LiftedSize(PinnedSet(Pins(ShiftView(v, start, count).st)), PinnedSet(Pins(v.st)), start, count);
  }

  lemma {:induction false} RetirementKeepsUsage(v: View, ranges: seq<Range>, window: int)
    requires IsPlan(v, ranges, window)
    ensures PinCount(RetireAll(v, ranges, window).st) == PinCount(v.st)
    decreases |ranges|
  {
    if ranges != [] {
      PlanStep(v, ranges, window);
      ShiftKeepsUsage(v, ranges[0].start, ranges[0].count);
      RetirementKeepsUsage(ShiftView(v, ranges[0].start, ranges[0].count), ranges[1..], window);
    }
  }

  /*------------------------------------------------------------------ actions */

  datatype Action =
    | MarkHere | ProtectLast(count: int) | ProtectFromMark | Note(tokens: seq<int>)
    | ReleaseRaw | ReleaseNote | ReleaseMark | ReleaseAll

  predicate Releases(a: Action) {
    a.ReleaseRaw? || a.ReleaseNote? || a.ReleaseMark? || a.ReleaseAll?
  }

  predicate Protects(a: Action) {
    a.ProtectLast? || a.ProtectFromMark? || a.Note?
  }

  /** An accepted action: the updated state and the tokens it appends. */
  datatype Change = Change(st: State, tokens: seq<int>)

  datatype Refusal = NoAllowance | BadCount | NoMarker | NothingFollows | OverAllowance | NoContinuation | NoSpaceNow

  function PinRaw(v: View, start: int): Change {
    Change(v.st.(spans := v.st.spans[WorkingRaw := Span(start, |v.tokens|)]), [])
  }

  function Selected(v: View, a: Action): Result<Change, Refusal> {
    match a
    case MarkHere => Ok(Change(v.st.(mark := At(|v.tokens|)), []))
    case ProtectLast(count) =>
      if 1 <= count <= |v.tokens| - v.st.keepPrefix then Ok(PinRaw(v, |v.tokens| - count)) else Err(BadCount)
    case ProtectFromMark =>
      if !v.st.mark.At? then Err(NoMarker)
      else if v.st.mark.position >= |v.tokens| then Err(NothingFollows)
      else Ok(PinRaw(v, v.st.mark.position))
    case Note(tokens) =>
      Ok(Change(v.st.(spans := v.st.spans[WorkingNote := Span(|v.tokens|, |v.tokens| + |tokens|)]), tokens))
    case ReleaseRaw => Ok(Change(v.st.(spans := v.st.spans - {WorkingRaw}), []))
    case ReleaseNote => Ok(Change(v.st.(spans := v.st.spans - {WorkingNote}), []))
    case ReleaseMark => Ok(Change(v.st.(mark := Unset), []))
    case ReleaseAll => Ok(Change(v.st.(spans := v.st.spans - {WorkingRaw, WorkingNote}, mark := Unset), []))
  }

  function Continuation(c: Config, window: int): int {
    c.turnoverReserve + EventBudget(c) + 256 + window
  }

  /** Protected tokens leave room for a retirement that serves one more generated token. */
  ghost predicate Roomy(c: Config, window: int, v: View) {
    |ProtectedSet(v.st, |v.tokens|, {})| + Continuation(c, window) < c.nCtx
  }

  ghost predicate Affordable(c: Config, window: int, v: View, a: Action, change: Change) {
    var length := |v.tokens| + |change.tokens|;
    && PinCount(change.st) <= c.workingMemoryTokens
    && (Protects(a) ==> Roomy(c, window, View(v.tokens + change.tokens, change.st)))
    && BelowGuard(c, length, EventBudget(c))
  }

  ghost predicate MarkInRange(v: View) {
    v.st.mark.At? ==> 0 <= v.st.mark.position <= |v.tokens|
  }

  ghost predicate Accepted(c: Config, window: int, v: View, a: Action) {
    && (Releases(a) || c.workingMemoryTokens != 0)
    && Selected(v, a).Ok?
    && Affordable(c, window, v, a, Selected(v, a).value)
  }

  lemma SelectedIsWellFormed(v: View, a: Action)
    requires WellFormed(v.st, |v.tokens|, {}) && MarkInRange(v) && (a.Note? ==> a.tokens != [])
    requires Selected(v, a).Ok?
    ensures var change := Selected(v, a).value;
      && WellFormed(change.st, |v.tokens| + |change.tokens|, {})
      && PinsFit(change.st)
      && MarkInRange(View(v.tokens + change.tokens, change.st))
  {
  }

  /** The tokens under a span, if it is set. */
  function Spanned(v: View, k: Key): Option<seq<int>> {
    if k in v.st.spans && Fits(v.st.spans[k], |v.tokens|) then Some(v.tokens[v.st.spans[k].start..v.st.spans[k].end]) else None
  }

  /** What follows an intact marker. */
  function SinceMark(v: View): Option<seq<int>> {
    if v.st.mark.At? && 0 <= v.st.mark.position <= |v.tokens| then Some(v.tokens[v.st.mark.position..]) else None
  }

  /** What a span of this name holds after an action: what the action pins, nothing once released, or what it held. */
  function PinnedBy(v: View, a: Action, k: Key): Option<seq<int>> {
    match a
    case Note(tokens) => if k == WorkingNote then Some(tokens) else Spanned(v, k)
    case ProtectLast(count) =>
      if k == WorkingRaw && 0 <= count <= |v.tokens| then Some(v.tokens[|v.tokens| - count..]) else Spanned(v, k)
    case ProtectFromMark => if k == WorkingRaw then SinceMark(v) else Spanned(v, k)
    case ReleaseRaw => if k == WorkingRaw then None else Spanned(v, k)
    case ReleaseNote => if k == WorkingNote then None else Spanned(v, k)
    case ReleaseAll => if k == WorkingRaw || k == WorkingNote then None else Spanned(v, k)
    case _ => Spanned(v, k)
  }

  /** What an accepted action does to the sequence, to every span and to the marker, in tokens. */
  ghost predicate Does(v: View, a: Action, result: seq<int>, w: View) {
    var appended := (if a.Note? then a.tokens else []) + result;
    && w.tokens == v.tokens + appended && w.st.keepPrefix == v.st.keepPrefix
    && (forall k :: Spanned(w, k) == PinnedBy(v, a, k))
    && SinceMark(w) == if a.MarkHere? then Some(result) else if a.ReleaseMark? || a.ReleaseAll? then None
                       else if SinceMark(v).Some? then Some(SinceMark(v).value + appended) else None
  }

  lemma PrefixSlice(s: seq<int>, t: seq<int>, a: int, b: int)
    requires s <= t && 0 <= a <= b <= |s|
    ensures t[a..b] == s[a..b]
  {
    assert forall i :: a <= i < b ==> t[i] == s[i];
  }

  lemma SpannedStays(v: View, w: View, k: Key)
    requires v.tokens <= w.tokens && (k in v.st.spans <==> k in w.st.spans) && (k in v.st.spans ==> v.st.spans[k] == w.st.spans[k])
    requires k in v.st.spans ==> Fits(v.st.spans[k], |v.tokens|)
    ensures Spanned(w, k) == Spanned(v, k)
  {
    if k in v.st.spans { PrefixSlice(v.tokens, w.tokens, v.st.spans[k].start, v.st.spans[k].end); }
  }

  lemma NoteFollows(s: seq<int>, note: seq<int>, appended: seq<int>)
    requires note <= appended
    ensures (s + appended)[|s|..|s| + |note|] == note
  {
    assert forall i :: 0 <= i < |note| ==> (s + appended)[|s| + i] == appended[i] == note[i];
  }

  lemma ActionPins(v: View, a: Action, appended: seq<int>, k: Key)
    requires WellFormed(v.st, |v.tokens|, {}) && MarkInRange(v) && Selected(v, a).Ok?
    requires a.Note? ==> a.tokens != [] && a.tokens <= appended
    ensures Spanned(View(v.tokens + appended, Selected(v, a).value.st), k) == PinnedBy(v, a, k)
  {
    var w := View(v.tokens + appended, Selected(v, a).value.st);
    assert k in v.st.spans ==> Fits(v.st.spans[k], |v.tokens|);
    if k == WorkingNote && a.Note? {
      NoteFollows(v.tokens, a.tokens, appended);
    } else if k == WorkingRaw && (a.ProtectLast? || a.ProtectFromMark?) {
      PrefixSlice(v.tokens, w.tokens, w.st.spans[k].start, |v.tokens|);
    } else if k in w.st.spans {
      SpannedStays(v, w, k);
    }
  }

  lemma ActionMarks(v: View, a: Action, result: seq<int>, appended: seq<int>)
    requires MarkInRange(v) && Selected(v, a).Ok? && appended == (if a.Note? then a.tokens else []) + result
    ensures SinceMark(View(v.tokens + appended, Selected(v, a).value.st)) ==
      if a.MarkHere? then Some(result) else if a.ReleaseMark? || a.ReleaseAll? then None
      else if SinceMark(v).Some? then Some(SinceMark(v).value + appended) else None
  {
    var w := View(v.tokens + appended, Selected(v, a).value.st);
    if a.MarkHere? {
      assert w.tokens[|v.tokens|..] == result;
    } else if v.st.mark.At? && !a.ReleaseMark? && !a.ReleaseAll? {
      assert w.tokens[v.st.mark.position..] == v.tokens[v.st.mark.position..] + appended;
    }
  }

  /** An accepted action changes exactly what it names. */
  lemma ActionDoes(c: Config, window: int, v: View, a: Action, result: seq<int>)
    requires WellFormed(v.st, |v.tokens|, {}) && MarkInRange(v) && (a.Note? ==> a.tokens != []) && Accepted(c, window, v, a)
    ensures var change := Selected(v, a).value;
      Does(v, a, result, View(v.tokens + change.tokens + result, change.st))
  {
    var change, appended := Selected(v, a).value, (if a.Note? then a.tokens else []) + result;
    ConcatAssoc(v.tokens, change.tokens, result);
    assert change.tokens + result == appended && change.st.keepPrefix == v.st.keepPrefix;
    hide Accepted, Selected, Spanned, PinnedBy, SinceMark, WellFormed;
    forall k: Key ensures Spanned(View(v.tokens + appended, change.st), k) == PinnedBy(v, a, k) {
      ActionPins(v, a, appended, k);
    }
    ActionMarks(v, a, result, appended);
  }

  method PlanAction(c: Config, window: int, v: View, a: Action) returns (r: Result<Change, Refusal>)
    requires WellFormed(v.st, |v.tokens|, {}) && MarkInRange(v) && (a.Note? ==> a.tokens != [])
    ensures r.Ok? <==> Accepted(c, window, v, a)
    ensures r.Ok? ==> r.value == Selected(v, a).value
  {
    if !Releases(a) && c.workingMemoryTokens == 0 {
      return Err(NoAllowance);
    }
    r := Selected(v, a);
    if r.Err? {
      return;
    }
    var change := r.value;
    SelectedIsWellFormed(v, a);
    var length := |v.tokens| + |change.tokens|;
    var used := Usage(change.st);
    if used > c.workingMemoryTokens {
      return Err(OverAllowance);
    }
    if Protects(a) {
      var permanent := ProtectedSize(change.st, length, {});
      if permanent.value + Continuation(c, window) >= c.nCtx {
        return Err(NoContinuation);
      }
    }
    if length + EventBudget(c) > c.nCtx - 32 {
      return Err(NoSpaceNow);
    }
  }

  /*------------------------------------------------------------------ runs */

  /** The sequence with everything appended since the latest marker request. */
  datatype Tracked = Tracked(v: View, since: seq<int>)

  datatype Op = Append(tokens: seq<int>) | Retire(ranges: seq<Range>) | Commit(action: Action, result: seq<int>)

  ghost predicate Legal(c: Config, window: int, t: Tracked, op: Op) {
    match op
    case Append(_) => true
    case Retire(ranges) => IsPlan(t.v, ranges, window)
    case Commit(a, _) => Accepted(c, window, t.v, a) && (a.Note? ==> a.tokens != [])
  }

  /** The result of an action is appended before the state update that the action chose takes effect. */
  ghost function Step(c: Config, window: int, t: Tracked, op: Op): Tracked
    requires Legal(c, window, t, op)
  {
    match op
    case Append(xs) => Tracked(View(t.v.tokens + xs, t.v.st), t.since + xs)
    case Retire(ranges) => Tracked(RetireAll(t.v, ranges, window), t.since)
    case Commit(a, result) =>
      var change := Selected(t.v, a).value;
      Tracked(View(t.v.tokens + change.tokens + result, change.st),
              (if a.MarkHere? then [] else t.since + change.tokens) + result)
  }

  ghost predicate Reaches(c: Config, window: int, t: Tracked, ops: seq<Op>, u: Tracked)
    decreases |ops|
  {
    if ops == [] then t == u
    else Legal(c, window, t, ops[0]) && Reaches(c, window, Step(c, window, t, ops[0]), ops[1..], u)
  }

  /** An intact marker denotes exactly what was appended since it was set. */
  ghost predicate MarkTrue(t: Tracked) {
    t.v.st.mark.At? ==>
      && 0 <= t.v.st.mark.position <= |t.v.tokens|
      && t.v.tokens[t.v.st.mark.position..] == t.since
  }

  ghost predicate Sound(c: Config, t: Tracked) {
    && WellFormed(t.v.st, |t.v.tokens|, {})
    && PinCount(t.v.st) <= c.workingMemoryTokens
    && MarkTrue(t)
  }

  lemma ShiftKeepsMark(v: View, start: int, count: int, since: seq<int>)
    requires Clear(v, start, count) && MarkTrue(Tracked(v, since))
    ensures MarkTrue(Tracked(ShiftView(v, start, count), since))
  {
  }

  lemma {:induction false} RetirementKeepsMark(v: View, ranges: seq<Range>, window: int, since: seq<int>)
    requires IsPlan(v, ranges, window) && MarkTrue(Tracked(v, since))
    ensures MarkTrue(Tracked(RetireAll(v, ranges, window), since))
    decreases |ranges|
  {
    if ranges != [] {
      PlanStep(v, ranges, window);
      ShiftKeepsMark(v, ranges[0].start, ranges[0].count, since);
      RetirementKeepsMark(ShiftView(v, ranges[0].start, ranges[0].count), ranges[1..], window, since);
    }
  }

  lemma StepIsSound(c: Config, window: int, t: Tracked, op: Op)
    requires Sound(c, t) && Legal(c, window, t, op)
    ensures Sound(c, Step(c, window, t, op))
  {
    hide Sound, WellFormed, Accepted, Selected, MarkTrue, IsPlan;
    match op
    case Append(xs) => AppendIsSound(c, t, xs);
    case Retire(ranges) => RetireIsSound(c, window, t, ranges);
    case Commit(a, result) => CommitIsSound(c, window, t, a, result);
  }

  lemma AppendIsSound(c: Config, t: Tracked, xs: seq<int>)
    requires Sound(c, t)
    ensures Sound(c, Tracked(View(t.v.tokens + xs, t.v.st), t.since + xs))
  {
  }

  lemma RetireIsSound(c: Config, window: int, t: Tracked, ranges: seq<Range>)
    requires Sound(c, t) && IsPlan(t.v, ranges, window)
    ensures Sound(c, Tracked(RetireAll(t.v, ranges, window), t.since))
  {
    hide MarkTrue, WellFormed, RetireAll, IsPlan;
    RetirementKeepsUsage(t.v, ranges, window);
    RetirementKeepsMark(t.v, ranges, window, t.since);
    PlanKeepsMeaning(t.v, ranges, window);
  }

  lemma CommitIsSound(c: Config, window: int, t: Tracked, a: Action, result: seq<int>)
    requires Sound(c, t) && Legal(c, window, t, Commit(a, result))
    ensures Sound(c, Step(c, window, t, Commit(a, result)))
  {
    SelectedIsWellFormed(t.v, a);
    CommitKeepsMark(c, window, t, a, result);
    hide MarkTrue, Selected;
  }

  lemma CommitKeepsMark(c: Config, window: int, t: Tracked, a: Action, result: seq<int>)
    requires MarkTrue(t) && Legal(c, window, t, Commit(a, result))
    ensures MarkTrue(Step(c, window, t, Commit(a, result)))
  {
    hide WellFormed;
  }

  /** Over every run: spans stay valid, pins stay within the allowance, and the marker is never wrong. */
  lemma {:induction false} EveryRunIsSound(c: Config, window: int, t: Tracked, ops: seq<Op>, u: Tracked)
    requires Sound(c, t) && Reaches(c, window, t, ops, u)
    ensures Sound(c, u)
    decreases |ops|
  {
    if ops != [] {
      StepIsSound(c, window, t, ops[0]);
      EveryRunIsSound(c, window, Step(c, window, t, ops[0]), ops[1..], u);
    }
  }

  /*------------------------------------------------------------------ pins never block continuation */

  lemma {:induction false} ProtectedOrFree(st: State, n: nat)
    ensures |Free(st, n)| + |ProtectedSet(st, n, {})| == n
  {
    if n == 0 {
      assert ProtectedSet(st, 0, {}) == {};
    } else {
      ProtectedOrFree(st, n - 1);
      if Protected(st, {}, n - 1) {
        assert ProtectedSet(st, n, {}) == ProtectedSet(st, n - 1, {}) + {n - 1};
      } else {
        assert ProtectedSet(st, n, {}) == ProtectedSet(st, n - 1, {});
      }
    }
  }

  lemma {:induction false} ProtectedTokensCount(v: View, n: nat)
    requires n <= |v.tokens|
    ensures |ProtectedTokens(v, n)| + |Free(v.st, n)| == n
  {
    if n > 0 {
      ProtectedTokensCount(v, n - 1);
    }
  }

  lemma {:induction false} NothingProtectedBeyond(v: View, xs: seq<int>)
    requires WellFormed(v.st, |v.tokens|, {})
    ensures ProtectedSet(v.st, |v.tokens| + |xs|, {}) == ProtectedSet(v.st, |v.tokens|, {})
  {
  }

  lemma ReleaseShrinksProtection(v: View, a: Action)
    requires Releases(a)
    ensures ProtectedSet(Selected(v, a).value.st, |v.tokens|, {}) <= ProtectedSet(v.st, |v.tokens|, {})
  {
    var st := Selected(v, a).value.st;
    forall p | Protected(st, {}, p) ensures Protected(v.st, {}, p) {
      if !(0 <= p < st.keepPrefix) {
        var k :| k in st.spans && In(st.spans[k], p);
        assert In(v.st.spans[k], p);
      }
    }
  }

  lemma RetirementKeepsRoom(c: Config, window: int, v: View, ranges: seq<Range>)
    requires IsPlan(v, ranges, window) && Roomy(c, window, v)
    ensures Roomy(c, window, RetireAll(v, ranges, window))
  {
    var w := RetireAll(v, ranges, window);
    PlanKeepsMeaning(v, ranges, window);
    ProtectedOrFree(v.st, |v.tokens|);
    ProtectedOrFree(w.st, |w.tokens|);
    ProtectedTokensCount(v, |v.tokens|);
    ProtectedTokensCount(w, |w.tokens|);
  }

  lemma StepKeepsRoom(c: Config, window: int, t: Tracked, op: Op)
    requires Sound(c, t) && Roomy(c, window, t.v) && Legal(c, window, t, op)
    ensures Roomy(c, window, Step(c, window, t, op).v)
  {
    match op
    case Append(xs) => NothingProtectedBeyond(t.v, xs);
    case Retire(ranges) => RetirementKeepsRoom(c, window, t.v, ranges);
    case Commit(a, result) =>
      SelectedIsWellFormed(t.v, a);
      var change := Selected(t.v, a).value;
      var grown := View(t.v.tokens + change.tokens, change.st);
      NothingProtectedBeyond(grown, result);
      assert grown.tokens + result == Step(c, window, t, op).v.tokens;
      if Releases(a) {
        ReleaseShrinksProtection(t.v, a);
        SubsetSize(ProtectedSet(change.st, |t.v.tokens|, {}), ProtectedSet(t.v.st, |t.v.tokens|, {}));
      } else if a.MarkHere? {
        assert forall p :: Protected(change.st, {}, p) <==> Protected(t.v.st, {}, p) by {
          assert change.st.spans == t.v.st.spans;
        }
        assert ProtectedSet(change.st, |t.v.tokens|, {}) == ProtectedSet(t.v.st, |t.v.tokens|, {});
      }
  }

  lemma RoomMeansRetirement(c: Config, window: int, v: View)
    requires WellFormed(v.st, |v.tokens|, {}) && Roomy(c, window, v) && 1 <= window && ValidConfig(c)
    requires AboveSoftLimit(c, |v.tokens|, 1)
    ensures CanRetire(v.st, |v.tokens|, Needed(|v.tokens|, 1, c.turnoverReserve, EventBudget(c), c.nCtx), window)
  {
    var length, limit := |v.tokens|, |v.tokens| - window;
    assert limit >= 0;
    ProtectedOrFree(v.st, limit);
    SubsetSize(ProtectedSet(v.st, limit, {}), ProtectedSet(v.st, length, {}));
  }

  /**
   No accepted pin can wedge the instance: from a roomy state, after any run of appends,
   retirements and accepted actions, the retirement that the next token needs can be planned.
   */
  lemma {:induction false} PinsNeverBlockGeneration(c: Config, window: int, t: Tracked, ops: seq<Op>, u: Tracked)
    requires ValidConfig(c) && 1 <= window
    requires Sound(c, t) && Roomy(c, window, t.v) && Reaches(c, window, t, ops, u)
    ensures AboveSoftLimit(c, |u.v.tokens|, 1) ==>
      CanRetire(u.v.st, |u.v.tokens|, Needed(|u.v.tokens|, 1, c.turnoverReserve, EventBudget(c), c.nCtx), window)
    decreases |ops|
  {
    if ops == [] {
      if AboveSoftLimit(c, |u.v.tokens|, 1) {
        RoomMeansRetirement(c, window, u.v);
      }
    } else {
      StepIsSound(c, window, t, ops[0]);
      StepKeepsRoom(c, window, t, ops[0]);
      PinsNeverBlockGeneration(c, window, Step(c, window, t, ops[0]), ops[1..], u);
    }
  }

  /** Lengths the sequence can have after a note of `noted` tokens and one bounded result. */
  predicate AfterNote(c: Config, length: int, noted: int, after: int) {
    length + noted <= after <= length + noted + EventBudget(c)
  }

  /** Whatever result follows an accepted note, the next notice still fits exactly when two budgets remain beyond the note. */
  lemma NoteLeavesNoticeExactly(c: Config, length: int, noted: int)
    requires ValidConfig(c) && 0 <= length && 0 <= noted
    ensures (forall after, notice :: AfterNote(c, length, noted, after) && 0 <= notice <= EventBudget(c) ==> BelowGuard(c, after, notice))
       <==> length + noted + 2 * EventBudget(c) <= c.nCtx - 32
  {
    var worst := length + noted + EventBudget(c);
    if worst + EventBudget(c) > c.nCtx - 32 {
      assert AfterNote(c, length, noted, worst) && !BelowGuard(c, worst, EventBudget(c));
    }
  }

  /**
   The guard on a note counts its tokens and one result, not the notice that follows.  With a
   reserve large enough for ordinary generation, an accepted note can still leave no room for
   the next retirement notice.
   */
  lemma AcceptedNoteCanCrowdOutNotice()
    ensures var c := Config(8192, 1056, 128, 512);
      var v := View(seq(7136, i => 0), State(0, map[], Unset));
      var note := Note(seq(512, i => 0));
      && ValidConfig(c) && c.turnoverReserve >= 2 * EventBudget(c) + 32
      && !AboveSoftLimit(c, |v.tokens|, 0)
      && Accepted(c, 1, v, note)
      && !BelowGuard(c, |v.tokens| + |note.tokens| + EventBudget(c), 1)
  {
    var v := View(seq(7136, i => 0), State(0, map[], Unset));
    var note := Note(seq(512, i => 0));
    var st, pin := Selected(v, note).value.st, Span(7136, 7648);
    assert Pins(st) == [] + [pin];
    PinnedAppend([], pin);
    SpanSize(pin);
    assert PinnedSet([]) == {};
    assert PinnedSet(Pins(st)) == SpanSet(pin);
    forall p ensures Protected(st, {}, p) <==> In(pin, p) {
      assert st.spans[WorkingNote] == pin;
    }
    assert ProtectedSet(st, 7648, {}) == SpanSet(pin);
  }
}
