/**
 The inference owner's headroom discipline (dmn/runtime.py): making room before every token
 and event, bounded preparation, and one retirement that always suffices.

 Sampling, tokenisation and threads are inputs: `Boundary` carries what one retirement inserts
 and generates, `Generated` what one sampled token leads to.
 */
module Runtime {
  import opened Wrappers
  import opened Prompts
  import opened CompactCache
  import opened Retirement
  import opened Headroom
  import opened WorkingMemory

  /** Requests that other threads or the model raise while tokens are generated. */
  datatype Signals = Signals(ended: bool, held: bool, suspend: bool, accepted: bool, active: bool)

  datatype Generated = Generated(
    token: int,
    action: Option<Action>,        // a working-memory action, if the token completed one
    result: Option<seq<int>>,      // the action result, if the token completed any action
    interruption: Option<seq<int>>,// end of generation inside an unfinished frame
    pending: bool,                 // a frame is unfinished after this token
    signals: Signals)

  datatype Boundary = Boundary(notice: seq<int>, script: seq<Generated>, retired: seq<int>)

  datatype Fault = NoFault | PreparationExhausted | ResultExhausted | CannotRetire | NoUsablePlan

  predicate BoundedToken(c: Config, g: Generated) {
    && (g.result.Some? ==> |g.result.value| <= EventBudget(c))
    && (g.interruption.Some? ==> |g.interruption.value| <= EventBudget(c))
    && (g.action.Some? ==> g.result.Some?)
    && (g.action.Some? && g.action.value.Note? ==> g.action.value.tokens != [])
  }

  /** Event texts never exceed the event budget. */
  predicate Bounded(c: Config, b: Boundary) {
    && |b.notice| <= EventBudget(c) && |b.retired| <= EventBudget(c)
    && |b.script| >= c.preparationTokens
    && forall i :: 0 <= i < |b.script| ==> BoundedToken(c, b.script[i])
  }

  predicate SingleInsertions(b: Boundary) {
    forall i :: 0 <= i < |b.script| ==> OneInsertion(b.script[i])
  }

  /** The token causes at most one result insertion. */
  predicate OneInsertion(g: Generated) {
    g.result.None? || g.interruption.None?
  }

  datatype Snapshot = Snapshot(view: View, framePending: bool, ended: bool, held: bool, suspendRequested: bool,
                               stopAccepted: bool, active: bool, retirements: nat)

  function Text(insertion: Option<seq<int>>): seq<int> {
    if insertion.Some? then insertion.value else []
  }

  ghost predicate AcceptedHere(c: Config, window: int, v: View, g: Generated) {
    g.action.Some? && Accepted(c, window, v, g.action.value)
  }

  /**
   What a sampled token causes, `v` already ending with it: an accepted action leaves its tokens, its result
   and its spans and mark, and ends the turn; otherwise the result and the interruption follow, the second
   only if it fits.
   */
  ghost predicate Responds(c: Config, window: int, v: View, g: Generated, w: View, f: Fault) {
    if AcceptedHere(c, window, v, g) then
      var change := Selected(v, g.action.value).value;
      f == NoFault && w == Retirement.View(v.tokens + change.tokens + Text(g.result), change.st)
    else
      var answered := v.tokens + Text(g.result);
      if BelowGuard(c, |answered|, |Text(g.interruption)|)
      then f == NoFault && w == Retirement.View(answered + Text(g.interruption), v.st)
      else f == ResultExhausted && w == Retirement.View(answered, v.st)
  }

  /** One sampled token and everything it causes. */
  ghost predicate Samples(c: Config, window: int, v: View, g: Generated, w: View, f: Fault) {
    Responds(c, window, Retirement.View(v.tokens + [g.token], v.st), g, w, f)
  }

  /** With at most one insertion the token and what it causes stay within the reserved space. */
  lemma SamplesFit(c: Config, window: int, v: View, g: Generated, w: View, f: Fault)
    requires Samples(c, window, v, g, w, f) && BoundedToken(c, g) && BelowGuard(c, |v.tokens| + 1, EventBudget(c))
    ensures f.NoFault? || f.ResultExhausted?
    ensures OneInsertion(g) ==> f.NoFault?
    ensures OneInsertion(g) && g.action.None? ==> |w.tokens| <= |v.tokens| + 1 + EventBudget(c)
  {
  }

  ghost predicate SamplesSome(c: Config, window: int, v: View, g: Generated, w: View) {
    exists f: Fault :: Samples(c, window, v, g, w, f)
  }

  lemma SamplesExtend(c: Config, window: int, v: View, g: Generated, w: View, f: Fault)
    requires Samples(c, window, v, g, w, f)
    ensures v.tokens + [g.token] <= w.tokens && v.tokens <= w.tokens
  {
  }

  ghost predicate TurnSampled(c: Config, window: int, trace: seq<View>, script: seq<Generated>, i: nat)
    requires i + 1 < |trace| && i < |script|
  {
    SamplesSome(c, window, trace[i], script[i], trace[i + 1])
  }

  /** Each step of the trace is one token of the script. */
  ghost predicate Traced(c: Config, window: int, trace: seq<View>, script: seq<Generated>) {
    |trace| <= |script| + 1 && forall i: nat :: i + 1 < |trace| ==> TurnSampled(c, window, trace, script, i)
  }

  lemma TracedMore(c: Config, window: int, trace: seq<View>, script: seq<Generated>, w: View, f: Fault)
    requires 1 <= |trace| <= |script| && Traced(c, window, trace, script)
    requires Samples(c, window, trace[|trace| - 1], script[|trace| - 1], w, f)
    ensures Traced(c, window, trace + [w], script)
  {
    hide Samples;
    var longer := trace + [w];
    forall i: nat | i + 1 < |longer| ensures TurnSampled(c, window, longer, script, i) {
      if i + 1 < |trace| { assert TurnSampled(c, window, trace, script, i); }
    }
  }

  /** A stop that was not there before was raised by the token. */
  ghost predicate StopsBy(g: Generated, before: Snapshot, after: Snapshot) {
    && (after.ended ==> before.ended || g.signals.ended) && (after.held ==> before.held || g.signals.held)
    && (after.suspendRequested ==> before.suspendRequested || g.signals.suspend)
  }

  /** A stop that was not there before was raised by some token of the script. */
  ghost predicate StopsFrom(script: seq<Generated>, before: Snapshot, after: Snapshot) {
    && (after.ended ==> before.ended || exists i :: 0 <= i < |script| && script[i].signals.ended)
    && (after.held ==> before.held || exists i :: 0 <= i < |script| && script[i].signals.held)
    && (after.suspendRequested ==> before.suspendRequested || exists i :: 0 <= i < |script| && script[i].signals.suspend)
  }

  lemma PreparationStarts(c: Config, window: int, trace: seq<View>, script: seq<Generated>, before: Snapshot, after: Snapshot)
    requires |trace| == 1 && after.ended == before.ended && after.held == before.held
    requires after.suspendRequested == before.suspendRequested
    ensures Traced(c, window, trace, script) && StopsFrom(script, before, after)
  {
  }

  lemma StopsMore(script: seq<Generated>, n: nat, before: Snapshot, middle: Snapshot, after: Snapshot)
    requires n < |script| && StopsFrom(script, before, middle) && StopsBy(script[n], middle, after)
    ensures StopsFrom(script, before, after)
  {
  }

  /** One retirement: `before` extends the sequence it began with, and the plan for it was carried out and announced. */
  ghost predicate Retired(c: Config, window: int, required: int, b: Boundary, start: View, before: View, ranges: seq<Range>, after: View) {
    && start.tokens <= before.tokens && IsPlan(before, ranges, window)
    && Total(ranges) >= Needed(|before.tokens|, required, c.turnoverReserve, EventBudget(c), c.nCtx)
    && after == Retirement.View(RetireAll(before, ranges, window).tokens + b.retired, RetireAll(before, ranges, window).st)
  }

  class Runtime {
    const c: Config
    const window: int
    const canShift: bool
    var tokens: seq<int>
    var keepPrefix: int
    var spans: map<Key, Span>
    var mark: Mark
    var preparing: bool
    var framePending: bool
    var ended: bool
    var held: bool
    var suspendRequested: bool
    var stopAccepted: bool
    var active: bool
    var retirements: nat

    function State(): State
      reads this
    {
      Prompts.State(keepPrefix, spans, mark)
    }

    function View(): View
      reads this
    {
      Retirement.View(tokens, State())
    }

    ghost predicate Valid()
      reads this
    {
      && ValidConfig(c) && window >= 1
      && WellFormed(State(), |tokens|, {}) && MarkInRange(View())
      && |tokens| <= c.nCtx
      && (held ==> !active)
    }

    predicate Stopping()
      reads this
    {
      ended || held || suspendRequested
    }

    /** A token may be sampled: active and not asked to stop. */
    predicate Ready()
      reads this
    {
      active && !ended && !suspendRequested
    }

    /** No retirement is due for `required` more tokens: they fit, a stop was requested, or an unfinished frame may use the grace. */
    ghost predicate RoomFor(required: int, actionGrace: bool)
      reads this
    {
      || !AboveSoftLimit(c, |tokens|, required) || Stopping()
      || (actionGrace && framePending && Grace(c) > 0 && |tokens| + required <= c.nCtx - c.turnoverReserve + Grace(c))
    }

    /** Everything but the preparation flag. */
    function Now(): Snapshot
      reads this
    {
      Snapshot(View(), framePending, ended, held, suspendRequested, stopAccepted, active, retirements)
    }

    ghost predicate Unchanged(before: Snapshot)
      reads this
    {
      Now() == before
    }

    /** Native removal of one range, refused unless the recent window survives. */
    method Shift(start: int, count: int) returns (ok: bool)
      modifies this`tokens
      ensures ok <==> window >= 1 && KeepsWindow(old(|tokens|), [Range(start, count)], window)
      ensures ok ==> 0 <= start && 0 <= count && start + count <= old(|tokens|)
                     && tokens == Without(old(tokens), start, count)
      ensures !ok ==> tokens == old(tokens)
    {
      var valid := ValidateRetirements(|tokens|, [Range(start, count)], window);
      ok := valid.Ok?;
      if ok {
        tokens := tokens[..start] + tokens[start + count..];
      }
    }

    /** Validate every overlap before changing any position. */
    method FindOverlap(start: int, count: int) returns (found: bool)
      ensures found <==> Overlaps(State(), start, count)
    {
      var n := 0;
      while n < |PROTECTED_SPANS|
        invariant 0 <= n <= |PROTECTED_SPANS|
        invariant forall k :: k in PROTECTED_SPANS[..n] && k in spans ==>
          !(start < spans[k].end && start + count > spans[k].start)
      {
        var key := PROTECTED_SPANS[n];
        if key in spans && start < spans[key].end && start + count > spans[key].start {
          return true;
        }
        n := n + 1;
      }
      forall k: Key ensures k in PROTECTED_SPANS[..n] { EveryKeyListed(k); }
      return false;
    }

    method MoveSpans(start: int, count: int)
      modifies this`spans
      ensures spans == MoveState(old(State()), start, count).spans
    {
      var n := 0;
      while n < |PROTECTED_SPANS|
        invariant 0 <= n <= |PROTECTED_SPANS|
        invariant spans.Keys == old(spans).Keys
        invariant forall k :: k in spans ==>
          spans[k] == if k in PROTECTED_SPANS[..n] then Move(old(spans)[k], start, count) else old(spans)[k]
      {
        var key := PROTECTED_SPANS[n];
        EachKeyOnce(n);
        assert forall k :: k in PROTECTED_SPANS[..n + 1] <==> k == key || k in PROTECTED_SPANS[..n];
        if key in spans && start + count <= spans[key].start {
          spans := spans[key := Span(spans[key].start - count, spans[key].end - count)];
        }
        n := n + 1;
      }
      forall k: Key ensures k in PROTECTED_SPANS[..n] { EveryKeyListed(k); }
    }

    /** Relocate every span and the marker, or refuse without changing anything. */
    method ShiftProtected(start: int, count: int) returns (r: Result<(), Error>)
      modifies this`keepPrefix, this`spans, this`mark
      ensures r.Ok? <==> !Overlaps(old(State()), start, count)
      ensures r.Ok? ==> State() == Fold(MoveState(old(State()), start, count))
      ensures r.Err? ==> State() == old(State())
    {
      var overlap := FindOverlap(start, count);
      if overlap {
        return Err(RemovesProtected);
      }
      MoveSpans(start, count);
      if mark.At? {
        mark := if start + count <= mark.position then At(mark.position - count) else Invalidated;
      }
      if Protocol in spans && spans[Protocol].start == keepPrefix {
        keepPrefix := spans[Protocol].end;
        spans := spans - {Protocol};
      }
      return Ok(());
    }

    /** Carry out a validated plan range by range; no step can be refused. */
    method Retire(ranges: seq<Range>)
      requires IsPlan(View(), ranges, window)
      modifies this`tokens, this`keepPrefix, this`spans, this`mark
      ensures View() == RetireAll(old(View()), ranges, window)
    {
      var n := 0;
      while n < |ranges|
        invariant 0 <= n <= |ranges|
        invariant IsPlan(View(), ranges[n..], window)
        invariant RetireAll(View(), ranges[n..], window) == RetireAll(old(View()), ranges, window)
      {
        ghost var before, rest := View(), ranges[n..];
        var start, count := ranges[n].start, ranges[n].count;
        PlanStep(before, rest, window);
        PlanPassesValidation(before, rest, window);
        ClearNeverOverlaps(before, start, count);
        var shifted := Shift(start, count);
        assert shifted;
        var relocated := ShiftProtected(start, count);
        assert View() == ShiftView(before, start, count);
        assert rest[1..] == ranges[n + 1..];
        n := n + 1;
      }
      assert ranges[n..] == [];
    }

    /** Insert without making room first; the caller has reserved the space. */
    method InsertReserved(xs: seq<int>) returns (f: Fault)
      requires Valid()
      modifies this`tokens
      ensures Valid()
      ensures f == if BelowGuard(c, old(|tokens|), |xs|) || old(ended) then NoFault else ResultExhausted
      ensures tokens == if f.NoFault? && !ended then old(tokens) + xs else old(tokens)
    {
      if ended {
        return NoFault;
      }
      if |tokens| + |xs| > c.nCtx - 32 {
        return ResultExhausted;
      }
      tokens := tokens + xs;
      return NoFault;
    }
  
    method Observe(g: Signals)
      modifies this`ended, this`held, this`suspendRequested, this`stopAccepted, this`active
      ensures ended == (old(ended) || g.ended) && held == (old(held) || g.held)
      ensures suspendRequested == (old(suspendRequested) || g.suspend)
      ensures stopAccepted == (old(stopAccepted) || g.accepted)
      ensures active == (g.active && old(active) && !held)
    {
      ended, held := ended || g.ended, held || g.held;
      suspendRequested, stopAccepted := suspendRequested || g.suspend, stopAccepted || g.accepted;
      active := g.active && active && !held;
    }

    /** A working-memory action: its tokens, then its result, then its state update. */
    method CommitAction(a: Action, result: seq<int>) returns (f: Fault)
      requires Valid() && (a.Note? ==> a.tokens != []) && |result| <= EventBudget(c)
      requires BelowGuard(c, |tokens|, EventBudget(c))
      modifies this`tokens, this`spans, this`mark
      ensures Valid() && f.NoFault?
      ensures keepPrefix == old(keepPrefix)
      ensures Accepted(c, window, old(View()), a) && !ended ==>
        var change := Selected(old(View()), a).value;
        View() == Retirement.View(old(tokens) + change.tokens + result, change.st)
      ensures !Accepted(c, window, old(View()), a) && !ended ==>
        View() == Retirement.View(old(tokens) + result, old(State()))
      ensures ended ==> View() == old(View())
    {
      if ended {
        return NoFault;
      }
      var planned := PlanAction(c, window, View(), a);
      if planned.Err? {
        f := InsertReserved(result);
        return;
      }
      ghost var before := View();
      SelectedIsWellFormed(before, a);
      tokens := tokens + planned.value.tokens;
      f := NoFault;
      if |tokens| + |result| > c.nCtx - 32 {
        return ResultExhausted;
      }
      tokens := tokens + result;
      spans, mark := planned.value.st.spans, planned.value.st.mark;
    }

    /** The insertions a sampled token causes; an accepted action ends the turn. */
    method Respond(g: Generated) returns (f: Fault, accepted: bool)
      requires Valid() && !ended && BoundedToken(c, g) && BelowGuard(c, |tokens|, EventBudget(c))
      modifies this`tokens, this`spans, this`mark
      ensures Valid() && Responds(c, window, old(View()), g, View(), f)
      ensures accepted == AcceptedHere(c, window, old(View()), g)
    {
      f, accepted := NoFault, false;
      if g.action.Some? {
        var planned := PlanAction(c, window, View(), g.action.value);
        if planned.Ok? {
          accepted := true;
          f := CommitAction(g.action.value, g.result.value);
          return;
        }
      }
      if g.result.Some? {
        f := InsertReserved(g.result.value);
      }
      if g.interruption.Some? {
        f := InsertReserved(g.interruption.value);
      }
    }

    /** One sampled token with everything it causes; the caller has made room for it. */
    method SampleOne(g: Generated) returns (f: Fault)
      requires Valid() && !ended && BoundedToken(c, g) && BelowGuard(c, |tokens| + 1, EventBudget(c))
      modifies this`tokens, this`spans, this`mark, this`framePending,
               this`ended, this`held, this`suspendRequested, this`stopAccepted, this`active
      ensures Valid()
      ensures Samples(c, window, old(View()), g, View(), f)
      ensures framePending == g.pending
      ensures ended == (old(ended) || g.signals.ended) && held == (old(held) || g.signals.held)
      ensures suspendRequested == (old(suspendRequested) || g.signals.suspend)
      ensures stopAccepted == (old(stopAccepted) || g.signals.accepted)
      ensures active == (g.signals.active && old(active) && !held
        && (g.interruption.None? || AcceptedHere(c, window, Retirement.View(old(tokens) + [g.token], old(State())), g)))
    {
      hide Responds, Accepted, WellFormed;
      WellFormedLonger(State(), |tokens|, |tokens| + 1);
      tokens := tokens + [g.token];
      framePending := g.pending;
      var accepted;
      f, accepted := Respond(g);
      active := active && (accepted || g.interruption.None?);
      Observe(g.signals);
    }

    /**
     Room for `required` more tokens, by at most one retirement. A completed retirement always makes the
     room, so the branch that would pause because one freed nothing is unreachable.
     */
    method EnsureSpace(required: int, actionGrace: bool, b: Boundary) returns (f: Fault, ghost before: View, ghost ranges: seq<Range>)
      requires Valid() && 0 <= required && Bounded(c, b)
      modifies this
      ensures Valid() && preparing == old(preparing)
      ensures old(preparing) || old(RoomFor(required, actionGrace)) ==> Unchanged(old(Now()))
      ensures old(preparing) ==> f == if BelowGuard(c, |tokens|, required) then NoFault else PreparationExhausted
      ensures !old(preparing) && old(RoomFor(required, actionGrace)) ==> f == NoFault
      ensures !old(preparing) && f.NoFault? && !Stopping() && !old(RoomFor(required, actionGrace)) ==>
        && retirements == old(retirements) + 1 && !AboveSoftLimit(c, |tokens|, required)
        && Retired(c, window, required, b, old(View()), before, ranges, View())
      ensures SingleInsertions(b) ==> f != ResultExhausted
      ensures !old(preparing) && Ordinary(c, old(|tokens|)) && c.turnoverReserve >= 2 * EventBudget(c) + 32 ==> f != PreparationExhausted
      decreases if preparing then 1 else 4
    {
      before, ranges := View(), [];
      if preparing {
        f := if |tokens| + required > c.nCtx - 32 then PreparationExhausted else NoFault;
        return;
      }
      f := NoFault;
      while |tokens| + required > c.nCtx - c.turnoverReserve
        invariant Valid() && !preparing && f.NoFault?
        invariant Unchanged(old(Now())) || Stopping()
          || (!old(RoomFor(required, actionGrace)) && !AboveSoftLimit(c, |tokens|, required) && retirements == old(retirements) + 1
              && Retired(c, window, required, b, old(View()), before, ranges, View()))
        invariant old(RoomFor(required, actionGrace)) ==> Unchanged(old(Now()))
        decreases (if Stopping() then 0 else 1) + (if AboveSoftLimit(c, |tokens|, required) then 1 else 0)
      {
        if ended || held || suspendRequested {
          return;
        }
        var grace := Grace(c);
        if actionGrace && framePending && grace > 0 && |tokens| + required <= c.nCtx - c.turnoverReserve + grace {
          return;
        }
        var beforeRetirement := |tokens|;
        f, before, ranges := Consolidate(required, b);
        if !f.NoFault? {
          return;
        }
        if !ended && !held && !suspendRequested && |tokens| >= beforeRetirement {
          assert false;  // "context retirement made no room" cannot happen
        }
      }
    }

    method AppendNotice(b: Boundary) returns (f: Fault)
      requires Valid() && preparing && Bounded(c, b)
      modifies this
      ensures Valid() && preparing
      ensures f == if BelowGuard(c, old(|tokens|), |b.notice|) then NoFault else PreparationExhausted
      ensures Unchanged(old(Now()).(view := if f.NoFault? && !Stopping()
                                            then Retirement.View(old(tokens) + b.notice, old(State())) else old(View())))
      decreases 2, 0
    {
      ghost var room, plan;
      f, room, plan := EnsureSpace(|b.notice|, false, b);
      if f.NoFault? && !ended && !held && !suspendRequested {
        tokens := tokens + b.notice;
      }
    }

    /** How far a preparation has come since `start`: the trace is what its tokens caused, and only they raised a stop. */
    ghost predicate PreparedSo(b: Boundary, start: Snapshot, trace: seq<View>)
      reads this
    {
      && Valid() && preparing && start.view.tokens <= tokens && retirements == start.retirements
      && trace != [] && trace[|trace| - 1] == View()
      && (!ended ==> Traced(c, window, trace, b.script)) && StopsFrom(b.script, start, Now())
    }

    method PrepareTurn(b: Boundary, n: nat, ghost start: Snapshot, ghost trace: seq<View>) returns (f: Fault, ghost longer: seq<View>)
      requires Bounded(c, b) && n < |b.script| && |trace| == n + 1 && PreparedSo(b, start, trace)
      requires active && !suspendRequested && BelowGuard(c, |tokens| + 1, EventBudget(c))
      modifies this
      ensures longer == trace + [View()] && PreparedSo(b, start, longer)
      ensures f.NoFault? || f.ResultExhausted?
      ensures SingleInsertions(b) ==> f.NoFault?
      decreases 3, 0
    {
      hide Samples, StopsFrom, StopsBy, Retired, Traced, WellFormed, MarkInRange, RoomFor;
      ghost var middle, at, before, ranges := Now(), View(), View(), [];
      var sampled;
      f, sampled, at, before, ranges := GenerateOne(b.script[n], b);
      StopsMore(b.script, n, start, middle, Now());
      if sampled {
        SamplesExtend(c, window, at, b.script[n], View(), f);
        TracedMore(c, window, trace, b.script, View(), f);
      }
      longer := trace + [View()];
    }

    /**
     The preparation turn before a retirement: a notice, then tokens until their number, a stop or the
     headroom ends it. `trace` holds the sequence after the notice and after each turn.
     */
    method Prepare(b: Boundary) returns (f: Fault, ghost trace: seq<View>)
      requires Valid() && !preparing && Bounded(c, b)
      modifies this
      ensures Valid() && !preparing && old(tokens) <= tokens && retirements == old(retirements)
      ensures f.NoFault? || f.PreparationExhausted? || f.ResultExhausted?
      ensures SingleInsertions(b) ==> f != ResultExhausted
      ensures f.PreparationExhausted? ==> !BelowGuard(c, old(|tokens|), |b.notice|) && View() == old(View())
      ensures 1 <= |trace| <= c.preparationTokens + 1 && trace[|trace| - 1] == View()
      ensures trace[0] == Retirement.View(if old(Stopping()) || !BelowGuard(c, old(|tokens|), |b.notice|)
                                          then old(tokens) else old(tokens) + b.notice, old(State()))
      ensures !ended ==> Traced(c, window, trace, b.script)
      ensures f.NoFault? ==> |trace| == c.preparationTokens + 1 || suspendRequested || !active || !BelowGuard(c, |tokens| + 1, EventBudget(c))
      ensures StopsFrom(b.script, old(Now()), Now())
      decreases 3, 1
    {
      hide Traced, StopsFrom, WellFormed;
      preparing := true;
      f := AppendNotice(b);
      trace := [View()];
      PreparationStarts(c, window, trace, b.script, old(Now()), Now());
      var n := 0;
      while f.NoFault? && n < c.preparationTokens
        invariant 0 <= n <= c.preparationTokens && |trace| == n + 1 && PreparedSo(b, old(Now()), trace)
        invariant f.NoFault? || f.PreparationExhausted? || f.ResultExhausted?
        invariant SingleInsertions(b) ==> f != ResultExhausted
        invariant f.PreparationExhausted? ==> n == 0 && !BelowGuard(c, old(|tokens|), |b.notice|)
        invariant trace[0] == Retirement.View(if old(Stopping()) || !BelowGuard(c, old(|tokens|), |b.notice|)
                                              then old(tokens) else old(tokens) + b.notice, old(State()))
      {
        if suspendRequested || !active || |tokens| + 1 + EventBudget(c) > c.nCtx - 32 {
          break;
        }
        f, trace := PrepareTurn(b, n, old(Now()), trace);
        n := n + 1;
      }
      preparing := false;
    }

    /** Plan around everything protected, validate the whole plan, then carry it out. */
    method RetireFor(required: int) returns (f: Fault, ghost ranges: seq<Range>)
      requires Valid() && 0 <= required
      modifies this`tokens, this`keepPrefix, this`spans, this`mark, this`active
      ensures f.NoFault? || f.NoUsablePlan?
      ensures f.NoFault? <==>
        CanRetire(old(State()), old(|tokens|),
                  Needed(old(|tokens|), required, c.turnoverReserve, EventBudget(c), c.nCtx), window)
      ensures f.NoUsablePlan? ==> View() == old(View()) && !active
      ensures f.NoFault? ==>
        && IsPlan(old(View()), ranges, window)
        && Total(ranges) >= Needed(old(|tokens|), required, c.turnoverReserve, EventBudget(c), c.nCtx)
        && View() == RetireAll(old(View()), ranges, window)
        && |tokens| == old(|tokens|) - Total(ranges) && active == old(active)
      ensures Valid()
    {
      ghost var before := View();
      ranges := [];
      var planned := RetirementRanges(State(), |tokens|, required, c.turnoverReserve, EventBudget(c), window, Some(c.nCtx));
      if planned.Err? {
        active := false;
        f := NoUsablePlan;
        return;
      }
      ranges := planned.value;
      assert IsPlan(before, ranges, window);
      PlanKeepsRecent(before, ranges, window);
      PlanPassesValidation(before, ranges, window);
      PlanKeepsWellFormed(before, ranges, window);
      var valid := ValidateRetirements(|tokens|, planned.value, window);
      assert valid.Ok?;
      Retire(planned.value);
      f := NoFault;
    }

    /** The retirement itself, counted and announced. */
    method RetireAndAnnounce(required: int, b: Boundary) returns (f: Fault, ghost ranges: seq<Range>)
      requires Valid() && 0 <= required && Bounded(c, b)
      modifies this`tokens, this`keepPrefix, this`spans, this`mark, this`active, this`retirements, this`framePending
      ensures Valid()
      ensures f == if CanRetire(old(State()), old(|tokens|),
          Needed(old(|tokens|), required, c.turnoverReserve, EventBudget(c), c.nCtx), window) then NoFault else NoUsablePlan
      ensures f.NoUsablePlan? ==> View() == old(View()) && !active && retirements == old(retirements)
      ensures f.NoFault? ==>
        && Retired(c, window, required, b, old(View()), old(View()), ranges, View())
        && retirements == old(retirements) + 1 && active == old(active)
        && |tokens| + required + 256 <= c.nCtx - c.turnoverReserve
    {
      hide KeepsWindow, WellFormed, CanRetire, Needed, IsPlan, RetireAll;
      ghost var before := View();
      f, ranges := RetireFor(required);
      if !f.NoFault? {
        return;
      }
      RetirementFits(c, |before.tokens|, required, Total(ranges));
      WellFormedLonger(State(), |tokens|, |tokens| + |b.retired|);
      retirements := retirements + 1;
      framePending := false;
      tokens := tokens + b.retired;
    }

    /**
     One retirement: prepare, plan, shift range by range, announce.  When it completes without a
     stop request, `required` tokens fit below the soft limit with 256 to spare.
     */
    method Consolidate(required: int, b: Boundary) returns (f: Fault, ghost before: View, ghost ranges: seq<Range>)
      requires Valid() && !preparing && 0 <= required && Bounded(c, b)
      modifies this
      ensures Valid() && !preparing
      ensures SingleInsertions(b) ==> f != ResultExhausted
      ensures BelowGuard(c, old(|tokens|), |b.notice|) ==> f != PreparationExhausted
      ensures f.NoFault? && !Stopping() ==> |tokens| + required + 256 <= c.nCtx - c.turnoverReserve
      ensures f.NoFault? && retirements != old(retirements) ==>
        retirements == old(retirements) + 1 && Retired(c, window, required, b, old(View()), before, ranges, View())
      ensures f.NoFault? && !Stopping() ==> retirements != old(retirements)
      ensures f.CannotRetire? <==> !canShift || old(|tokens|) <= old(keepPrefix) + 1
      ensures f.CannotRetire? || f.NoUsablePlan? ==> !active
      ensures f.NoUsablePlan? ==>
        && old(tokens) <= before.tokens && View() == before
        && !CanRetire(before.st, |before.tokens|, Needed(|before.tokens|, required, c.turnoverReserve, EventBudget(c), c.nCtx), window)
      ensures StopsFrom(b.script, old(Now()), Now())
      decreases 3, 2
    {
      hide Traced, KeepsWindow, WellFormed, CanRetire, Needed, IsPlan, RetireAll;
      before, ranges := View(), [];
      if !canShift || |tokens| <= keepPrefix + 1 {
        active := false;
        f := CannotRetire;
        return;
      }
      ghost var trace;
      f, trace := Prepare(b);
      if !f.NoFault? || ended || held || (suspendRequested && stopAccepted) {
        return;
      }
      before := View();
      f, ranges := RetireAndAnnounce(required, b);
    }

    /**
     Sample one token once room for it and for its largest result is certain. `at` is the sequence it was
     sampled from; a retirement made for it is the one of `before` and `ranges`.
     */
    method GenerateOne(g: Generated, b: Boundary)
      returns (f: Fault, sampled: bool, ghost at: View, ghost before: View, ghost ranges: seq<Range>)
      requires Valid() && Bounded(c, b) && BoundedToken(c, g)
      requires preparing ==> BelowGuard(c, |tokens| + 1, EventBudget(c))
      modifies this
      ensures Valid() && preparing == old(preparing)
      ensures sampled ==> Samples(c, window, at, g, View(), f)
      ensures old(preparing) || old(RoomFor(1, true)) ==> (sampled <==> old(Ready()))
      ensures (old(preparing) || old(RoomFor(1, true))) && sampled ==> at == old(View()) && retirements == old(retirements)
      ensures (old(preparing) || old(RoomFor(1, true))) && !sampled ==> f.NoFault? && Unchanged(old(Now()))
      ensures !old(preparing) && !old(RoomFor(1, true)) && sampled ==>
        retirements == old(retirements) + 1 && Retired(c, window, 1, b, old(View()), before, ranges, at)
      ensures !sampled && f.NoFault? ==> !Ready()
      ensures old(preparing) ==> StopsBy(g, old(Now()), Now())
      ensures old(preparing) ==> f.NoFault? || f.ResultExhausted?
      ensures SingleInsertions(b) && OneInsertion(g) ==> f != ResultExhausted
      ensures !old(preparing) && f.NoFault? && sampled && g.action.None? && OneInsertion(g) ==> Ordinary(c, |tokens|)
      ensures !old(preparing) && Ordinary(c, old(|tokens|)) && c.turnoverReserve >= 2 * EventBudget(c) + 32 ==> f != PreparationExhausted
      decreases if preparing then 2 else 5
    {
      hide Samples, Retired, WellFormed, Needed;
      f, sampled, at, before, ranges := NoFault, false, View(), View(), [];
      if !active {
        return;
      }
      f, before, ranges := EnsureSpace(1, true, b);
      if !f.NoFault? || ended || !active || suspendRequested {
        return;
      }
      if !preparing {
        TokenAndResultFit(c, |tokens|);
      }
      at := View();
      f := SampleOne(g);
      sampled := true;
      SamplesFit(c, window, at, g, View(), f);
    }

    /** An external event: room first, then the stop and admissibility checks at the insertion boundary. */
    method AppendEvent(xs: seq<int>, admissible: bool, b: Boundary)
      returns (f: Fault, appended: bool, ghost at: View, ghost before: View, ghost ranges: seq<Range>)
      requires Valid() && !preparing && Bounded(c, b) && |xs| <= EventBudget(c)
      modifies this
      ensures Valid() && !preparing
      ensures SingleInsertions(b) ==> f != ResultExhausted
      ensures Ordinary(c, old(|tokens|)) && c.turnoverReserve >= 2 * EventBudget(c) + 32 ==> f != PreparationExhausted
      ensures appended <==> f.NoFault? && admissible && !Stopping()
      ensures appended ==> View() == Retirement.View(at.tokens + xs, at.st) && !AboveSoftLimit(c, |tokens|, 0) && Ordinary(c, |tokens|)
      ensures !AboveSoftLimit(c, old(|tokens|), |xs|) || old(Stopping()) ==>
        f.NoFault? && retirements == old(retirements) && at == old(View()) && Stopping() == old(Stopping()) && (!appended ==> View() == at)
      ensures AboveSoftLimit(c, old(|tokens|), |xs|) && appended ==>
        retirements == old(retirements) + 1 && Retired(c, window, |xs|, b, old(View()), before, ranges, at)
    {
      hide Retired, WellFormed;
      appended, at, before, ranges := false, View(), View(), [];
      framePending := false;
      if ended {
        f := NoFault;
        return;
      }
      f, before, ranges := EnsureSpace(|xs|, false, b);
      at := View();
      if !f.NoFault? || ended || held || suspendRequested || !admissible {
        return;
      }
      WellFormedLonger(State(), |tokens|, |tokens| + |xs|);
      tokens := tokens + xs;
      appended := true;
    }
  }

  /** What a plan frees holds the announcement, what was asked for, and 256 tokens more. */
  lemma RetirementFits(c: Config, length: int, required: int, total: int)
    requires total >= Needed(length, required, c.turnoverReserve, EventBudget(c), c.nCtx)
    ensures length - total + EventBudget(c) + required + 256 <= c.nCtx - c.turnoverReserve
  {
  }

  lemma WellFormedLonger(st: Prompts.State, length: int, longer: int)
    requires WellFormed(st, length, {}) && length <= longer
    ensures WellFormed(st, longer, {})
  {
  }

  lemma {:induction false} PlanKeepsWellFormed(v: View, ranges: seq<Range>, window: int)
    requires IsPlan(v, ranges, window) && MarkInRange(v)
    ensures var w := RetireAll(v, ranges, window); WellFormed(w.st, |w.tokens|, {}) && MarkInRange(w)
    decreases |ranges|
  {
    if ranges != [] {
      PlanStep(v, ranges, window);
      PlanKeepsWellFormed(ShiftView(v, ranges[0].start, ranges[0].count), ranges[1..], window);
    }
  }

  lemma EachKeyOnce(n: nat)
    requires n < |PROTECTED_SPANS|
    ensures PROTECTED_SPANS[n] !in PROTECTED_SPANS[..n]
  {
  }
}
