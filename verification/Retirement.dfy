/**
 What one retirement does to the token sequence and to every position that refers
 to it (dmn/prompts.py `shift_protected`, dmn/backend.py `shift`).
 */
module Retirement {
  import opened Wrappers
  import opened Prompts
  import opened CompactCache

  datatype View = View(tokens: seq<int>, st: State)

  /*------------------------------------------------------------------ one shift */

  function Move(s: Span, start: int, count: int): Span {
    if start + count <= s.start then Span(s.start - count, s.end - count) else s
  }

  function MoveMark(m: Mark, start: int, count: int): Mark {
    match m
    case At(p) => if start + count <= p then At(p - count) else Invalidated
    case _ => m
  }

  /** A protocol span that touches the prefix becomes part of it. */
  function Fold(st: State): State {
    if Protocol in st.spans && st.spans[Protocol].start == st.keepPrefix then
      st.(keepPrefix := st.spans[Protocol].end, spans := st.spans - {Protocol})
    else st
  }

  function MoveState(st: State, start: int, count: int): State {
    st.(spans := map k | k in st.spans :: Move(st.spans[k], start, count),
        mark := MoveMark(st.mark, start, count))
  }

  function Without(tokens: seq<int>, start: int, count: int): seq<int>
    requires 0 <= start && 0 <= count && start + count <= |tokens|
  {
    tokens[..start] + tokens[start + count..]
  }

  function ShiftView(v: View, start: int, count: int): View
    requires 0 <= start && 0 <= count && start + count <= |v.tokens|
  {
    View(Without(v.tokens, start, count), Fold(MoveState(v.st, start, count)))
  }

  /** The check `shift_protected` makes before it changes anything. */
  predicate Overlaps(st: State, start: int, count: int) {
    exists k :: k in st.spans && start < st.spans[k].end && start + count > st.spans[k].start
  }

  /** The step removes unprotected tokens only. */
  ghost predicate Clear(v: View, start: int, count: int) {
    && WellFormed(v.st, |v.tokens|, {})
    && 0 <= start && 0 < count && start + count <= |v.tokens|
    && forall p :: start <= p < start + count ==> !Protected(v.st, {}, p)
  }

  lemma ClearNeverOverlaps(v: View, start: int, count: int)
    requires WellFormed(v.st, |v.tokens|, {}) && 0 <= start && 0 < count && start + count <= |v.tokens|
    ensures Clear(v, start, count) <==> !Overlaps(v.st, start, count) && v.st.keepPrefix <= start
  {
    if Clear(v, start, count) {
      assert !Protected(v.st, {}, start);
      forall k | k in v.st.spans ensures !(start < v.st.spans[k].end && start + count > v.st.spans[k].start) {
        var p := Max(start, v.st.spans[k].start);
        if start <= p < start + count {
          assert !Protected(v.st, {}, p);
          assert !In(v.st.spans[k], p);
        }
      }
    }
  }

  /** Where a retained position was before the step. */
  function Lift(p: int, start: int, count: int): int {
    if p < start then p else p + count
  }

  lemma FoldProtectsSame(st: State, p: int)
    requires 0 <= st.keepPrefix
    requires Protocol in st.spans ==> st.spans[Protocol].start <= st.spans[Protocol].end
    ensures Protected(Fold(st), {}, p) <==> Protected(st, {}, p)
  {
    if Protected(st, {}, p) && !(0 <= p < st.keepPrefix) {
      var k :| k in st.spans && In(st.spans[k], p);
      if k in Fold(st).spans { assert In(Fold(st).spans[k], p); }
    }
    if Protected(Fold(st), {}, p) && !(0 <= p < Fold(st).keepPrefix) {
      var k :| k in Fold(st).spans && In(Fold(st).spans[k], p);
      assert In(st.spans[k], p);
    }
    if Protocol in st.spans && st.spans[Protocol].start == st.keepPrefix <= p < Fold(st).keepPrefix {
      assert In(st.spans[Protocol], p);
    }
  }

  lemma ClearSpan(v: View, start: int, count: int, k: Key)
    requires Clear(v, start, count) && k in v.st.spans
    ensures var s := v.st.spans[k]; s.end <= start || start + count <= s.start
  {
    ClearNeverOverlaps(v, start, count);
  }

  lemma MoveProtects(v: View, start: int, count: int, p: int)
    requires Clear(v, start, count)
    ensures Protected(MoveState(v.st, start, count), {}, p) <==> Protected(v.st, {}, Lift(p, start, count))
  {
    var moved := MoveState(v.st, start, count);
    assert v.st.keepPrefix <= start by { ClearNeverOverlaps(v, start, count); }
    var q := Lift(p, start, count);
    forall k | k in v.st.spans ensures In(moved.spans[k], p) <==> In(v.st.spans[k], q) {
      ClearSpan(v, start, count, k);
    }
    if Protected(v.st, {}, q) && !(0 <= q < v.st.keepPrefix) {
      var k :| k in v.st.spans && In(v.st.spans[k], q);
      assert In(moved.spans[k], p);
    }
    if Protected(moved, {}, p) && !(0 <= p < moved.keepPrefix) {
      var k :| k in moved.spans && In(moved.spans[k], p);
      assert In(v.st.spans[k], q);
    }
  }

  /** Protection follows the tokens: a retained position is protected afterwards iff it was before. */
  lemma ProtectionFollows(v: View, start: int, count: int, p: int)
    requires Clear(v, start, count)
    ensures Protected(ShiftView(v, start, count).st, {}, p) <==> Protected(v.st, {}, Lift(p, start, count))
  {
    MoveProtects(v, start, count, p);
    if Protocol in v.st.spans { ClearSpan(v, start, count, Protocol); }
    FoldProtectsSame(MoveState(v.st, start, count), p);
  }

  lemma ShiftWellFormed(v: View, start: int, count: int)
    requires Clear(v, start, count)
    ensures WellFormed(ShiftView(v, start, count).st, |v.tokens| - count, {})
  {
    ClearNeverOverlaps(v, start, count);
  }

  function SpanTokens(v: View, k: Key): seq<int>
    requires k in v.st.spans && Fits(v.st.spans[k], |v.tokens|)
  {
    v.tokens[v.st.spans[k].start..v.st.spans[k].end]
  }

  function PrefixTokens(v: View): seq<int>
    requires 0 <= v.st.keepPrefix <= |v.tokens|
  {
    v.tokens[..v.st.keepPrefix]
  }

  /** The prefix with the protocol text that may be folded into it at any step. */
  ghost function PermanentTokens(v: View): seq<int>
    requires WellFormed(v.st, |v.tokens|, {})
  {
    PrefixTokens(v) + if Protocol in v.st.spans then SpanTokens(v, Protocol) else []
  }

  /** The tokens at protected positions below `n`, in order. */
  ghost function ProtectedTokens(v: View, n: int): seq<int>
    requires n <= |v.tokens|
    decreases n
  {
    if n <= 0 then []
    else ProtectedTokens(v, n - 1) + (if Protected(v.st, {}, n - 1) then [v.tokens[n - 1]] else [])
  }

  /** Everything the state still names denotes the same tokens in both views. */
  ghost predicate SameMeaning(v: View, w: View) {
    && WellFormed(v.st, |v.tokens|, {}) && WellFormed(w.st, |w.tokens|, {})
    && v.st.spans.Keys - {Protocol} <= w.st.spans.Keys <= v.st.spans.Keys
    && (forall k :: k in w.st.spans ==> SpanTokens(w, k) == SpanTokens(v, k))
    && PermanentTokens(w) == PermanentTokens(v)
    && PrefixTokens(v) <= PrefixTokens(w)
    && ProtectedTokens(w, |w.tokens|) == ProtectedTokens(v, |v.tokens|)
  }

  lemma SameMeaningTransitive(u: View, v: View, w: View)
    requires SameMeaning(u, v) && SameMeaning(v, w)
    ensures SameMeaning(u, w)
  {
  }

  lemma MovedSpanTokens(v: View, start: int, count: int, k: Key)
    requires Clear(v, start, count) && k in v.st.spans
    ensures var s := Move(v.st.spans[k], start, count);
      && Fits(s, |v.tokens| - count)
      && Without(v.tokens, start, count)[s.start..s.end] == SpanTokens(v, k)
  {
    ClearSpan(v, start, count, k);
    var s, m := v.st.spans[k], Move(v.st.spans[k], start, count);
    var t := Without(v.tokens, start, count);
    assert forall i :: m.start <= i < m.end ==> t[i] == v.tokens[Lift(i, start, count)];
    assert t[m.start..m.end] == v.tokens[s.start..s.end];
  }

  lemma ShiftKeepsPermanent(v: View, start: int, count: int)
    requires Clear(v, start, count)
    ensures WellFormed(ShiftView(v, start, count).st, |v.tokens| - count, {})
    ensures PermanentTokens(ShiftView(v, start, count)) == PermanentTokens(v)
    ensures PrefixTokens(v) <= PrefixTokens(ShiftView(v, start, count))
  {
    ShiftWellFormed(v, start, count);
    ClearNeverOverlaps(v, start, count);
    var keep, t, w := v.st.keepPrefix, Without(v.tokens, start, count), ShiftView(v, start, count);
    assert t[..keep] == v.tokens[..keep];
    if Protocol in v.st.spans {
      MovedSpanTokens(v, start, count, Protocol);
      var m := Move(v.st.spans[Protocol], start, count);
      if m.start == keep {
        assert t[..m.end] == t[..keep] + t[keep..m.end];
      }
    }
  }

  lemma {:induction false} ShiftKeepsProtectedBelow(v: View, start: int, count: int, n: int)
    requires Clear(v, start, count) && 0 <= n <= start
    ensures ProtectedTokens(ShiftView(v, start, count), n) == ProtectedTokens(v, n)
    decreases n
  {
    if n > 0 {
      ShiftKeepsProtectedBelow(v, start, count, n - 1);
      ProtectionFollows(v, start, count, n - 1);
    }
  }

  lemma {:induction false} NothingProtectedInside(v: View, start: int, count: int, n: int)
    requires Clear(v, start, count) && start <= n <= start + count
    ensures ProtectedTokens(v, n) == ProtectedTokens(v, start)
    decreases n
  {
    if n > start {
      NothingProtectedInside(v, start, count, n - 1);
    }
  }

  lemma {:induction false} ShiftKeepsProtected(v: View, start: int, count: int, n: int)
    requires Clear(v, start, count) && start <= n <= |v.tokens| - count
    ensures ProtectedTokens(ShiftView(v, start, count), n) == ProtectedTokens(v, n + count)
    decreases n
  {
    if n == start {
      ShiftKeepsProtectedBelow(v, start, count, start);
      NothingProtectedInside(v, start, count, start + count);
    } else {
      ShiftKeepsProtected(v, start, count, n - 1);
      ProtectionFollows(v, start, count, n - 1);
    }
  }

  lemma ShiftKeepsMeaning(v: View, start: int, count: int)
    requires Clear(v, start, count)
    ensures SameMeaning(v, ShiftView(v, start, count))
  {
    ShiftWellFormed(v, start, count);
    var w := ShiftView(v, start, count);
    forall k | k in w.st.spans ensures SpanTokens(w, k) == SpanTokens(v, k) {
      MovedSpanTokens(v, start, count, k);
    }
    ShiftKeepsPermanent(v, start, count);
    ShiftKeepsProtected(v, start, count, |v.tokens| - count);
  }

  /*------------------------------------------------------------------ free positions after a shift */

  function Lower(f: seq<int>, c: int): (r: seq<int>)
    ensures |r| == |f| && forall i :: 0 <= i < |f| ==> r[i] == f[i] - c
  {
    seq(|f|, i requires 0 <= i < |f| => f[i] - c)
  }

  lemma {:induction false} FreeIsPrefix(st: State, a: int, b: int)
    requires a <= b
    ensures Free(st, a) <= Free(st, b)
    decreases b
  {
    if a < b && 0 < b {
      FreeIsPrefix(st, a, b - 1);
    }
  }

  lemma FreeBelowIsLeading(st: State, start: int, count: nat, limit: int)
    requires 0 < count <= |Free(st, limit)| && Free(st, limit)[..count] == Interval(start, count)
    ensures 0 <= start && start + count <= limit && Free(st, start + count) == Interval(start, count)
  {
    hide Free, Protected;
    var all, h := Free(st, limit), start + count;
    FreeAscends(st, limit);
    assert all[0] == start && all[count - 1] == h - 1;
    FreeIsPrefix(st, h, limit);
    FreeAscends(st, h);
    var low := Free(st, h);
    FreeIsExact(st, limit, h - 1);
    FreeIsExact(st, h, h - 1);
    var i :| 0 <= i < |low| && low[i] == h - 1;
    assert low[i] == all[i] == all[count - 1];
    assert i == count - 1;
    assert count < |all| ==> all[count - 1] < all[count];
  }

  lemma {:induction false} FreeAgrees(v: View, start: int, count: int, n: int)
    requires Clear(v, start, count) && n <= start
    ensures Free(ShiftView(v, start, count).st, n) == Free(v.st, n)
    decreases n
  {
    if n > 0 {
      FreeAgrees(v, start, count, n - 1);
      ProtectionFollows(v, start, count, n - 1);
    }
  }

  /** After the oldest free run leaves, the free positions are the remaining ones, moved down. */
  lemma {:induction false} FreeAfterShift(v: View, start: int, count: int, n: int)
    requires Clear(v, start, count) && Free(v.st, start + count) == Interval(start, count) && start <= n
    ensures count <= |Free(v.st, n + count)|
    ensures Free(ShiftView(v, start, count).st, n) == Lower(Free(v.st, n + count)[count..], count)
    decreases n
  {
    hide Free, Protected, ShiftView, Clear;
    if n == start {
      NothingFreeBefore(v, start, count);
      FreeStartsClear(v, start, count);
    } else {
      ClearFits(v, start, count);
      FreeSnoc(ShiftView(v, start, count).st, n - 1);
      FreeSnoc(v.st, n - 1 + count);
      ProtectionFollows(v, start, count, n - 1);
      LiftsPast(n - 1, start, count);
      FreeAfterShift(v, start, count, n - 1);
      LowerSnoc(Free(v.st, n - 1 + count), n - 1 + count, count);
    }
  }

  lemma ClearFits(v: View, start: int, count: int)
    requires Clear(v, start, count)
    ensures 0 <= start && 0 < count && start + count <= |v.tokens|
  {
  }

  lemma LiftsPast(p: int, start: int, count: int)
    requires start <= p
    ensures Lift(p, start, count) == p + count
  {
  }

  lemma FreeStartsClear(v: View, start: int, count: int)
    requires Clear(v, start, count) && Free(v.st, start + count) == Interval(start, count)
    ensures Lower(Free(v.st, start + count)[count..], count) == []
  {
    assert Free(v.st, start + count)[count..] == [];
  }

  lemma NothingFreeBefore(v: View, start: int, count: int)
    requires Clear(v, start, count) && Free(v.st, start + count) == Interval(start, count)
    ensures Free(ShiftView(v, start, count).st, start) == [] == Free(v.st, start + count)[count..]
  {
    FreeAgrees(v, start, count, start);
    FreeOpen(v.st, start, start + count);
    assert |Free(v.st, start)| == 0;
  }

  lemma FreeSnoc(st: State, n: int)
    requires n >= 0
    ensures Free(st, n + 1) == if Protected(st, {}, n) then Free(st, n) else Free(st, n) + [n]
  {
    assert Free(st, n) + [] == Free(st, n);
  }

  lemma LowerSnoc(before: seq<int>, x: int, count: nat)
    requires count <= |before|
    ensures Lower((before + [x])[count..], count) == Lower(before[count..], count) + [x - count]
  {
    assert (before + [x])[count..] == before[count..] + [x];
  }

  /*------------------------------------------------------------------ a whole plan */

  /** `ranges` deletes the oldest unprotected positions, none of them among the last `window`. */
  ghost predicate IsPlan(v: View, ranges: seq<Range>, window: int) {
    && WellFormed(v.st, |v.tokens|, {}) && 1 <= window <= |v.tokens|
    && Positive(ranges)
    && 0 <= Total(ranges) <= |Free(v.st, |v.tokens| - window)|
    && Expand(ranges, 0) == Free(v.st, |v.tokens| - window)[..Total(ranges)]
  }

  lemma {:induction false} TotalNonNegative(ranges: seq<Range>)
    requires Positive(ranges)
    ensures Total(ranges) >= |ranges|
  {
    if ranges != [] {
      TotalNonNegative(ranges[1..]);
    }
  }

  lemma {:induction false} ExpandLength(ranges: seq<Range>, removed: int)
    requires Positive(ranges)
    ensures |Expand(ranges, removed)| == Total(ranges)
  {
    if ranges != [] {
      ExpandLength(ranges[1..], removed + ranges[0].count);
    }
  }

  lemma {:induction false} ExpandLower(ranges: seq<Range>, removed: int, c: int)
    requires Positive(ranges)
    ensures Expand(ranges, removed) == Lower(Expand(ranges, removed + c), c)
  {
    if ranges != [] {
      ExpandOf(ranges, removed);
      ExpandOf(ranges, removed + c);
      hide Expand;
      ExpandLower(ranges[1..], removed + ranges[0].count, c);
      LowerConcat(Interval(ranges[0].start + removed + c, ranges[0].count), Expand(ranges[1..], removed + c + ranges[0].count), c);
    }
  }

  lemma LowerConcat(a: seq<int>, b: seq<int>, c: int)
    ensures Lower(a + b, c) == Lower(a, c) + Lower(b, c)
  {
  }

  lemma PlanStartsClear(v: View, ranges: seq<Range>, window: int)
    requires IsPlan(v, ranges, window) && ranges != []
    ensures var r := ranges[0];
      && Clear(v, r.start, r.count) && r.start + r.count <= |v.tokens| - window
      && Free(v.st, r.start + r.count) == Interval(r.start, r.count)
  {
    var r, limit := ranges[0], |v.tokens| - window;
    var free := Free(v.st, limit);
    TotalNonNegative(ranges[1..]);
    assert free[..r.count] == Expand(ranges, 0)[..r.count] == Interval(r.start, r.count);
    FreeBelowIsLeading(v.st, r.start, r.count, limit);
    forall p | r.start <= p < r.start + r.count ensures !Protected(v.st, {}, p) {
      FreeIsExact(v.st, limit, p);
      assert free[p - r.start] == Interval(r.start, r.count)[p - r.start] == p;
    }
  }

  lemma RemainingExpansion(ranges: seq<Range>, free: seq<int>)
    requires Positive(ranges) && ranges != [] && 0 <= Total(ranges) <= |free|
    requires Expand(ranges, 0) == free[..Total(ranges)]
    ensures var c, rest := ranges[0].count, ranges[1..];
      && 0 <= Total(rest) <= |free| - c
      && Expand(rest, 0) == Lower(free[c..], c)[..Total(rest)]
  {
    var c, rest := ranges[0].count, ranges[1..];
    ExpandTail(ranges);
    hide Expand, Total;
    TotalNonNegative(rest);
    ExpandLower(rest, 0, c);
    PrefixTail(free, c, Total(rest));
    assert Expand(rest, c) == free[c..][..Total(rest)];
    LowerPrefix(free[c..], c, Total(rest));
  }

  lemma ExpandTail(ranges: seq<Range>)
    requires Positive(ranges) && ranges != []
    ensures Total(ranges) == ranges[0].count + Total(ranges[1..])
    ensures |Expand(ranges, 0)| >= ranges[0].count && Expand(ranges, 0)[ranges[0].count..] == Expand(ranges[1..], ranges[0].count)
  {
  }

  lemma LowerPrefix(free: seq<int>, c: int, n: nat)
    requires n <= |free|
    ensures Lower(free[..n], c) == Lower(free, c)[..n]
  {
  }

  lemma PrefixTail(free: seq<int>, c: nat, n: nat)
    requires c + n <= |free|
    ensures free[..c + n][c..] == free[c..][..n]
  {
  }

  /** The first step of a plan is clear, and the remaining steps are a plan for what it leaves. */
  lemma PlanStep(v: View, ranges: seq<Range>, window: int)
    requires IsPlan(v, ranges, window) && ranges != []
    ensures var r := ranges[0];
      && Clear(v, r.start, r.count) && r.start + r.count <= |v.tokens| - window
      && IsPlan(ShiftView(v, r.start, r.count), ranges[1..], window)
  {
    var r, limit := ranges[0], |v.tokens| - window;
    PlanStartsClear(v, ranges, window);
    ShiftWellFormed(v, r.start, r.count);
    FreeAfterShift(v, r.start, r.count, limit - r.count);
    RemainingExpansion(ranges, Free(v.st, limit));
  }

  /** Every step of the plan in turn: native shift, then relocation of the state. */
  ghost function RetireAll(v: View, ranges: seq<Range>, window: int): View
    requires IsPlan(v, ranges, window)
    decreases |ranges|
  {
    if ranges == [] then v
    else
      PlanStep(v, ranges, window);
      RetireAll(ShiftView(v, ranges[0].start, ranges[0].count), ranges[1..], window)
  }

  /** The tokens whose positions are not in `gone`, in order. */
  function Survivors(tokens: seq<int>, gone: seq<int>): seq<int> {
    if tokens == [] then []
    else
      var n := |tokens| - 1;
      Survivors(tokens[..n], gone) + (if n in gone then [] else [tokens[n]])
  }

  lemma {:induction false} SurvivorsUntouched(tokens: seq<int>, gone: seq<int>)
    requires forall p :: p in gone ==> p >= |tokens|
    ensures Survivors(tokens, gone) == tokens
  {
    if tokens != [] {
      SurvivorsUntouched(tokens[..|tokens| - 1], gone);
    }
  }

  lemma {:induction false} SurvivorsOfRun(tokens: seq<int>, start: nat, count: nat, later: seq<int>)
    requires start <= |tokens| <= start + count
    requires forall p :: p in later ==> p >= start + count
    ensures Survivors(tokens, Interval(start, count) + later) == tokens[..start]
    decreases |tokens|
  {
    var gone := Interval(start, count) + later;
    if |tokens| == start {
      SurvivorsUntouched(tokens, gone);
    } else {
      var n := |tokens| - 1;
      SurvivorsOfRun(tokens[..n], start, count, later);
      assert gone[n - start] == n;
      assert tokens[..n][..start] == tokens[..start];
    }
  }

  lemma MemberOfLower(later: seq<int>, c: int, n: int)
    ensures n in Lower(later, c) <==> n + c in later
  {
    if n + c in later {
      var i :| 0 <= i < |later| && later[i] == n + c;
      assert Lower(later, c)[i] == n;
    }
  }

  /** Deleting one leading run and then the rest is deleting all of them at once. */
  lemma {:induction false} SurvivorsStep(tokens: seq<int>, start: nat, count: nat, later: seq<int>)
    requires start + count <= |tokens|
    requires forall p :: p in later ==> p >= start + count
    ensures Survivors(tokens, Interval(start, count) + later)
         == Survivors(Without(tokens, start, count), Lower(later, count))
    decreases |tokens|
  {
    var gone, t := Interval(start, count) + later, Without(tokens, start, count);
    if |tokens| == start + count {
      SurvivorsOfRun(tokens, start, count, later);
      assert t == tokens[..start];
      forall p | p in Lower(later, count) ensures p >= |t| { MemberOfLower(later, count, p); }
      SurvivorsUntouched(t, Lower(later, count));
    } else {
      var n := |tokens| - 1;
      SurvivorsStep(tokens[..n], start, count, later);
      assert t[..|t| - 1] == Without(tokens[..n], start, count);
      MemberOfLower(later, count, n - count);
      assert n in gone <==> n in later;
    }
  }

  lemma PlanLaterPositions(v: View, ranges: seq<Range>, window: int)
    requires IsPlan(v, ranges, window) && ranges != []
    ensures forall p :: p in Expand(ranges[1..], ranges[0].count) ==> p >= ranges[0].start + ranges[0].count
  {
    var r, free := ranges[0], Free(v.st, |v.tokens| - window);
    FreeAscends(v.st, |v.tokens| - window);
    TotalNonNegative(ranges[1..]);
    var all, later := Expand(ranges, 0), Expand(ranges[1..], r.count);
    forall p | p in later ensures p >= r.start + r.count {
      var i :| 0 <= i < |later| && later[i] == p;
      assert all[r.count + i] == p && all[r.count - 1] == r.start + r.count - 1;
      assert free[r.count + i] == p && free[r.count - 1] == r.start + r.count - 1;
    }
  }

  lemma {:induction false} PlanDeletesExactly(v: View, ranges: seq<Range>, window: int)
    requires IsPlan(v, ranges, window)
    ensures RetireAll(v, ranges, window).tokens == Survivors(v.tokens, Expand(ranges, 0))
    decreases |ranges|
  {
    if ranges == [] {
      SurvivorsUntouched(v.tokens, []);
    } else {
      var r := ranges[0];
      PlanStep(v, ranges, window);
      PlanDeletesExactly(ShiftView(v, r.start, r.count), ranges[1..], window);
      PlanLaterPositions(v, ranges, window);
      ExpandLower(ranges[1..], 0, r.count);
      SurvivorsStep(v.tokens, r.start, r.count, Expand(ranges[1..], r.count));
    }
  }

  function Suffix(tokens: seq<int>, n: int): seq<int>
    requires 0 <= n <= |tokens|
  {
    tokens[|tokens| - n..]
  }

  lemma {:induction false} PlanKeepsRecent(v: View, ranges: seq<Range>, window: int)
    requires IsPlan(v, ranges, window)
    ensures var w := RetireAll(v, ranges, window);
      && |w.tokens| == |v.tokens| - Total(ranges)
      && window <= |w.tokens| && Suffix(w.tokens, window) == Suffix(v.tokens, window)
    decreases |ranges|
  {
    if ranges != [] {
      var r := ranges[0];
      PlanStep(v, ranges, window);
      var next := ShiftView(v, r.start, r.count);
      PlanKeepsRecent(next, ranges[1..], window);
      assert Suffix(next.tokens, window) == Suffix(v.tokens, window);
    }
  }

  lemma {:induction false} PlanKeepsMeaning(v: View, ranges: seq<Range>, window: int)
    requires IsPlan(v, ranges, window)
    ensures SameMeaning(v, RetireAll(v, ranges, window))
    decreases |ranges|
  {
    if ranges != [] {
      var r := ranges[0];
      PlanStep(v, ranges, window);
      var next := ShiftView(v, r.start, r.count);
      ShiftKeepsMeaning(v, r.start, r.count);
      PlanKeepsMeaning(next, ranges[1..], window);
      SameMeaningTransitive(v, next, RetireAll(next, ranges[1..], window));
    }
  }

  /** The plan passes the whole-plan validation, hence also the one each native shift repeats. */
  lemma {:induction false} PlanPassesValidation(v: View, ranges: seq<Range>, window: int)
    requires IsPlan(v, ranges, window)
    ensures KeepsWindow(|v.tokens|, ranges, window)
    decreases |ranges|
  {
    if ranges != [] {
      PlanStep(v, ranges, window);
      PlanPassesValidation(ShiftView(v, ranges[0].start, ranges[0].count), ranges[1..], window);
    }
  }

  /**
   Retirement as a whole.  Exactly the `Total(ranges)` oldest unprotected positions leave and
   the survivors keep their order; every span, the permanent text and the sequence of protected
   tokens mean what they meant before; the recent window is untouched.
   */
  lemma RetirementTheorem(v: View, ranges: seq<Range>, window: int)
    requires IsPlan(v, ranges, window)
    ensures var w := RetireAll(v, ranges, window);
      && w.tokens == Survivors(v.tokens, Free(v.st, |v.tokens| - window)[..Total(ranges)])
      && |w.tokens| == |v.tokens| - Total(ranges)
      && SameMeaning(v, w)
      && window <= |w.tokens| && Suffix(w.tokens, window) == Suffix(v.tokens, window)
      && KeepsWindow(|v.tokens|, ranges, window)
  {
    PlanDeletesExactly(v, ranges, window);
    PlanKeepsRecent(v, ranges, window);
    PlanKeepsMeaning(v, ranges, window);
    PlanPassesValidation(v, ranges, window);
  }
}
