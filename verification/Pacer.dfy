/** Idle pacing (dmn/activity.py:27-59, dmn/runtime.py:451-465, 969-974, 1738-1754). */
module Pacer {
  import opened Wrappers

  datatype Profile = Focus | Idle(burst: nat, interval: real)

  datatype State = State(profile: Profile, remaining: nat, nextAt: Option<real>)

  predicate ValidProfile(p: Profile) {
    p.Idle? ==> p.burst >= 1 && p.interval > 0.0
  }

  /** A deliberate choice starts with a full burst; a restored one, after a restart or a timer wake, with none. */
  function Select(profile: Profile, restored: bool, now: real): State {
    if profile.Focus? then State(profile, 0, None)
    else if restored then State(profile, 0, Some(now + profile.interval))
    else State(profile, profile.burst, None)
  }

  /** A pacer that is out of tokens knows when the next burst begins. */
  predicate Scheduled(s: State) {
    s.profile.Idle? && s.remaining == 0 ==> s.nextAt.Some?
  }

  function Ready(s: State, now: real): (State, bool)
    requires Scheduled(s)
  {
    if s.profile.Focus? then (s, true)
    else if s.remaining == 0 && now >= s.nextAt.value then (State(s.profile, s.profile.burst, None), s.profile.burst > 0)
    else (s, s.remaining > 0)
  }

  function Consumed(s: State, now: real): State {
    if s.profile.Focus? then s
    else
      var left := if s.remaining > 0 then s.remaining - 1 else 0;
      State(s.profile, left, if left == 0 then Some(now + s.profile.interval) else s.nextAt)
  }

  class ActivityPacer {
    var profile: Profile
    var remaining: nat
    var nextAt: Option<real>

    ghost function Now(): State
      reads this
    {
      State(profile, remaining, nextAt)
    }

    constructor ()
      ensures Now() == State(Focus, 0, None)
    {
      profile, remaining, nextAt := Focus, 0, None;
    }

    method SelectProfile(chosen: Profile, restored: bool, now: real)
      requires ValidProfile(chosen)
      modifies this
      ensures Now() == Select(chosen, restored, now) && Scheduled(Now())
    {
      profile, remaining, nextAt := chosen, 0, None;
      if chosen.Idle? {
        remaining := if restored then 0 else chosen.burst;
        nextAt := if restored then Some(now + chosen.interval) else None;
      }
    }

    method IsReady(now: real) returns (ready: bool)
      requires Scheduled(Now())
      modifies this`remaining, this`nextAt
      ensures (Now(), ready) == Ready(old(Now()), now)
    {
      if profile == Focus {
        return true;
      }
      if remaining == 0 && now >= nextAt.value {
        remaining, nextAt := profile.burst, None;
      }
      ready := remaining > 0;
    }

    method TokenConsumed(now: real)
      modifies this`remaining, this`nextAt
      ensures Now() == Consumed(old(Now()), now)
    {
      if profile.Idle? {
        remaining := if remaining > 0 then remaining - 1 else 0;
        if remaining == 0 {
          nextAt := Some(now + profile.interval);
        }
      }
    }
  }

  /*------------------------------------------------------------------ runs under one idle profile */

  /**
   `Ticking`: the scheduler asks at `asked` and, if ready, an ordinary token is done at `done`.
   `Restoring`: a restart or timer wake selects the same profile again.
   */
  datatype Op = Ticking(asked: real, done: real) | Restoring(at: real)

  /** `log` records when each ordinary token was generated; `clock` is the latest time seen. */
  datatype Run = Run(pacer: State, clock: real, log: seq<real>)

  predicate Enabled(r: Run, op: Op) {
    match op
    case Ticking(asked, done) => r.clock <= asked <= done
    case Restoring(at) => r.clock <= at
  }

  function Apply(r: Run, op: Op): Run
    requires Scheduled(r.pacer)
  {
    match op
    case Ticking(asked, done) =>
      var (pacer, ready) := Ready(r.pacer, asked);
      if ready then Run(Consumed(pacer, done), done, r.log + [done]) else Run(pacer, asked, r.log)
    case Restoring(at) => Run(Select(r.pacer.profile, true, at), at, r.log)
  }

  /** The scheduler asks, and is done, at each of these times. */
  function Ticks(r: Run, times: seq<(real, real)>): Run
    requires Scheduled(r.pacer) && ValidProfile(r.pacer.profile)
    decreases |times|
  {
    if times == [] then r else Ticks(Apply(r, Ticking(times[0].0, times[0].1)), times[1..])
  }

  /** What is left of a burst is generated without waiting; the next one is due an interval after its last token. */
  lemma {:induction false} BurstIsGenerated(r: Run, times: seq<(real, real)>)
    requires r.pacer.profile.Idle? && ValidProfile(r.pacer.profile) && 0 < |times| <= r.pacer.remaining
    ensures var t, interval := Ticks(r, times), r.pacer.profile.interval;
      && |t.log| == |r.log| + |times| && t.pacer.profile == r.pacer.profile
      && t.pacer.remaining == r.pacer.remaining - |times|
      && (t.pacer.remaining == 0 ==> t.pacer.nextAt == Some(times[|times| - 1].1 + interval))
    decreases |times|
  {
    if |times| > 1 {
      BurstIsGenerated(Apply(r, Ticking(times[0].0, times[0].1)), times[1..]);
    } else {
      assert times[1..] == [];
    }
  }

  /** After the burst nothing is generated before the next one is due. */
  lemma {:induction false} QuietUntilDue(r: Run, times: seq<(real, real)>)
    requires r.pacer.profile.Idle? && ValidProfile(r.pacer.profile) && r.pacer.remaining == 0 && r.pacer.nextAt.Some?
    requires forall i :: 0 <= i < |times| ==> times[i].0 < r.pacer.nextAt.value
    ensures Ticks(r, times).log == r.log && Ticks(r, times).pacer == r.pacer
    decreases |times|
  {
    if times != [] {
      var next := Apply(r, Ticking(times[0].0, times[0].1));
      forall i | 0 <= i < |times[1..]| ensures times[1..][i].0 < next.pacer.nextAt.value {
        assert times[1..][i] == times[i + 1];
      }
      QuietUntilDue(next, times[1..]);
    }
  }

  /**
   A deliberate choice lets a full burst through at once. A restored one lets nothing through until its interval is
   over, and a full burst then. In focus nothing waits.
   */
  lemma ChoiceGivesItsBurst(profile: Profile, restored: bool, now: real, times: seq<(real, real)>)
    requires ValidProfile(profile) && times != []
    ensures var t := Ticks(Run(Select(profile, restored, now), now, []), times);
      && (profile.Idle? && !restored && |times| <= profile.burst ==>
            |t.log| == |times| && t.pacer.remaining == profile.burst - |times|)
      && (profile.Idle? && restored && (forall i :: 0 <= i < |times| ==> times[i].0 < now + profile.interval) ==> t.log == [])
      && (profile.Idle? && restored && times[0].0 >= now + profile.interval && |times| <= profile.burst ==>
            |t.log| == |times| && t.pacer.remaining == profile.burst - |times|)
      && (profile.Focus? ==> |t.log| == |times|)
  {
    var r := Run(Select(profile, restored, now), now, []);
    if profile.Focus? {
      FocusNeverWaits(r, times);
    } else if !restored {
      if |times| <= profile.burst { BurstIsGenerated(r, times); }
    } else if times[0].0 < now + profile.interval {
      if forall i :: 0 <= i < |times| ==> times[i].0 < now + profile.interval { QuietUntilDue(r, times); }
    } else if |times| <= profile.burst {
      var begun := Run(State(profile, profile.burst, None), now, []);
      assert Apply(r, Ticking(times[0].0, times[0].1)) == Apply(begun, Ticking(times[0].0, times[0].1));
      BurstIsGenerated(begun, times);
    }
  }

  lemma {:induction false} FocusNeverWaits(r: Run, times: seq<(real, real)>)
    requires r.pacer.profile.Focus?
    ensures |Ticks(r, times).log| == |r.log| + |times|
    decreases |times|
  {
    if times != [] {
      FocusNeverWaits(Apply(r, Ticking(times[0].0, times[0].1)), times[1..]);
    }
  }

  ghost predicate Sorted(log: seq<real>) {
    forall i, j :: 0 <= i < j < |log| ==> log[i] <= log[j]
  }

  /** Any `burst + 1` tokens span at least the interval. */
  ghost predicate Spread(log: seq<real>, burst: nat, interval: real) {
    forall i: nat :: i + burst < |log| ==> log[i] + interval <= log[i + burst]
  }

  /** All tokens before `start` are at least the interval before `limit`. */
  ghost predicate Past(log: seq<real>, start: nat, interval: real, limit: real) {
    forall i: nat :: i < start && i < |log| ==> log[i] + interval <= limit
  }

  /** The current burst began with token `start`. */
  ghost predicate Sound(r: Run, burst: nat, interval: real, start: nat) {
    && r.pacer.profile == Idle(burst, interval) && Scheduled(r.pacer)
    && Sorted(r.log) && (forall i :: 0 <= i < |r.log| ==> r.log[i] <= r.clock)
    && Spread(r.log, burst, interval)
    && (r.pacer.remaining > 0 ==>
          start <= |r.log| && |r.log| - start + r.pacer.remaining <= burst && Past(r.log, start, interval, r.clock))
    && (r.pacer.remaining == 0 ==> Past(r.log, |r.log|, interval, r.pacer.nextAt.value))
  }

  /** The index at which the burst in force after `op` began. */
  function StartAfter(r: Run, op: Op, start: nat): nat
    requires Scheduled(r.pacer)
  {
    if op.Ticking? && r.pacer.remaining == 0 && r.pacer.nextAt.Some? && op.asked >= r.pacer.nextAt.value then |r.log| else start
  }

  lemma StepKeeps(r: Run, op: Op, burst: nat, interval: real, start: nat)
    requires burst >= 1 && interval > 0.0 && Sound(r, burst, interval, start) && Enabled(r, op)
    ensures Sound(Apply(r, op), burst, interval, StartAfter(r, op, start))
  {
    var t, from := Apply(r, op), StartAfter(r, op, start);
    if op.Ticking? && Ready(r.pacer, op.asked).1 {
      assert Past(r.log, from, interval, op.asked) && |r.log| - from < burst;
      forall i: nat | i + burst < |t.log| ensures t.log[i] + interval <= t.log[i + burst] {
        if i + burst == |r.log| {
          assert t.log[i] == r.log[i] && i < from;
        } else {
          assert t.log[i] == r.log[i] && t.log[i + burst] == r.log[i + burst];
        }
      }
    }
  }

  ghost predicate IsRun(runs: seq<Run>, ops: seq<Op>, burst: nat, interval: real) {
    && |runs| == |ops| + 1 && runs[0].log == []
    && (exists restored :: runs[0].pacer == Select(Idle(burst, interval), restored, runs[0].clock))
    && forall i :: 0 <= i < |ops| ==> Scheduled(runs[i].pacer) && Enabled(runs[i], ops[i]) && runs[i + 1] == Apply(runs[i], ops[i])
  }

  lemma {:induction false} RunIsSound(runs: seq<Run>, ops: seq<Op>, burst: nat, interval: real, n: nat) returns (start: nat)
    requires burst >= 1 && interval > 0.0 && IsRun(runs, ops, burst, interval) && n <= |ops|
    ensures Sound(runs[n], burst, interval, start)
    decreases n
  {
    if n == 0 {
      start := 0;
    } else {
      var before := RunIsSound(runs, ops, burst, interval, n - 1);
      start := StartAfter(runs[n - 1], ops[n - 1], before);
      StepKeeps(runs[n - 1], ops[n - 1], burst, interval, before);
    }
  }

  lemma {:induction false} SpreadFar(log: seq<real>, burst: nat, interval: real, i: nat, m: nat)
    requires Spread(log, burst, interval) && i + m * burst < |log|
    ensures log[i] + m as real * interval <= log[i + m * burst]
    decreases m
  {
    if m > 0 {
      assert m * burst == (m - 1) * burst + burst;
      SpreadFar(log, burst, interval, i, m - 1);
      assert log[i + (m - 1) * burst] + interval <= log[(i + (m - 1) * burst) + burst];
      assert m as real * interval == (m - 1) as real * interval + interval;
    }
  }

  lemma FloorAbove(m: nat, interval: real, width: real)
    requires interval > 0.0 && m as real * interval <= width
    ensures m <= (width / interval).Floor
  {
    var q := width / interval;
    assert q * interval == width;
    assert (m as real - q) * interval == m as real * interval - q * interval;
    assert m as real - q <= 0.0;
  }

  /**
   Under one idle profile, restarts and timer wakes included, tokens i to j that lie within a window of the given
   width number at most burst * (floor(width / interval) + 1); within less than the interval, at most burst.
   */
  lemma WindowIsBounded(runs: seq<Run>, ops: seq<Op>, burst: nat, interval: real, n: nat, i: nat, j: nat, width: real)
    requires burst >= 1 && interval > 0.0 && IsRun(runs, ops, burst, interval) && n <= |ops|
    requires i <= j < |runs[n].log| && runs[n].log[j] - runs[n].log[i] <= width
    ensures (width / interval).Floor >= 0 && j - i + 1 <= burst * ((width / interval).Floor + 1)
    ensures width < interval ==> j - i + 1 <= burst
  {
    var start := RunIsSound(runs, ops, burst, interval, n);
    var log := runs[n].log;
    WidthIsBounded(log, burst, interval, i, j, width);
  }

  lemma WidthIsBounded(log: seq<real>, burst: nat, interval: real, i: nat, j: nat, width: real)
    requires burst >= 1 && interval > 0.0 && Spread(log, burst, interval) && Sorted(log)
    requires i <= j < |log| && log[j] - log[i] <= width
    ensures (width / interval).Floor >= 0 && j - i + 1 <= burst * ((width / interval).Floor + 1)
    ensures width < interval ==> j - i + 1 <= burst
  {
    hide Spread, Sorted;
    var m := (j - i) / burst;
    Quotient(j - i, burst);
    SpreadFar(log, burst, interval, i, m);
    assert log[i + m * burst] <= log[j] by { SortedAt(log, i + m * burst, j); }
    FloorAbove(m, interval, width);
    Times(burst, m + 1, (width / interval).Floor + 1);
    ShortSpan(log, burst, interval, i, j);
  }

  lemma ShortSpan(log: seq<real>, burst: nat, interval: real, i: nat, j: nat)
    requires Spread(log, burst, interval) && Sorted(log) && i <= j < |log|
    ensures j - i >= burst ==> log[i] + interval <= log[j]
  {
    if j - i >= burst {
      assert log[i] + interval <= log[i + burst];
      assert log[i + burst] <= log[j];
    }
  }

  lemma SortedAt(log: seq<real>, i: nat, j: nat)
    requires Sorted(log) && i <= j < |log|
    ensures log[i] <= log[j]
  {
  }

  lemma Quotient(x: nat, burst: nat)
    requires burst >= 1
    ensures (x / burst) * burst <= x < burst * (x / burst + 1)
  {
  }

  lemma Times(burst: nat, a: int, b: int)
    requires a <= b
    ensures burst * a <= burst * b
  {
  }
}
