/**
 How long a paused host is left alone (dmn/web.py:145-150, 208-239, 396-403): a pause is a time on the ledger's
 clock, kept in the host table, and pruning by a clock that is not saved can remove it before its time.
 */
module WebPauses {
  import opened Wrappers
  import opened WebRates
  import opened WebRestart

  /** The host's time has come, or the table says when it comes. */
  predicate Held(l: Ledger, host: Host, until: real) {
    Clock(l) >= until || (host in l.hosts && l.hosts[host] >= until)
  }

  /** From row `n` on, no request to the host is earlier. */
  ghost predicate LeftAlone(h: seq<Charge>, n: nat, host: Host, until: real) {
    forall i :: n <= i < |h| && h[i].host == host ==> h[i].created >= until
  }

  /** What every restart leaves in order: time does not run backwards past a request. */
  ghost predicate Ordered(l: Ledger) {
    0.0 <= l.elapsed && l.base <= l.time && Sorted(History(l)) && Before(History(l), l.time)
  }

  /** The history after a step is the history before it, sizes aside, and at most one new request. */
  ghost predicate Extends(before: seq<Charge>, after: seq<Charge>) {
    && |before| <= |after| <= |before| + 1
    && forall i :: 0 <= i < |before| ==> after[i].host == before[i].host && after[i].created == before[i].created
  }

  lemma AttemptHolds(p: Policy, l: Ledger, op: Op, host: Host, until: real)
    requires ValidPolicy(p) && Ordered(l) && Held(l, host, until) && op.Attempt? && l.time <= Clock(l)
    ensures var t := Apply(p, l, op);
      && Ordered(t) && Held(t, host, until) && t.time <= Clock(t)
      && Extends(History(l), History(t)) && LeftAlone(History(t), |History(l)|, host, until)
  {
    var pruned := Prune(l);
    PruneHistory(l);
    assert Ordered(pruned) && Held(pruned, host, until);
    if Due(p, pruned, op.host) <= Clock(pruned) {
      DueIsAfterPause(p, pruned, op.host);
      hide Due, Prune, Charged;
      if Charged(pruned.network) + op.size <= p.dailyBody {
        var ticked := Tick(pruned, op.lapse);
        var t := Reserve(p, ticked, op.host, op.size, op.delay);
        assert History(t) == History(pruned) + [Charge(op.host, Clock(ticked), op.size)];
      }
    }
  }

  lemma DueIsAfterPause(p: Policy, l: Ledger, host: Host)
    requires ValidPolicy(p)
    ensures l.breaker <= Due(p, l, host) && (host in l.hosts ==> l.hosts[host] <= Due(p, l, host))
  {
    hide Newer;
  }

  lemma SettleHolds(l: Ledger, id: nat, used: nat, host: Host, until: real)
    requires Ordered(l) && Held(l, host, until) && l.time <= Clock(l)
    ensures var t := Settle(l, id, used);
      && Ordered(t) && Held(t, host, until) && t.time <= Clock(t)
      && Extends(History(l), History(t)) && LeftAlone(History(t), |History(l)|, host, until)
  {
    SettleBooks(l, id, used);
    hide History, Settle;
  }

  /** One step keeps the pause, unless it is a restart that does not find it. */
  lemma StepHolds(p: Policy, l: Ledger, op: Op, host: Host, until: real)
    requires ValidPolicy(p) && Ordered(l) && Held(l, host, until) && l.time <= Clock(l)
    requires op.Restarting? ==> Held(Restart(l), host, until)
    ensures var t := Apply(p, l, op);
      && Ordered(t) && Held(t, host, until) && t.time <= Clock(t)
      && Extends(History(l), History(t)) && LeftAlone(History(t), |History(l)|, host, until)
  {
    match op
    case Attempt(h, size, delay, lapse) => AttemptHolds(p, l, op, host, until);
    case Settling(id, used) => SettleHolds(l, id, used, host, until);
    case Pruning => PruneHistory(l);
    case _ =>
  }

  /** Every restart of the run finds the pause: the saved clock is past it, or the host table still holds it. */
  predicate RestartsFind(p: Policy, l: Ledger, ops: seq<Op>, host: Host, until: real)
    requires ValidPolicy(p)
  {
    ops == [] || (
      && RestartsFind(p, l, ops[..|ops| - 1], host, until)
      && (ops[|ops| - 1].Restarting? ==> Held(Restart(Run(p, l, ops[..|ops| - 1])), host, until)))
  }

  /** Over every run whose restarts find it, a paused host is left alone for the whole pause. */
  lemma {:induction false} PauseIsKept(p: Policy, l: Ledger, ops: seq<Op>, host: Host, until: real)
    requires ValidPolicy(p) && Ordered(l) && Held(l, host, until) && l.time <= Clock(l) && RestartsFind(p, l, ops, host, until)
    ensures var t := Run(p, l, ops);
      && Ordered(t) && Held(t, host, until) && t.time <= Clock(t)
      && |History(l)| <= |History(t)| && LeftAlone(History(t), |History(l)|, host, until)
  {
    hide Ordered, Held, Apply, History;
    if ops != [] {
      var front := ops[..|ops| - 1];
      PauseIsKept(p, l, front, host, until);
      StepHolds(p, Run(p, l, front), ops[|ops| - 1], host, until);
    }
  }

  lemma {:induction false} RestartFreeFinds(p: Policy, l: Ledger, ops: seq<Op>, host: Host, until: real)
    requires ValidPolicy(p) && RestartFree(ops)
    ensures RestartsFind(p, l, ops, host, until)
  {
    if ops != [] { RestartFreeFinds(p, l, ops[..|ops| - 1], host, until); }
  }

  lemma SoundIsOrdered(p: Policy, l: Ledger)
    requires Sound(p, l)
    ensures Ordered(l) && l.time <= Clock(l) && Ordered(Restart(l)) && Restart(l).time == Clock(Restart(l)) == l.time
  {
  }

  /** A pause that has just been booked is kept by the steps that follow it. */
  lemma DelayIsHeld(p: Policy, l: Ledger, host: Host, until: real)
    requires ValidPolicy(p)
    ensures Held(Apply(p, l, Delay(host, until)), host, until)
  {
  }

  /*------------------------------------------------------------------ the repeat breaker */

  ghost predicate NoneBefore(h: seq<Charge>, n: nat, until: real) {
    forall i :: n <= i < |h| ==> h[i].created >= until
  }

  lemma AttemptKeepsBreaker(p: Policy, l: Ledger, op: Op, until: real)
    requires ValidPolicy(p) && Ordered(l) && op.Attempt? && l.breaker >= until && l.time <= Clock(l)
    ensures var t := Apply(p, l, op);
      && Ordered(t) && t.time <= Clock(t) && t.breaker == l.breaker
      && Extends(History(l), History(t)) && NoneBefore(History(t), |History(l)|, until)
  {
    var pruned := Prune(l);
    PruneHistory(l);
    assert Ordered(pruned) && pruned.breaker == l.breaker;
    if Due(p, pruned, op.host) <= Clock(pruned) {
      DueIsAfterPause(p, pruned, op.host);
      hide Due, Prune, Charged;
      if Charged(pruned.network) + op.size <= p.dailyBody {
        var ticked := Tick(pruned, op.lapse);
        var t := Reserve(p, ticked, op.host, op.size, op.delay);
        assert History(t) == History(pruned) + [Charge(op.host, Clock(ticked), op.size)];
      }
    }
  }

  lemma StepKeepsBreaker(p: Policy, l: Ledger, op: Op, until: real)
    requires ValidPolicy(p) && Ordered(l) && l.breaker >= until && l.time <= Clock(l)
    ensures var t := Apply(p, l, op);
      && Ordered(t) && t.time <= Clock(t) && t.breaker >= until && (op.Breaker? ==> t.breaker >= op.until)
      && Extends(History(l), History(t)) && NoneBefore(History(t), |History(l)|, until)
  {
    match op
    case Attempt(h, size, delay, lapse) => AttemptKeepsBreaker(p, l, op, until);
    case Settling(id, used) => SettleBooks(l, id, used); hide History, Settle;
    case Pruning => PruneHistory(l);
    case _ =>
  }

  /** Once the breaker opens, no request to any host is let through before its time, over every run and any restarts. */
  lemma {:induction false} BreakerIsKept(p: Policy, l: Ledger, ops: seq<Op>, until: real)
    requires ValidPolicy(p) && Ordered(l) && l.time <= Clock(l)
    ensures var open := Apply(p, l, Breaker(until));
      var t := Run(p, open, ops);
      && Ordered(t) && t.time <= Clock(t) && t.breaker >= until
      && |History(l)| <= |History(t)| && NoneBefore(History(t), |History(l)|, until)
    decreases |ops|
  {
    hide Ordered, Apply, History;
    var open := Apply(p, l, Breaker(until));
    if ops == [] {
      BreakerOpens(p, l, until);
    } else {
      var front := ops[..|ops| - 1];
      BreakerIsKept(p, l, front, until);
      StepKeepsBreaker(p, Run(p, open, front), ops[|ops| - 1], until);
    }
  }

  lemma BreakerOpens(p: Policy, l: Ledger, until: real)
    requires ValidPolicy(p) && Ordered(l) && l.time <= Clock(l)
    ensures var t := Apply(p, l, Breaker(until)); Ordered(t) && t.time <= Clock(t) && t.breaker >= until && History(t) == History(l)
  {
  }

  /*------------------------------------------------------------------ what one restart forgets */

  /** The first moment at which the host can be asked after a restart, going by what was saved. */
  function FirstAsked(p: Policy, l: Ledger, host: Host): real
    requires ValidPolicy(p)
  {
    var soonest := Soonest(p, Times(l.network), Floor(l));
    if host in l.hosts then MaxReal(soonest, l.hosts[host]) else soonest
  }

  ghost predicate AskedEarly(h: seq<Charge>, n: nat, host: Host, until: real) {
    exists i :: n <= i < |h| && h[i].host == host && h[i].created < until
  }

  /** A request after the restart is never sooner than the first moment, whatever else the continuation does. */
  lemma NeverSooner(p: Policy, l: Ledger, ops: seq<Op>, host: Host)
    requires ValidPolicy(p) && Sound(p, l) && RestartFree(ops)
    ensures LeftAlone(History(Run(p, Restart(l), ops)), |History(l)|, host, FirstAsked(p, l, host))
  {
    hide Sound, Soonest, Follows, Sorted, Run, RestartFree;
    var k, h := Run(p, Restart(l), ops), History(Run(p, Restart(l), ops));
    RunContinues(p, l, ops);
    HistoryIsSince(p, l, k);
    if host in l.hosts { HostRowHolds(p, l, ops, host); }
    forall i | |History(l)| <= i < |h| && h[i].host == host ensures h[i].created >= FirstAsked(p, l, host) {
      assert h[i] == Since(l, k)[i - |l.dropped|];
      NewIsLater(p, l, k, i - |l.dropped|);
    }
  }

  lemma NewIsLater(p: Policy, l: Ledger, k: Ledger, j: nat)
    requires ValidPolicy(p) && Continues(p, l, k) && |l.network| <= j < |Since(l, k)|
    ensures Soonest(p, Times(l.network), Floor(l)) <= Since(l, k)[j].created
  {
    hide Soonest;
    var s := Times(Since(l, k));
    assert Follow(p, s, Floor(l), |l.network|);
    assert s[|l.network|] <= s[j];
  }

  lemma HostRowHolds(p: Policy, l: Ledger, ops: seq<Op>, host: Host)
    requires ValidPolicy(p) && Sound(p, l) && RestartFree(ops) && host in l.hosts
    ensures LeftAlone(History(Run(p, Restart(l), ops)), |History(l)|, host, l.hosts[host])
  {
    hide Sound, Run;
    SoundIsOrdered(p, l);
    RestartFreeFinds(p, Restart(l), ops, host, l.hosts[host]);
    PauseIsKept(p, Restart(l), ops, host, l.hosts[host]);
    assert History(Restart(l)) == History(l);
  }

  lemma AskedAfterWaiting(p: Policy, l: Ledger, start: Ledger, host: Host, size: nat)
    requires ValidPolicy(p) && Continues(p, l, start) && Since(l, start) == l.network
    requires Clock(start) == l.time && start.breaker == l.breaker && Charged(start.network) + size <= p.dailyBody
    requires host in start.hosts ==> host in l.hosts && start.hosts[host] == l.hosts[host]
    ensures var first := FirstAsked(p, l, host);
      History(Apply(p, Tick(start, first - l.time), Attempt(host, size, 0.0, 0.0))) == History(l) + [Charge(host, first, size)]
  {
    hide Continues, Soonest, Due, Charged, Prune, Since, Apply;
    var first := FirstAsked(p, l, host);
    SoonestIsRested(p, Times(l.network), Floor(l), p.minInterval, 1);
    var w := Tick(start, first - l.time);
    WaitingContinues(p, l, start, first - l.time);
    PruneContinues(p, l, w);
    PruneFrees(w);
    PrunedHost(w, host);
    DueIsSoonest(p, l, Prune(w), host);
    HistoryIsSince(p, l, Prune(w));
    DueIsAsked(p, w, host, size);
  }

  lemma WaitingContinues(p: Policy, l: Ledger, k: Ledger, passed: real)
    requires ValidPolicy(p) && Continues(p, l, k) && passed >= 0.0
    ensures Continues(p, l, Tick(k, passed)) && Since(l, Tick(k, passed)) == Since(l, k) && Clock(Tick(k, passed)) == Clock(k) + passed
  {
    ApplyContinues(p, l, k, Passing(passed));
    hide Continues;
  }

  lemma DueIsAsked(p: Policy, l: Ledger, host: Host, size: nat)
    requires ValidPolicy(p) && Due(p, Prune(l), host) <= Clock(Prune(l)) && Charged(Prune(l).network) + size <= p.dailyBody
    ensures History(Apply(p, l, Attempt(host, size, 0.0, 0.0))) == History(Prune(l)) + [Charge(host, Clock(Prune(l)), size)]
  {
    hide Due, Charged, Prune;
    var pruned := Prune(l);
    assert Tick(pruned, 0.0) == pruned;
    var after := Reserve(p, pruned, host, size, 0.0);
    assert History(after) == History(pruned) + [Charge(host, Clock(pruned), size)];
  }

  /** At the first moment the host really is asked, with a request of any size the budget has room for. */
  lemma AskedAtFirst(p: Policy, l: Ledger, host: Host, size: nat) returns (ops: seq<Op>)
    requires ValidPolicy(p) && Sound(p, l) && Charged(Prune(Restart(l)).network) + size <= p.dailyBody
    ensures AllAsk(ops, size) && History(Run(p, Restart(l), ops)) == History(l) + [Charge(host, FirstAsked(p, l, host), size)]
  {
    hide Sound, Continues, Charged, Prune, Since, FirstAsked, Run;
    var first, start := FirstAsked(p, l, host), Prune(Restart(l));
    RestartContinues(p, l);
    PruneContinues(p, l, Restart(l));
    PruneFrees(Restart(l));
    PrunedHost(Restart(l), host);
    AskedAfterWaiting(p, l, start, host, size);
    ops := [Pruning, Passing(first - l.time), Attempt(host, size, 0.0, 0.0)];
    RunThree(p, Restart(l), ops);
  }

  lemma PrunedHost(l: Ledger, host: Host)
    ensures host in Prune(l).hosts ==> host in l.hosts && Prune(l).hosts[host] == l.hosts[host]
  {
  }

  lemma RunThree(p: Policy, l: Ledger, ops: seq<Op>)
    requires ValidPolicy(p) && |ops| == 3
    ensures Run(p, l, ops) == Apply(p, Apply(p, Apply(p, l, ops[0]), ops[1]), ops[2])
  {
    hide Apply;
    assert ops[..2][..1] == [ops[0]] && [ops[0]][..0] == [];
    assert Run(p, l, [ops[0]]) == Apply(p, l, ops[0]);
    assert Run(p, l, ops[..2]) == Apply(p, Run(p, l, ops[..2][..1]), ops[1]);
  }

  /**
   Exactly when a restart lets a paused host be asked too early: when what was saved, the limits on the stored rows
   and the stored host row included, allows a request before the pause ends.
   */
  lemma PauseBreaksExactly(p: Policy, l: Ledger, host: Host, until: real)
    requires ValidPolicy(p) && Sound(p, l)
    ensures (exists ops :: RestartFree(ops) && AskedEarly(History(Run(p, Restart(l), ops)), |History(l)|, host, until))
      <==> FirstAsked(p, l, host) < until
  {
    hide Sound, Prune, RestartFree, Run, FirstAsked;
    if FirstAsked(p, l, host) < until {
      RestartHasRoom(p, l);
      var ops := AskedAtFirst(p, l, host, 0);
      AllAskIsRestartFree(ops, 0);
      var h := History(Run(p, Restart(l), ops));
      assert h[|History(l)|].host == host && h[|History(l)|].created < until;
    } else {
      forall ops | RestartFree(ops) ensures !AskedEarly(History(Run(p, Restart(l), ops)), |History(l)|, host, until) {
        NeverSooner(p, l, ops, host);
      }
    }
  }

  /** A saved clock past the pause, or the host row still in the table, is enough. */
  lemma FoundPauseIsKept(p: Policy, l: Ledger, host: Host, until: real)
    requires ValidPolicy(p) && Sound(p, l) && Held(Restart(l), host, until)
    ensures FirstAsked(p, l, host) >= until
  {
    SoonestIsRested(p, Times(l.network), Floor(l), p.minInterval, 1);
    hide Soonest, Sound;
  }

  /**
   A run that forgets one: host `a` is paused until 10 and host `b` until 100; at 11 an attempt on `b` only prunes, and
   the process dies. The restarted clock says 0, the pause of `a` is gone, and `a` is asked at once.
   */
  lemma ForgottenPause(p: Policy, a: Host, b: Host, size: nat)
    requires ValidPolicy(p) && a != b && size <= p.dailyBody
    ensures var paused := [Delay(a, 10.0), Delay(b, 100.0)];
      var ops := paused + [Passing(11.0), Attempt(b, size, 0.0, 0.0), Restarting, Attempt(a, size, 0.0, 0.0)];
      && Held(Run(p, Empty(), paused), a, 10.0)
      && History(Run(p, Empty(), ops)) == [Charge(a, 0.0, size)]
  {
    hide Run, Apply;
    var first, last := [Delay(a, 10.0), Delay(b, 100.0), Passing(11.0)], [Attempt(b, size, 0.0, 0.0), Restarting, Attempt(a, size, 0.0, 0.0)];
    PausedTwice(p, a, b);
    RunThree(p, Empty(), first);
    RunThree(p, Noted(11.0, map[a := 10.0, b := 100.0]), last);
    RunJoin(p, Empty(), first, last);
    RunTwo(p, Empty(), [Delay(a, 10.0), Delay(b, 100.0)]);
    OtherHostWaits(p, a, b, size);
    AskedAtOnce(p, a, b, size);
    assert first + last == [Delay(a, 10.0), Delay(b, 100.0)] + [Passing(11.0), Attempt(b, size, 0.0, 0.0), Restarting, Attempt(a, size, 0.0, 0.0)];
  }

  /** A ledger without requests, this long after its start. */
  function Noted(elapsed: real, hosts: map<Host, real>): Ledger {
    Ledger(0.0, elapsed, 0.0, 0.0, [], hosts, [], 0.0)
  }

  lemma PausedTwice(p: Policy, a: Host, b: Host)
    requires ValidPolicy(p) && a != b
    ensures var l := Apply(p, Apply(p, Empty(), Delay(a, 10.0)), Delay(b, 100.0));
      l == Noted(0.0, map[a := 10.0, b := 100.0]) && Apply(p, l, Passing(11.0)) == Noted(11.0, map[a := 10.0, b := 100.0])
  {
  }

  lemma NotedDue(p: Policy, l: Ledger, host: Host)
    requires ValidPolicy(p) && l.network == []
    ensures Due(p, l, host) == BaseDue(p, l, host) && Charged(l.network) == 0
  {
  }

  lemma OtherHostWaits(p: Policy, a: Host, b: Host, size: nat)
    requires ValidPolicy(p) && a != b
    ensures var l := Apply(p, Noted(11.0, map[a := 10.0, b := 100.0]), Attempt(b, size, 0.0, 0.0));
      l == Noted(11.0, map[b := 100.0]) && Apply(p, l, Restarting) == Noted(0.0, map[b := 100.0])
  {
    var pruned := Prune(Noted(11.0, map[a := 10.0, b := 100.0]));
    assert pruned == Noted(11.0, map[b := 100.0]);
    NotedDue(p, pruned, b);
    hide Due, Charged, Prune;
  }

  lemma AskedAtOnce(p: Policy, a: Host, b: Host, size: nat)
    requires ValidPolicy(p) && a != b && size <= p.dailyBody
    ensures History(Apply(p, Noted(0.0, map[b := 100.0]), Attempt(a, size, 0.0, 0.0))) == [Charge(a, 0.0, size)]
  {
    var l := Noted(0.0, map[b := 100.0]);
    assert Prune(l) == l;
    NotedDue(p, l, a);
    DueIsAsked(p, l, a, size);
    hide Due, Charged, Prune, Apply;
  }

  lemma RunTwo(p: Policy, l: Ledger, ops: seq<Op>)
    requires ValidPolicy(p) && |ops| == 2
    ensures Run(p, l, ops) == Apply(p, Apply(p, l, ops[0]), ops[1])
  {
    hide Apply;
    assert ops[..1] == [ops[0]] && [ops[0]][..0] == [];
    assert Run(p, l, [ops[0]]) == Apply(p, l, ops[0]);
  }

  lemma {:induction false} RunJoin(p: Policy, l: Ledger, a: seq<Op>, b: seq<Op>)
    requires ValidPolicy(p)
    ensures Run(p, l, a + b) == Run(p, Run(p, l, a), b)
    decreases |b|
  {
    hide Apply;
    if b == [] {
      assert a + b == a;
    } else {
      RunJoin(p, l, a, b[..|b| - 1]);
      assert (a + b)[..|a + b| - 1] == a + b[..|b| - 1];
    }
  }
}
