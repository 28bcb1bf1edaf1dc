/**
 What a restart of the web service forgets (dmn/web.py:125-150, 208-239). A pruning that is not followed
 by a saved clock removes rows which the restored, older clock still counts as recent. Which limits a
 continuation can then break is decided here from the ledger before the restart.
 */
module WebRestart {
  import opened Wrappers
  import opened WebRates

  predicate RestartFree(ops: seq<Op>) {
    forall i :: 0 <= i < |ops| ==> !ops[i].Restarting?
  }

  /*------------------------------------------------------------------ windows as distances */

  /** At most `count` requests in any window of length `gap`, pacing being one request an interval. */
  predicate Limit(p: Policy, gap: real, count: nat) {
    (gap == p.minInterval && count == 1) || Limits(p, gap, count)
  }

  predicate Gap(h: seq<Charge>, k: nat, gap: real, count: nat)
    requires count <= k < |h|
  {
    h[k - count].created + gap <= h[k].created
  }

  ghost predicate Spaced(h: seq<Charge>, gap: real, count: nat) {
    forall k :: count <= k < |h| ==> Gap(h, k, gap, count)
  }

  lemma PacedIsSpaced(h: seq<Charge>, interval: real)
    ensures Paced(h, interval) <==> Spaced(h, interval, 1)
  {
    if Spaced(h, interval, 1) {
      forall i | 0 < i < |h| ensures h[i - 1].created + interval <= h[i].created {
        assert Gap(h, i, interval, 1);
      }
    }
  }

  lemma {:induction false} LoadAtMost(h: seq<Charge>, from: real, end: real)
    ensures Load(h, from, end, false) <= |h|
  {
    if h != [] { LoadAtMost(h[..|h| - 1], from, end); }
  }

  lemma {:induction false} LoadOfAll(h: seq<Charge>, from: real, end: real)
    requires forall i :: 0 <= i < |h| ==> from < h[i].created <= end
    ensures Load(h, from, end, false) == |h|
  {
    if h != [] { LoadOfAll(h[..|h| - 1], from, end); }
  }

  /** When the newest row is within the window, all but the newest `count` rows are before it. */
  lemma SpacedWindow(h: seq<Charge>, gap: real, count: nat, end: real)
    requires Sorted(h) && Spaced(h, gap, count) && 1 <= count < |h| && h[|h| - 1].created <= end
    ensures WindowLoad(h, gap, end, false) <= count
  {
    var n := |h| - count;
    assert Gap(h, |h| - 1, gap, count);
    assert Before(h[..n], end - gap);
    hide Load, Sorted, Spaced;
    LoadConcat(h[..n], h[n..], end - gap, end, false);
    assert h == h[..n] + h[n..];
    LoadNothing(h[..n], end - gap, end, false);
    LoadAtMost(h[n..], end - gap, end);
  }

  lemma {:induction false} SpacedLoad(h: seq<Charge>, gap: real, count: nat, end: real)
    requires Sorted(h) && Spaced(h, gap, count) && count >= 1
    ensures WindowLoad(h, gap, end, false) <= count
  {
    if |h| <= count {
      LoadAtMost(h, end - gap, end);
    } else if h[|h| - 1].created <= end {
      SpacedWindow(h, gap, count, end);
    } else {
      SpacedPrefix(h, gap, count);
      SpacedLoad(h[..|h| - 1], gap, count, end);
    }
  }

  lemma SpacedPrefix(h: seq<Charge>, gap: real, count: nat)
    requires h != [] && Spaced(h, gap, count)
    ensures Spaced(h[..|h| - 1], gap, count)
  {
    var shorter := h[..|h| - 1];
    forall k | count <= k < |shorter| ensures Gap(shorter, k, gap, count) {
      assert Gap(h, k, gap, count);
    }
  }

  lemma SliceLoad(h: seq<Charge>, i: nat, j: nat, from: real, end: real)
    requires i <= j <= |h|
    ensures Load(h[i..j], from, end, false) <= Load(h, from, end, false)
  {
    hide Load;
    LoadConcat(h[..i], h[i..], from, end, false);
    LoadConcat(h[i..][..j - i], h[i..][j - i..], from, end, false);
    assert h == h[..i] + h[i..];
    assert h[i..] == h[i..][..j - i] + h[i..][j - i..];
    assert h[i..][..j - i] == h[i..j];
  }

  lemma CrowdedLoad(h: seq<Charge>, gap: real, count: nat, k: nat)
    requires Sorted(h) && gap > 0.0 && count <= k < |h| && !Gap(h, k, gap, count)
    ensures WindowLoad(h, gap, h[k].created, false) > count
  {
    hide Load;
    var end, crowd := h[k].created, h[k - count..k + 1];
    SliceLoad(h, k - count, k + 1, end - gap, end);
    forall i | 0 <= i < |crowd| ensures end - gap < crowd[i].created <= end {
      assert crowd[i] == h[k - count + i];
    }
    LoadOfAll(crowd, end - gap, end);
  }

  /** A sliding window carries at most `count` requests exactly when any two requests `count` apart are `gap` apart. */
  lemma WithinIsSpaced(h: seq<Charge>, gap: real, count: nat)
    requires Sorted(h) && gap > 0.0 && count >= 1
    ensures Within(h, gap, false, count) <==> Spaced(h, gap, count)
  {
    if Spaced(h, gap, count) {
      forall end: real ensures WindowLoad(h, gap, end, false) <= count {
        SpacedLoad(h, gap, count, end);
      }
    }
    if Within(h, gap, false, count) {
      forall k | count <= k < |h| ensures Gap(h, k, gap, count) {
        if !Gap(h, k, gap, count) { CrowdedLoad(h, gap, count, k); }
      }
    }
  }

  /** The request limits of a sound ledger, as distances. */
  lemma SoundIsSpaced(p: Policy, l: Ledger, gap: real, count: nat)
    requires ValidPolicy(p) && Sound(p, l) && Limit(p, gap, count)
    ensures Spaced(History(l), gap, count)
  {
    hide Load, Within, Sorted, Paced;
    if gap == p.minInterval && count == 1 {
      PacedIsSpaced(History(l), gap);
    } else {
      WithinIsSpaced(History(l), gap, count);
    }
  }

  /*------------------------------------------------------------------ the soonest requests */

  function Times(rows: seq<Charge>): (s: seq<real>)
    ensures |s| == |rows|
    ensures forall i :: 0 <= i < |s| ==> s[i] == rows[i].created
  {
    seq(|rows|, i requires 0 <= i < |rows| => rows[i].created)
  }

  function After(s: seq<real>, gap: real, count: nat, due: real): real
    requires count >= 1
  {
    if |s| >= count then MaxReal(due, s[|s| - count] + gap) else due
  }

  /** The first moment from `floor` on at which a request may follow requests at the times `s`. */
  function Soonest(p: Policy, s: seq<real>, floor: real): real
    requires ValidPolicy(p)
  {
    After(s, DAY, p.perDay, After(s, HOUR, p.perHour, After(s, MINUTE, p.perMinute, After(s, p.minInterval, 1, floor))))
  }

  /** `n` more requests, each as soon as it may be. */
  function Rush(p: Policy, s: seq<real>, floor: real, n: nat): (r: seq<real>)
    requires ValidPolicy(p)
    ensures |r| == |s| + n
  {
    if n == 0 then s else var r := Rush(p, s, floor, n - 1); r + [Soonest(p, r, floor)]
  }

  predicate Rested(s: seq<real>, gap: real, count: nat, t: real) {
    |s| >= count >= 1 ==> s[|s| - count] + gap <= t
  }

  lemma SoonestAtMost(p: Policy, s: seq<real>, floor: real, t: real)
    requires ValidPolicy(p)
    ensures Soonest(p, s, floor) <= t <==>
      (floor <= t && Rested(s, p.minInterval, 1, t) && Rested(s, MINUTE, p.perMinute, t)
       && Rested(s, HOUR, p.perHour, t) && Rested(s, DAY, p.perDay, t))
  {
  }

  lemma SoonestIsRested(p: Policy, s: seq<real>, floor: real, gap: real, count: nat)
    requires ValidPolicy(p) && Limit(p, gap, count)
    ensures Rested(s, gap, count, Soonest(p, s, floor)) && floor <= Soonest(p, s, floor)
  {
    SoonestAtMost(p, s, floor, Soonest(p, s, floor));
  }

  lemma SoonestIsMonotone(p: Policy, a: seq<real>, b: seq<real>, floor: real)
    requires ValidPolicy(p) && |a| == |b| && forall i :: 0 <= i < |a| ==> a[i] <= b[i]
    ensures Soonest(p, a, floor) <= Soonest(p, b, floor)
  {
    SoonestAtMost(p, b, floor, Soonest(p, b, floor));
    SoonestAtMost(p, a, floor, Soonest(p, b, floor));
  }

  lemma {:induction false} RushBegins(p: Policy, s: seq<real>, floor: real, n: nat)
    requires ValidPolicy(p)
    ensures Rush(p, s, floor, n)[..|s|] == s
  {
    if n > 0 { RushBegins(p, s, floor, n - 1); }
  }

  /*------------------------------------------------------------------ continuations */

  /** Before this moment no request follows the restart. */
  function Floor(l: Ledger): real {
    MaxReal(l.time, l.breaker)
  }

  predicate Follow(p: Policy, s: seq<real>, floor: real, j: nat)
    requires ValidPolicy(p) && j < |s|
  {
    Soonest(p, s[..j], floor) <= s[j]
  }

  /** The times `s` begin with the stored table, and every later one kept the limits on what was before it. */
  ghost predicate Follows(p: Policy, l: Ledger, s: seq<real>)
    requires ValidPolicy(p)
  {
    && |l.network| <= |s| && s[..|l.network|] == Times(l.network)
    && forall j :: |l.network| <= j < |s| ==> Follow(p, s, Floor(l), j)
  }

  /** What the restarted service knows or knew: the rows it pruned itself and its table. */
  function Since(l: Ledger, k: Ledger): seq<Charge>
    requires |l.dropped| <= |k.dropped|
  {
    k.dropped[|l.dropped|..] + k.network
  }

  /** `k` continues the restart of `l`. */
  ghost predicate Continues(p: Policy, l: Ledger, k: Ledger)
    requires ValidPolicy(p)
  {
    && |l.dropped| <= |k.dropped| && k.dropped[..|l.dropped|] == l.dropped
    && Before(k.dropped[|l.dropped|..], Clock(k) - DAY)
    && Sorted(Since(l, k)) && Before(Since(l, k), Clock(k))
    && l.time <= Clock(k) && l.breaker <= k.breaker
    && Follows(p, l, Times(Since(l, k)))
  }

  lemma HistoryIsSince(p: Policy, l: Ledger, k: Ledger)
    requires ValidPolicy(p) && Continues(p, l, k)
    ensures History(k) == l.dropped + Since(l, k)
  {
    assert k.dropped == l.dropped + k.dropped[|l.dropped|..];
  }

  lemma RestartContinues(p: Policy, l: Ledger)
    requires ValidPolicy(p) && Sound(p, l)
    ensures Continues(p, l, Restart(l)) && Since(l, Restart(l)) == l.network
  {
    hide Limited, Soonest;
    var k := Restart(l);
    assert k.dropped[|l.dropped|..] == [];
    assert Since(l, k) == l.network;
    NetworkSorted(l);
    NetworkBefore(l, l.time);
    assert Times(l.network)[..|l.network|] == Times(l.network);
  }

  /** The rows pruned since the restart are too old to matter: the table's windows are those of all rows known. */
  lemma KnownLoad(p: Policy, l: Ledger, k: Ledger, limit: real)
    requires ValidPolicy(p) && Continues(p, l, k) && Clock(k) - DAY <= limit
    ensures |Newer(Since(l, k), limit)| == |Newer(k.network, limit)|
    ensures Load(Since(l, k), limit, Clock(k), true) == Charged(Newer(k.network, limit))
  {
    var pruned, now := k.dropped[|l.dropped|..], Clock(k);
    var s := Since(l, k);
    assert Before(k.network, now) by { BeforeConcat(pruned, k.network, now); }
    assert Before(pruned, limit);
    LoadOfNewer(s, limit, now);
    LoadOfNewer(k.network, limit, now);
    LoadConcat(pruned, k.network, limit, now, false);
    LoadConcat(pruned, k.network, limit, now, true);
    LoadNothing(pruned, limit, now, false);
    LoadNothing(pruned, limit, now, true);
  }

  /** On sorted rows, fewer than `count` are newer than `limit` exactly when the `count`-th newest is not. */
  lemma FewerNewer(rows: seq<Charge>, limit: real, count: nat)
    requires Sorted(rows) && count >= 1
    ensures |Newer(rows, limit)| < count <==> (|rows| >= count ==> rows[|rows| - count].created <= limit)
  {
    PruneSplits(rows, limit);
    NewerAre(rows, limit);
    var older, newer := Older(rows, limit), Newer(rows, limit);
    if |rows| >= count {
      var i := |rows| - count;
      assert rows[i] == if i < |older| then older[i] else newer[i - |older|];
    }
  }

  lemma WindowRested(p: Policy, l: Ledger, k: Ledger, window: real, count: nat)
    requires ValidPolicy(p) && Continues(p, l, k) && Limits(p, window, count)
    ensures |Newer(k.network, Clock(k) - window)| < count <==> Rested(Times(Since(l, k)), window, count, Clock(k))
  {
    hide Newer, Sorted, Before, Load, Follows;
    KnownLoad(p, l, k, Clock(k) - window);
    assert Sorted(Since(l, k));
    FewerNewer(Since(l, k), Clock(k) - window, count);
  }

  lemma PaceRested(p: Policy, l: Ledger, k: Ledger)
    requires ValidPolicy(p) && Continues(p, l, k)
    ensures (k.network == [] || k.network[|k.network| - 1].created + p.minInterval <= Clock(k))
        <==> Rested(Times(Since(l, k)), p.minInterval, 1, Clock(k))
  {
    hide Follows;
    var s := Since(l, k);
    if k.network == [] {
      assert s == k.dropped[|l.dropped|..];
    } else {
      assert s[|s| - 1] == k.network[|k.network| - 1];
    }
  }

  /** The ledger after a restart lets a request through exactly when the limits on all rows known allow it. */
  lemma DueIsSoonest(p: Policy, l: Ledger, k: Ledger, host: Host)
    requires ValidPolicy(p) && Continues(p, l, k)
    ensures Due(p, k, host) <= Clock(k) ==> Soonest(p, Times(Since(l, k)), Floor(l)) <= Clock(k)
    ensures (host in k.hosts ==> k.hosts[host] <= Clock(k)) && k.breaker <= Clock(k) && Soonest(p, Times(Since(l, k)), Floor(l)) <= Clock(k)
        ==> Due(p, k, host) <= Clock(k)
  {
    hide Newer, Sorted, Before, Follows, Soonest;
    var s := Times(Since(l, k));
    WindowRested(p, l, k, MINUTE, p.perMinute);
    WindowRested(p, l, k, HOUR, p.perHour);
    WindowRested(p, l, k, DAY, p.perDay);
    PaceRested(p, l, k);
    SoonestAtMost(p, s, Floor(l), Clock(k));
    DueRooms(p, k, host);
  }

  lemma DueRooms(p: Policy, k: Ledger, host: Host)
    requires ValidPolicy(p)
    ensures Due(p, k, host) <= Clock(k) <==>
      (BaseDue(p, k, host) <= Clock(k) && |Newer(k.network, Clock(k) - MINUTE)| < p.perMinute
       && |Newer(k.network, Clock(k) - HOUR)| < p.perHour && |Newer(k.network, Clock(k) - DAY)| < p.perDay)
  {
    hide Newer;
    NewerAre(k.network, Clock(k) - MINUTE);
    NewerAre(k.network, Clock(k) - HOUR);
    NewerAre(k.network, Clock(k) - DAY);
  }

  /*------------------------------------------------------------------ every continuation */

  lemma PruneParts(p: Policy, l: Ledger, k: Ledger)
    requires ValidPolicy(p) && Continues(p, l, k)
    ensures k.network == Older(k.network, Clock(k) - DAY) + Newer(k.network, Clock(k) - DAY)
    ensures Before(k.dropped[|l.dropped|..], Clock(k) - DAY) && Before(Older(k.network, Clock(k) - DAY), Clock(k) - DAY)
  {
    hide Follows, Older, Newer;
    SuffixSorted(k.dropped[|l.dropped|..], k.network);
    hide Sorted, Before;
    PruneSplits(k.network, Clock(k) - DAY);
  }

  lemma MoveRows(dropped: seq<Charge>, older: seq<Charge>, newer: seq<Charge>, n: nat)
    requires n <= |dropped|
    ensures (dropped + older)[..n] == dropped[..n] && (dropped + older)[n..] == dropped[n..] + older
    ensures (dropped + older)[n..] + newer == dropped[n..] + (older + newer)
  {
    DropConcat(dropped, older, n);
    ConcatAssoc(dropped[n..], older, newer);
  }

  lemma PruneSince(p: Policy, l: Ledger, k: Ledger)
    requires ValidPolicy(p) && Continues(p, l, k)
    ensures var pruned := Prune(k);
      && |l.dropped| <= |pruned.dropped| && pruned.dropped[..|l.dropped|] == l.dropped
      && Before(pruned.dropped[|l.dropped|..], Clock(k) - DAY) && Since(l, pruned) == Since(l, k)
  {
    hide Newer, Older, Sorted, Before, Follows;
    var limit := Clock(k) - DAY;
    PruneParts(p, l, k);
    MoveRows(k.dropped, Older(k.network, limit), Newer(k.network, limit), |l.dropped|);
    BeforeConcat(k.dropped[|l.dropped|..], Older(k.network, limit), limit);
  }

  lemma DropConcat(a: seq<Charge>, b: seq<Charge>, n: nat)
    requires n <= |a|
    ensures (a + b)[..n] == a[..n] && (a + b)[n..] == a[n..] + b
  {
  }

  lemma PruneContinues(p: Policy, l: Ledger, k: Ledger)
    requires ValidPolicy(p) && Continues(p, l, k)
    ensures Continues(p, l, Prune(k)) && Since(l, Prune(k)) == Since(l, k)
  {
    hide Follows, Newer, Older, Sorted, Before, Since;
    PruneSince(p, l, k);
  }

  lemma SuffixSorted(a: seq<Charge>, b: seq<Charge>)
    requires Sorted(a + b)
    ensures Sorted(b)
  {
    forall i, j | 0 <= i < j < |b| ensures b[i].created <= b[j].created {
      assert (a + b)[|a| + i] == b[i] && (a + b)[|a| + j] == b[j];
    }
  }

  lemma SettleContinues(p: Policy, l: Ledger, k: Ledger, id: nat, used: nat)
    requires ValidPolicy(p) && Continues(p, l, k)
    ensures Continues(p, l, Settle(k, id, used))
    ensures Times(Since(l, Settle(k, id, used))) == Times(Since(l, k))
  {
    hide Follows;
    var after := Settle(k, id, used);
    assert after.dropped == k.dropped;
    var a, b := Since(l, k), Since(l, after);
    assert |a| == |b| && forall i :: 0 <= i < |a| ==> a[i].created == b[i].created;
    assert Times(a) == Times(b);
  }

  /** The rows known, with one more. */
  lemma ReserveFollows(p: Policy, l: Ledger, s: seq<real>, t: real)
    requires ValidPolicy(p) && Follows(p, l, s) && Soonest(p, s, Floor(l)) <= t
    ensures Follows(p, l, s + [t])
  {
    hide Soonest;
    var longer := s + [t];
    assert longer[..|l.network|] == s[..|l.network|];
    forall j | |l.network| <= j < |longer| ensures Follow(p, longer, Floor(l), j) {
      if j < |s| {
        assert Follow(p, s, Floor(l), j);
        assert longer[..j] == s[..j];
      } else {
        assert longer[..j] == s;
      }
    }
  }

  lemma ReserveContinues(p: Policy, l: Ledger, k: Ledger, host: Host, size: nat, delay: real, lapse: real)
    requires ValidPolicy(p) && Continues(p, l, k) && Soonest(p, Times(Since(l, k)), Floor(l)) <= Clock(k)
    ensures var ticked := Tick(k, lapse);
      var after := Reserve(p, ticked, host, size, delay);
      && Continues(p, l, after)
      && Since(l, after) == Since(l, k) + [Charge(host, Clock(ticked), size)]
  {
    hide Follows, Soonest;
    var ticked := Tick(k, lapse);
    var after, c := Reserve(p, ticked, host, size, delay), Charge(host, Clock(ticked), size);
    assert Since(l, after) == Since(l, k) + [c];
    assert Times(Since(l, after)) == Times(Since(l, k)) + [c.created];
    ReserveFollows(p, l, Times(Since(l, k)), c.created);
  }

  lemma AdmitContinues(p: Policy, l: Ledger, k: Ledger, host: Host, size: nat, delay: real, lapse: real)
    requires ValidPolicy(p) && Continues(p, l, k)
    ensures Continues(p, l, Admit(p, k, host, size, delay, lapse).0)
  {
    hide Due, Soonest, Charged, Reserve, Prune, Follows, Sorted;
    PruneContinues(p, l, k);
    var pruned := Prune(k);
    if Due(p, pruned, host) <= Clock(pruned) {
      DueIsSoonest(p, l, pruned, host);
      if Charged(pruned.network) + size <= p.dailyBody {
        ReserveContinues(p, l, pruned, host, size, delay, lapse);
      }
    }
  }

  lemma ApplyContinues(p: Policy, l: Ledger, k: Ledger, op: Op)
    requires ValidPolicy(p) && Continues(p, l, k) && !op.Restarting?
    ensures Continues(p, l, Apply(p, k, op))
  {
    hide Due, Soonest, Prune, Follows, Sorted, Admit, Settle;
    match op
    case Pruning => PruneContinues(p, l, k);
    case Attempt(host, size, delay, lapse) => AdmitContinues(p, l, k, host, size, delay, lapse);
    case Settling(id, used) => SettleContinues(p, l, k, id, used);
    case _ =>
  }

  lemma {:induction false} RunContinues(p: Policy, l: Ledger, ops: seq<Op>)
    requires ValidPolicy(p) && Sound(p, l) && RestartFree(ops)
    ensures Continues(p, l, Run(p, Restart(l), ops))
  {
    hide Continues, Apply;
    if ops == [] {
      RestartContinues(p, l);
    } else {
      var last := |ops| - 1;
      RunContinues(p, l, ops[..last]);
      ApplyContinues(p, l, Run(p, Restart(l), ops[..last]), ops[last]);
    }
  }

  /** No continuation sends its requests sooner than the rush. */
  lemma {:induction false} RushLeads(p: Policy, l: Ledger, s: seq<real>)
    requires ValidPolicy(p) && Follows(p, l, s)
    ensures forall i :: 0 <= i < |s| ==> Rush(p, Times(l.network), Floor(l), |s| - |l.network|)[i] <= s[i]
    decreases |s|
  {
    hide Soonest;
    var n := |s| - |l.network|;
    if n == 0 {
      assert s == Times(l.network);
    } else {
      var shorter := s[..|s| - 1];
      FollowsPrefix(p, l, s, |s| - 1);
      RushLeads(p, l, shorter);
      assert Follow(p, s, Floor(l), |s| - 1);
      SoonestIsMonotone(p, Rush(p, Times(l.network), Floor(l), n - 1), shorter, Floor(l));
    }
  }

  lemma FollowsPrefix(p: Policy, l: Ledger, s: seq<real>, n: nat)
    requires ValidPolicy(p) && Follows(p, l, s) && |l.network| <= n <= |s|
    ensures Follows(p, l, s[..n])
  {
    hide Soonest;
    var shorter := s[..n];
    assert shorter[..|l.network|] == s[..|l.network|];
    forall j | |l.network| <= j < n ensures Follow(p, shorter, Floor(l), j) {
      assert Follow(p, s, Floor(l), j);
      assert shorter[..j] == s[..j];
    }
  }

  /*------------------------------------------------------------------ what decides the request limits */

  /**
   The `n`-th request after the restart, sent as soon as the stored table allows, comes less than `gap`
   after the forgotten request `count` places before it.
   */
  predicate OutrunBy(p: Policy, l: Ledger, gap: real, count: nat, n: nat)
    requires ValidPolicy(p)
  {
    var k := |History(l)| + n - 1;
    n >= 1 && count <= k < |l.dropped| + count
    && Rush(p, Times(l.network), Floor(l), n)[|l.network| + n - 1] < l.dropped[k - count].created + gap
  }

  /** Some request after the restart can come too early after a forgotten one. */
  predicate Outrun(p: Policy, l: Ledger, gap: real, count: nat)
    requires ValidPolicy(p)
  {
    exists n: nat :: n <= count && OutrunBy(p, l, gap, count, n)
  }

  lemma RequestRested(p: Policy, l: Ledger, s: seq<real>, j: nat, gap: real, count: nat)
    requires ValidPolicy(p) && Follows(p, l, s) && Limit(p, gap, count) && |l.network| <= j < |s| && count <= j
    ensures s[j - count] + gap <= s[j]
  {
    assert Follow(p, s, Floor(l), j);
    SoonestIsRested(p, s[..j], Floor(l), gap, count);
    hide Soonest;
    assert Rested(s[..j], gap, count, s[j]);
  }

  lemma NewRequestSpaced(p: Policy, l: Ledger, s: seq<Charge>, j: nat, gap: real, count: nat)
    requires ValidPolicy(p) && Follows(p, l, Times(s)) && Limit(p, gap, count) && !Outrun(p, l, gap, count)
    requires |l.network| <= j < |s| && count <= |l.dropped| + j
    ensures Gap(l.dropped + s, |l.dropped| + j, gap, count)
  {
    hide Follows, Rush;
    var n := j + 1 - |l.network|;
    if j >= count {
      RequestRested(p, l, Times(s), j, gap, count);
    } else {
      FollowsPrefix(p, l, Times(s), j + 1);
      RushLeads(p, l, Times(s)[..j + 1]);
      assert !OutrunBy(p, l, gap, count, n);
    }
  }

  /** Without such a request every continuation keeps the limit. */
  lemma NeverOutrun(p: Policy, l: Ledger, k: Ledger, gap: real, count: nat)
    requires ValidPolicy(p) && Sound(p, l) && Continues(p, l, k) && Limit(p, gap, count) && !Outrun(p, l, gap, count)
    ensures Spaced(History(k), gap, count)
  {
    hide Sound, Outrun, Follows, Sorted, Limits;
    HistoryIsSince(p, l, k);
    SoundIsSpaced(p, l, gap, count);
    var s := Since(l, k);
    SinceBegins(p, l, k);
    forall i | count <= i < |History(k)| ensures Gap(History(k), i, gap, count) {
      if i < |History(l)| {
        assert Gap(History(l), i, gap, count);
      } else {
        NewRequestSpaced(p, l, s, i - |l.dropped|, gap, count);
      }
    }
  }

  /** The continued history begins at the times of the history before the restart. */
  lemma SinceBegins(p: Policy, l: Ledger, k: Ledger)
    requires ValidPolicy(p) && Continues(p, l, k)
    ensures |l.network| <= |Since(l, k)|
    ensures forall i :: 0 <= i < |History(l)| ==> (l.dropped + Since(l, k))[i].created == History(l)[i].created
  {
    var s := Times(Since(l, k));
    forall i | 0 <= i < |l.network| ensures s[i] == l.network[i].created {
      assert s[..|l.network|][i] == Times(l.network)[i];
    }
  }

  /*------------------------------------------------------------------ the rush can be run */

  predicate Asks(op: Op, size: nat) {
    !op.Restarting? && (op.Attempt? ==> op.size == size)
  }

  /** No restart, and every request reserves `size` bytes. */
  predicate AllAsk(ops: seq<Op>, size: nat) {
    forall i :: 0 <= i < |ops| ==> Asks(ops[i], size)
  }

  lemma {:induction false} FreshHost(hosts: set<Host>) returns (host: Host)
    ensures forall h :: h in hosts ==> h < host
    decreases |hosts|
  {
    if hosts == {} {
      host := 0;
    } else {
      var one := Member(hosts);
      host := FreshHost(hosts - {one});
      if host <= one { host := one + 1; }
      assert forall h :: h in hosts ==> h == one || h in hosts - {one};
    }
  }

  /** A state of the rush: `n` requests made, nothing left but to wait for the next moment. */
  ghost predicate Rushed(p: Policy, l: Ledger, k: Ledger, n: nat, size: nat)
    requires ValidPolicy(p)
  {
    && Continues(p, l, k) && Times(Since(l, k)) == Rush(p, Times(l.network), Floor(l), n)
    && Clock(k) <= Soonest(p, Times(Since(l, k)), Floor(l)) && k.breaker == l.breaker
    && Charged(k.network) + size <= p.dailyBody
  }

  function Waited(p: Policy, l: Ledger, k: Ledger): Ledger
    requires ValidPolicy(p) && |l.dropped| <= |k.dropped|
  {
    Apply(p, k, Passing(Soonest(p, Times(Since(l, k)), Floor(l)) - Clock(k)))
  }

  lemma WaitedIsDue(p: Policy, l: Ledger, k: Ledger, host: Host)
    requires ValidPolicy(p) && Continues(p, l, k) && k.breaker == l.breaker && host !in k.hosts
    requires Clock(k) <= Soonest(p, Times(Since(l, k)), Floor(l))
    ensures Clock(Waited(p, l, k)) == Soonest(p, Times(Since(l, k)), Floor(l))
    ensures var w := Prune(Waited(p, l, k));
      Continues(p, l, w) && Since(l, w) == Since(l, k) && Due(p, w, host) <= Clock(w)
  {
    var s := Times(Since(l, k));
    SoonestAtMost(p, s, Floor(l), Soonest(p, s, Floor(l)));
    hide Due, Soonest, Follows, Sorted, Prune;
    var w := Waited(p, l, k);
    ApplyContinues(p, l, k, Passing(Soonest(p, s, Floor(l)) - Clock(k)));
    assert Since(l, w) == Since(l, k);
    PruneContinues(p, l, w);
    PruneFrees(w);
    DueIsSoonest(p, l, Prune(w), host);
  }

  lemma PruneFrees(k: Ledger)
    ensures Clock(Prune(k)) == Clock(k) && Prune(k).breaker == k.breaker && Prune(k).hosts.Keys <= k.hosts.Keys
    ensures Prune(k).network == Newer(k.network, Clock(k) - DAY)
    ensures Charged(Prune(k).network) <= Charged(k.network)
  {
    NewerCharged(k.network, Clock(k) - DAY);
  }

  /** The next request of the rush is let through. */
  lemma RushAdmits(p: Policy, l: Ledger, k: Ledger, n: nat, size: nat, host: Host)
    requires ValidPolicy(p) && Rushed(p, l, k, n, size) && host !in k.hosts
    ensures var after := Apply(p, Waited(p, l, k), Attempt(host, size, 0.0, 0.0));
      && Continues(p, l, after) && |after.network| >= 1 && after.breaker == l.breaker
      && Times(Since(l, after)) == Rush(p, Times(l.network), Floor(l), n + 1)
      && Clock(after) == Soonest(p, Times(Since(l, k)), Floor(l))
      && Charged(after.network[..|after.network| - 1]) + size <= p.dailyBody
  {
    hide Due, Soonest, Follows, Sorted, Prune, Charged;
    var w := Waited(p, l, k);
    WaitedIsDue(p, l, k, host);
    PruneFrees(w);
    var pruned := Prune(w);
    var c := Charge(host, Clock(w), size);
    assert Tick(pruned, 0.0) == pruned;
    DueIsSoonest(p, l, pruned, host);
    ReserveContinues(p, l, pruned, host, size, 0.0, 0.0);
    var after := Apply(p, w, Attempt(host, size, 0.0, 0.0));
    assert after == Reserve(p, pruned, host, size, 0.0);
    assert after.network == pruned.network + [c];
    assert after.network[..|after.network| - 1] == pruned.network;
    assert Times(Since(l, after)) == Times(Since(l, k)) + [c.created];
  }

  /** An answer that used no bytes frees the whole reservation. */
  lemma FreedReservation(after: Ledger)
    requires |after.network| >= 1
    ensures Charged(Settle(after, |History(after)| - 1, 0).network) == Charged(after.network[..|after.network| - 1])
  {
    var last, settled := |after.network| - 1, Settle(after, |History(after)| - 1, 0).network;
    assert settled[..last] == after.network[..last];
  }

  lemma RushWaits(p: Policy, l: Ledger, n: nat)
    requires ValidPolicy(p)
    ensures Soonest(p, Rush(p, Times(l.network), Floor(l), n), Floor(l)) <= Soonest(p, Rush(p, Times(l.network), Floor(l), n + 1), Floor(l))
  {
    var s := Rush(p, Times(l.network), Floor(l), n + 1);
    SoonestIsRested(p, s, Floor(l), p.minInterval, 1);
    hide Soonest;
    assert s[|s| - 1] == Soonest(p, Rush(p, Times(l.network), Floor(l), n), Floor(l));
  }

  /** The state of the rush one request later. */
  lemma RushSettles(p: Policy, l: Ledger, after: Ledger, n: nat, size: nat)
    requires ValidPolicy(p) && Continues(p, l, after) && |after.network| >= 1 && after.breaker == l.breaker
    requires |l.dropped| <= |after.dropped| && Times(Since(l, after)) == Rush(p, Times(l.network), Floor(l), n + 1)
    requires Clock(after) == Soonest(p, Rush(p, Times(l.network), Floor(l), n), Floor(l))
    requires Charged(after.network[..|after.network| - 1]) + size <= p.dailyBody
    ensures Rushed(p, l, Settle(after, |History(after)| - 1, 0), n + 1, size)
  {
    hide Soonest, Continues, Since, Charged, Rush;
    SettleContinues(p, l, after, |History(after)| - 1, 0);
    FreedReservation(after);
    RushWaits(p, l, n);
  }

  /** A continuation that makes `n` requests as soon as it may. */
  lemma {:induction false} RushRuns(p: Policy, l: Ledger, n: nat, size: nat) returns (ops: seq<Op>)
    requires ValidPolicy(p) && Sound(p, l) && Charged(Prune(Restart(l)).network) + size <= p.dailyBody
    ensures AllAsk(ops, size) && Rushed(p, l, Run(p, Restart(l), ops), n, size)
  {
    hide Rushed, Sound, Prune, Soonest, Charged, Apply, Continues;
    if n == 0 {
      ops := [Pruning];
      RushStarts(p, l, size);
      RunOne(p, Restart(l), [], Pruning);
      assert ops == [] + [Pruning];
    } else {
      ops := RushRuns(p, l, n - 1, size);
      var k := Run(p, Restart(l), ops);
      var more := RushStep(p, l, k, n - 1, size);
      RunMore(p, Restart(l), ops, more);
      ops := ops + more;
    }
  }

  lemma RushedFrom(p: Policy, l: Ledger, k: Ledger, size: nat)
    requires ValidPolicy(p) && Continues(p, l, k) && |l.dropped| <= |k.dropped| && Since(l, k) == l.network
    requires Clock(k) == l.time && k.breaker == l.breaker && Charged(k.network) + size <= p.dailyBody
    ensures Rushed(p, l, k, 0, size)
  {
    hide Continues, Charged, Soonest, Since;
    SoonestAtMost(p, Times(l.network), Floor(l), Soonest(p, Times(l.network), Floor(l)));
  }

  lemma RushStarts(p: Policy, l: Ledger, size: nat)
    requires ValidPolicy(p) && Sound(p, l) && Charged(Prune(Restart(l)).network) + size <= p.dailyBody
    ensures Rushed(p, l, Apply(p, Restart(l), Pruning), 0, size)
  {
    hide Sound, Continues, Charged, Since, Prune, Rushed;
    RestartContinues(p, l);
    PruneContinues(p, l, Restart(l));
    PruneFrees(Restart(l));
    KeepsPrefix(p, l, Prune(Restart(l)));
    RushedFrom(p, l, Prune(Restart(l)), size);
  }

  lemma RushStep(p: Policy, l: Ledger, k: Ledger, n: nat, size: nat) returns (more: seq<Op>)
    requires ValidPolicy(p) && Rushed(p, l, k, n, size)
    ensures |more| == 3 && AllAsk(more, size)
    ensures Rushed(p, l, Apply(p, Apply(p, Apply(p, k, more[0]), more[1]), more[2]), n + 1, size)
  {
    hide Continues, Soonest, Charged, Settle, Admit, Follows;
    var host := FreshHost(k.hosts.Keys);
    KeepsPrefix(p, l, k);
    var w := Waited(p, l, k);
    var after := Apply(p, w, Attempt(host, size, 0.0, 0.0));
    RushAdmits(p, l, k, n, size, host);
    KeepsPrefix(p, l, after);
    RushSettles(p, l, after, n, size);
    more := [Passing(Soonest(p, Times(Since(l, k)), Floor(l)) - Clock(k)),
             Attempt(host, size, 0.0, 0.0), Settling(|History(after)| - 1, 0)];
  }

  lemma KeepsPrefix(p: Policy, l: Ledger, k: Ledger)
    requires ValidPolicy(p) && Continues(p, l, k)
    ensures |l.dropped| <= |k.dropped|
  {
  }

  lemma RunOne(p: Policy, l: Ledger, ops: seq<Op>, op: Op)
    requires ValidPolicy(p)
    ensures Run(p, l, ops + [op]) == Apply(p, Run(p, l, ops), op)
  {
    assert (ops + [op])[..|ops + [op]| - 1] == ops;
  }

  lemma RunMore(p: Policy, l: Ledger, ops: seq<Op>, more: seq<Op>)
    requires ValidPolicy(p) && |more| == 3
    ensures Run(p, l, ops + more) == Apply(p, Apply(p, Apply(p, Run(p, l, ops), more[0]), more[1]), more[2])
  {
    hide Apply;
    RunOne(p, l, ops, more[0]);
    RunOne(p, l, ops + [more[0]], more[1]);
    RunOne(p, l, ops + [more[0]] + [more[1]], more[2]);
    assert ops + more == ops + [more[0]] + [more[1]] + [more[2]];
  }

  /** With such a request a continuation breaks the limit, whatever size of request the budget has room for. */
  lemma OutrunBreaks(p: Policy, l: Ledger, gap: real, count: nat, size: nat) returns (ops: seq<Op>)
    requires ValidPolicy(p) && Sound(p, l) && Limit(p, gap, count) && Outrun(p, l, gap, count)
    requires Charged(Prune(Restart(l)).network) + size <= p.dailyBody
    ensures AllAsk(ops, size) && !Spaced(History(Run(p, Restart(l), ops)), gap, count)
  {
    hide Sound, Sorted, Follows, Soonest, Charged, Prune, Apply;
    var n: nat :| n <= count && OutrunBy(p, l, gap, count, n);
    ops := RushRuns(p, l, n, size);
    var k := Run(p, Restart(l), ops);
    HistoryIsSince(p, l, k);
    var i := |History(l)| + n - 1;
    assert Times(Since(l, k))[|l.network| + n - 1] == Since(l, k)[|l.network| + n - 1].created;
    assert !Gap(History(k), i, gap, count);
  }

  lemma RestartHasRoom(p: Policy, l: Ledger)
    requires ValidPolicy(p) && Sound(p, l)
    ensures Charged(Prune(Restart(l)).network) <= p.dailyBody
  {
    var from := l.time - DAY;
    NetworkBefore(l, l.time);
    LoadOfNewer(l.network, from, l.time);
    LoadConcat(l.dropped, l.network, from, l.time, true);
    assert WindowLoad(History(l), DAY, l.time, true) <= p.dailyBody;
  }

  lemma AllAskIsRestartFree(ops: seq<Op>, size: nat)
    requires AllAsk(ops, size)
    ensures RestartFree(ops)
  {
    forall i | 0 <= i < |ops| ensures !ops[i].Restarting? {
      assert Asks(ops[i], size);
    }
  }

  /** Some continuation of the restart breaks the limit exactly when a request can come too early after a forgotten one. */
  lemma LimitBreaksExactly(p: Policy, l: Ledger, gap: real, count: nat)
    requires ValidPolicy(p) && Sound(p, l) && Limit(p, gap, count)
    ensures (exists ops :: RestartFree(ops) && !Spaced(History(Run(p, Restart(l), ops)), gap, count)) <==> Outrun(p, l, gap, count)
  {
    hide Sound, Outrun, Spaced, Prune, Limits, RestartFree;
    if Outrun(p, l, gap, count) {
      RestartHasRoom(p, l);
      var ops := OutrunBreaks(p, l, gap, count, 0);
      AllAskIsRestartFree(ops, 0);
    } else {
      forall ops | RestartFree(ops) ensures Spaced(History(Run(p, Restart(l), ops)), gap, count) {
        RunContinues(p, l, ops);
        NeverOutrun(p, l, Run(p, Restart(l), ops), gap, count);
      }
    }
  }

  lemma ContinuedSorted(p: Policy, l: Ledger, k: Ledger)
    requires ValidPolicy(p) && Sound(p, l) && Continues(p, l, k)
    ensures Sorted(History(k))
  {
    hide Limited;
    HistoryIsSince(p, l, k);
    SinceBegins(p, l, k);
    var s := Since(l, k);
    hide Follows;
    forall i, j | 0 <= i < j < |l.dropped + s| ensures (l.dropped + s)[i].created <= (l.dropped + s)[j].created {
      if j < |l.dropped| {
        assert History(l)[i] == l.dropped[i] && History(l)[j] == l.dropped[j];
      } else if i < |l.dropped| {
        assert History(l)[i] == l.dropped[i];
        NotBeforeTheTable(p, l, k, j - |l.dropped|, i);
      }
    }
  }

  lemma NotBeforeTheTable(p: Policy, l: Ledger, k: Ledger, j: nat, i: nat)
    requires ValidPolicy(p) && Sound(p, l) && Continues(p, l, k) && j < |Since(l, k)| && i < |l.dropped|
    ensures l.dropped[i].created <= Since(l, k)[j].created
  {
    hide Limited;
    var s := Times(Since(l, k));
    assert History(l)[i] == l.dropped[i];
    if j < |l.network| {
      assert s[..|l.network|][j] == s[j] && History(l)[|l.dropped| + j] == l.network[j];
    } else {
      assert Follow(p, s, Floor(l), j);
      SoonestAtMost(p, s[..j], Floor(l), s[j]);
    }
  }

  /** The newest forgotten request decides the pacing. */
  lemma PaceBreaksExactly(p: Policy, l: Ledger)
    requires ValidPolicy(p) && Sound(p, l)
    ensures (exists ops :: RestartFree(ops) && !Paced(History(Run(p, Restart(l), ops)), p.minInterval))
      <==> (l.network == [] && l.dropped != []
            && MaxReal(l.time, l.breaker) < l.dropped[|l.dropped| - 1].created + p.minInterval)
  {
    hide Sound, Prune, RestartFree, Run;
    LimitBreaksExactly(p, l, p.minInterval, 1);
    forall ops ensures Paced(History(Run(p, Restart(l), ops)), p.minInterval)
                   <==> Spaced(History(Run(p, Restart(l), ops)), p.minInterval, 1) {
      PacedIsSpaced(History(Run(p, Restart(l), ops)), p.minInterval);
    }
    OutrunOnce(p, l);
  }

  lemma OutrunOnce(p: Policy, l: Ledger)
    requires ValidPolicy(p)
    ensures Outrun(p, l, p.minInterval, 1)
       <==> (l.network == [] && l.dropped != [] && Floor(l) < l.dropped[|l.dropped| - 1].created + p.minInterval)
  {
    assert OutrunBy(p, l, p.minInterval, 1, 1)
       <==> (l.network == [] && l.dropped != [] && Floor(l) < l.dropped[|l.dropped| - 1].created + p.minInterval)
    by {
      if l.network == [] {
        assert Rush(p, Times(l.network), Floor(l), 1)[0] == Soonest(p, [], Floor(l)) by {
          assert Times(l.network) == [];
          assert Rush(p, [], Floor(l), 0) == [];
        }
      }
    }
    assert !OutrunBy(p, l, p.minInterval, 1, 0);
  }

  /** A window of requests breaks exactly when a request can come too early after a forgotten one. */
  lemma WindowBreaksExactly(p: Policy, l: Ledger, window: real, maximum: nat)
    requires ValidPolicy(p) && Sound(p, l) && Limits(p, window, maximum)
    ensures (exists ops :: RestartFree(ops) && !Within(History(Run(p, Restart(l), ops)), window, false, maximum))
       <==> Outrun(p, l, window, maximum)
  {
    hide Sound, Outrun, Prune, RestartFree, Run, Within, Spaced;
    LimitBreaksExactly(p, l, window, maximum);
    forall ops | RestartFree(ops) ensures Within(History(Run(p, Restart(l), ops)), window, false, maximum)
                                     <==> Spaced(History(Run(p, Restart(l), ops)), window, maximum) {
      RunContinues(p, l, ops);
      ContinuedSorted(p, l, Run(p, Restart(l), ops));
      WithinIsSpaced(History(Run(p, Restart(l), ops)), window, maximum);
    }
  }

  /*------------------------------------------------------------------ what decides the byte budget */

  /** The first moment at which the restarted service can send a request. */
  function FirstRequest(p: Policy, l: Ledger): real
    requires ValidPolicy(p)
  {
    Soonest(p, Times(l.network), Floor(l))
  }

  /** Forgotten rows still hold bytes of the day that ends at the first request. */
  predicate BytesForgotten(p: Policy, l: Ledger)
    requires ValidPolicy(p)
  {
    Load(l.dropped, FirstRequest(p, l) - DAY, l.time, true) > 0
  }

  /** A request after the restart is not before the first one. */
  lemma FirstIsFirst(p: Policy, l: Ledger, k: Ledger, t: real)
    requires ValidPolicy(p) && Continues(p, l, k)
    requires Soonest(p, Times(Since(l, k)), Floor(l)) <= t && Clock(k) <= t
    ensures FirstRequest(p, l) <= t
  {
    var s := Times(Since(l, k));
    if |s| == |l.network| {
      assert s[..|l.network|] == s;
    } else {
      var j := |l.network|;
      assert Follow(p, s, Floor(l), j);
      assert s[j] <= Clock(k);
    }
  }

  lemma DroppedBefore(p: Policy, l: Ledger)
    requires Sound(p, l)
    ensures Before(l.dropped, l.time)
  {
    forall i | 0 <= i < |l.dropped| ensures l.dropped[i].created <= l.time {
      assert History(l)[i] == l.dropped[i];
    }
  }

  /** A later end of the window adds nothing to rows that are all before it. */
  lemma LoadCap(h: seq<Charge>, from: real, end: real, later: real)
    requires Before(h, end) && Before(h, later)
    ensures Load(h, from, end, true) == Load(h, from, later, true)
  {
    LoadShrinks(h, from, from, end, later, true);
    LoadShrinks(h, from, from, later, end, true);
  }

  /** The table counts every byte of the day before a new request that is not forgotten. */
  lemma BytesInTable(p: Policy, l: Ledger, k: Ledger, t: real)
    requires ValidPolicy(p) && Continues(p, l, k) && Clock(k) <= t
    ensures Load(Since(l, k), t - DAY, t, true) <= Charged(k.network)
  {
    var now := Clock(k);
    KnownLoad(p, l, k, now - DAY);
    NewerCharged(k.network, now - DAY);
    hide Load, Charged, Newer, Follows, Sorted;
    LoadShrinks(Since(l, k), now - DAY, t - DAY, now, t, true);
  }

  /** Unless bytes were forgotten, it counts every byte of that day. */
  lemma BytesKnown(p: Policy, l: Ledger, k: Ledger, t: real)
    requires ValidPolicy(p) && Sound(p, l) && Continues(p, l, k) && !BytesForgotten(p, l)
    requires FirstRequest(p, l) <= t && Clock(k) <= t
    ensures Load(History(k), t - DAY, t, true) <= Charged(k.network)
  {
    hide Sound, Continues, Load, Charged, FirstRequest;
    HistoryIsSince(p, l, k);
    KeepsPrefix(p, l, k);
    BytesInTable(p, l, k, t);
    DroppedBefore(p, l);
    LoadConcat(l.dropped, Since(l, k), t - DAY, t, true);
    LoadShrinks(l.dropped, FirstRequest(p, l) - DAY, t - DAY, l.time, t, true);
  }

  lemma GrantKeepsBytes(p: Policy, l: Ledger, w: Ledger, c: Charge)
    requires ValidPolicy(p) && Sound(p, l) && Continues(p, l, w) && !BytesForgotten(p, l)
    requires |l.dropped| <= |w.dropped| && Soonest(p, Times(Since(l, w)), Floor(l)) <= Clock(w) <= c.created
    requires Charged(w.network) + c.bytes <= p.dailyBody && Within(History(w), DAY, true, p.dailyBody)
    ensures Within(History(w) + [c], DAY, true, p.dailyBody)
  {
    hide Soonest, Charged, Continues, Within, Sound, BytesForgotten, FirstRequest, History, Load;
    FirstIsFirst(p, l, w, c.created);
    BytesKnown(p, l, w, c.created);
    ContinuedBefore(p, l, w);
    EarlierBefore(History(w), Clock(w), c.created);
    AppendWithin(History(w), c, DAY, true, p.dailyBody);
  }

  lemma AdmitKeepsBytes(p: Policy, l: Ledger, k: Ledger, host: Host, size: nat, delay: real, lapse: real)
    requires ValidPolicy(p) && Sound(p, l) && Continues(p, l, k) && !BytesForgotten(p, l)
    requires Within(History(k), DAY, true, p.dailyBody)
    ensures Within(History(Admit(p, k, host, size, delay, lapse).0), DAY, true, p.dailyBody)
  {
    hide Due, Soonest, Charged, Prune, Continues, Within, Sound, BytesForgotten, Since;
    PruneHistoryContinues(p, l, k);
    var w := Prune(k);
    if Due(p, w, host) <= Clock(w) && Charged(w.network) + size <= p.dailyBody {
      var c := Charge(host, Clock(Tick(w, lapse)), size);
      KeepsPrefix(p, l, w);
      DueIsSoonest(p, l, w, host);
      GrantKeepsBytes(p, l, w, c);
      assert History(Reserve(p, Tick(w, lapse), host, size, delay)) == History(w) + [c];
    }
  }

  lemma PruneHistoryContinues(p: Policy, l: Ledger, k: Ledger)
    requires ValidPolicy(p) && Continues(p, l, k)
    ensures Continues(p, l, Prune(k)) && History(Prune(k)) == History(k)
  {
    hide Continues, Prune, Since, History;
    PruneContinues(p, l, k);
    KeepsPrefix(p, l, k);
    KeepsPrefix(p, l, Prune(k));
    HistoryIsSince(p, l, k);
    HistoryIsSince(p, l, Prune(k));
  }

  lemma ContinuedBefore(p: Policy, l: Ledger, k: Ledger)
    requires ValidPolicy(p) && Sound(p, l) && Continues(p, l, k)
    ensures Before(History(k), Clock(k))
  {
    DroppedBefore(p, l);
    HistoryIsSince(p, l, k);
  }

  lemma SettleKeepsBytes(p: Policy, k: Ledger, id: nat, used: nat)
    requires Within(History(k), DAY, true, p.dailyBody)
    ensures Within(History(Settle(k, id, used)), DAY, true, p.dailyBody)
  {
    var j := id - |k.dropped|;
    if 0 <= j < |k.network| {
      var c := Settle(k, id, used).network[j];
      assert History(k)[id] == k.network[j];
      assert History(Settle(k, id, used)) == History(k)[id := c];
      SmallerWithin(History(k), id, c, DAY, true, p.dailyBody);
    }
  }

  lemma ApplyKeepsBytes(p: Policy, l: Ledger, k: Ledger, op: Op)
    requires ValidPolicy(p) && Sound(p, l) && Continues(p, l, k) && !op.Restarting? && !BytesForgotten(p, l)
    requires Within(History(k), DAY, true, p.dailyBody)
    ensures Within(History(Apply(p, k, op)), DAY, true, p.dailyBody)
  {
    hide Due, Soonest, Prune, Follows, Sorted, Admit, Settle, Within, BytesForgotten, Sound;
    match op
    case Pruning => PruneHistoryContinues(p, l, k);
    case Attempt(host, size, delay, lapse) => AdmitKeepsBytes(p, l, k, host, size, delay, lapse);
    case Settling(id, used) => SettleKeepsBytes(p, k, id, used);
    case _ =>
  }

  lemma {:induction false} RunKeepsBytes(p: Policy, l: Ledger, ops: seq<Op>)
    requires ValidPolicy(p) && Sound(p, l) && RestartFree(ops) && !BytesForgotten(p, l)
    ensures Within(History(Run(p, Restart(l), ops)), DAY, true, p.dailyBody)
  {
    if ops == [] {
      assert History(Restart(l)) == History(l);
    } else {
      hide Sound, Continues, Apply, Within, BytesForgotten;
      var last := |ops| - 1;
      RunKeepsBytes(p, l, ops[..last]);
      RunContinues(p, l, ops[..last]);
      ApplyKeepsBytes(p, l, Run(p, Restart(l), ops[..last]), ops[last]);
    }
  }

  /** With forgotten bytes the first request can reserve what the table leaves of the budget, and so exceed it. */
  lemma ForgottenBytesBreak(p: Policy, l: Ledger) returns (ops: seq<Op>)
    requires ValidPolicy(p) && Sound(p, l) && BytesForgotten(p, l)
    ensures RestartFree(ops) && !Within(History(Run(p, Restart(l), ops)), DAY, true, p.dailyBody)
  {
    hide Sound, Prune, FirstRequest, Continues, Within, BytesForgotten, Due, Apply, Restart, Since;
    var host := FreshHost(l.hosts.Keys);
    FirstWait(p, l, host);
    var wait := Passing(FirstRequest(p, l) - l.time);
    var size := FirstFills(p, l, Apply(p, Restart(l), wait), host);
    ops := [wait] + [Attempt(host, size, 0.0, 0.0)];
    RunTwo(p, Restart(l), wait, Attempt(host, size, 0.0, 0.0));
  }

  lemma FirstWait(p: Policy, l: Ledger, host: Host)
    requires ValidPolicy(p) && Sound(p, l) && host !in l.hosts
    ensures var w := Apply(p, Restart(l), Passing(FirstRequest(p, l) - l.time));
      && w.network == l.network && l.time <= Clock(w) == FirstRequest(p, l)
      && Continues(p, l, Prune(w)) && Since(l, Prune(w)) == l.network && Due(p, Prune(w), host) <= Clock(w)
  {
    hide Sound, Prune, Soonest, Continues, Due;
    RestartContinues(p, l);
    SoonestAtMost(p, Times(l.network), Floor(l), FirstRequest(p, l));
    WaitedIsDue(p, l, Restart(l), host);
    PruneFrees(Waited(p, l, Restart(l)));
  }

  lemma FirstFills(p: Policy, l: Ledger, w: Ledger, host: Host) returns (size: nat)
    requires ValidPolicy(p) && Sound(p, l) && BytesForgotten(p, l)
    requires w.network == l.network && l.time <= Clock(w) == FirstRequest(p, l)
    requires Continues(p, l, Prune(w)) && Since(l, Prune(w)) == l.network && Due(p, Prune(w), host) <= Clock(w)
    ensures !Within(History(Apply(p, w, Attempt(host, size, 0.0, 0.0))), DAY, true, p.dailyBody)
  {
    hide Sound, Soonest, Charged, Continues, Load, Within, Due, BytesForgotten, Admit, FirstRequest, Since, Prune;
    RestartCharge(p, l, Clock(w));
    PruneFrees(w);
    size := p.dailyBody - Charged(Prune(w).network);
    FirstAdmits(p, w, host, size);
    HistoryIsSince(p, l, Prune(w));
    FilledDay(p, l, Charge(host, Clock(w), size));
  }

  lemma FirstAdmits(p: Policy, w: Ledger, host: Host, size: nat)
    requires ValidPolicy(p) && Due(p, Prune(w), host) <= Clock(w) && Charged(Prune(w).network) + size <= p.dailyBody
    ensures History(Apply(p, w, Attempt(host, size, 0.0, 0.0))) == History(Prune(w)) + [Charge(host, Clock(w), size)]
  {
    hide Due, Charged;
    assert Tick(Prune(w), 0.0) == Prune(w);
  }

  lemma RunTwo(p: Policy, l: Ledger, first: Op, second: Op)
    requires ValidPolicy(p)
    ensures Run(p, l, [first] + [second]) == Apply(p, Apply(p, l, first), second)
  {
    hide Apply;
    assert [first][..0] == [];
    RunOne(p, l, [first], second);
  }

  lemma RestartCharge(p: Policy, l: Ledger, t: real)
    requires ValidPolicy(p) && Sound(p, l) && l.time <= t
    ensures Charged(Newer(l.network, t - DAY)) == Load(l.network, t - DAY, t, true) <= p.dailyBody
  {
    NetworkBefore(l, l.time);
    LoadOfNewer(l.network, t - DAY, t);
    LoadShrinks(l.network, l.time - DAY, t - DAY, l.time, t, true);
    LoadConcat(l.dropped, l.network, l.time - DAY, l.time, true);
    assert WindowLoad(History(l), DAY, l.time, true) <= p.dailyBody;
  }

  lemma FilledDay(p: Policy, l: Ledger, c: Charge)
    requires ValidPolicy(p) && Sound(p, l) && BytesForgotten(p, l) && l.time <= c.created == FirstRequest(p, l)
    requires c.bytes == p.dailyBody - Charged(Newer(l.network, c.created - DAY))
    ensures !Within(l.dropped + l.network + [c], DAY, true, p.dailyBody)
  {
    var t := c.created;
    OneLoad(c);
    hide FirstRequest, Sound, Load, Newer, Charged;
    DroppedBefore(p, l);
    RestartCharge(p, l, t);
    EarlierBefore(l.dropped, l.time, t);
    LoadCap(l.dropped, t - DAY, l.time, t);
    LoadConcat(l.dropped, l.network, t - DAY, t, true);
    LoadConcat(l.dropped + l.network, [c], t - DAY, t, true);
    assert WindowLoad(l.dropped + l.network + [c], DAY, t, true) > p.dailyBody;
  }

  lemma OneLoad(c: Charge)
    ensures Load([c], c.created - DAY, c.created, true) == c.bytes
  {
    assert [c][..0] == [];
  }

  /** The byte budget breaks exactly when forgotten rows hold bytes of the day before the first request. */
  lemma BytesBreakExactly(p: Policy, l: Ledger)
    requires ValidPolicy(p) && Sound(p, l)
    ensures (exists ops :: RestartFree(ops) && !Within(History(Run(p, Restart(l), ops)), DAY, true, p.dailyBody))
       <==> BytesForgotten(p, l)
  {
    hide Sound, RestartFree, Run, Within, BytesForgotten;
    if BytesForgotten(p, l) {
      var ops := ForgottenBytesBreak(p, l);
    } else {
      forall ops | RestartFree(ops) ensures Within(History(Run(p, Restart(l), ops)), DAY, true, p.dailyBody) {
        RunKeepsBytes(p, l, ops);
      }
    }
  }

  /*------------------------------------------------------------------ restarts that forget */

  /** A forgotten row can still bind one of the limits. */
  predicate Forgets(p: Policy, l: Ledger)
    requires ValidPolicy(p)
  {
    || (l.network == [] && l.dropped != [] && Floor(l) < l.dropped[|l.dropped| - 1].created + p.minInterval)
    || Outrun(p, l, MINUTE, p.perMinute) || Outrun(p, l, HOUR, p.perHour) || Outrun(p, l, DAY, p.perDay)
    || BytesForgotten(p, l)
  }

  /** All limits hold in every continuation of a restart exactly when no forgotten row can still bind. */
  lemma RestartIsSafeExactly(p: Policy, l: Ledger)
    requires ValidPolicy(p) && Sound(p, l)
    ensures (forall ops :: RestartFree(ops) ==> Limited(p, History(Run(p, Restart(l), ops)))) <==> !Forgets(p, l)
  {
    hide Sound, RestartFree, Run, Within, Paced, BytesForgotten, Outrun;
    PaceBreaksExactly(p, l);
    WindowBreaksExactly(p, l, MINUTE, p.perMinute);
    WindowBreaksExactly(p, l, HOUR, p.perHour);
    WindowBreaksExactly(p, l, DAY, p.perDay);
    BytesBreakExactly(p, l);
  }

  /** A restart with the last pruning saved forgets nothing that binds. */
  lemma SavedForgetsNothing(p: Policy, l: Ledger)
    requires ValidPolicy(p) && Sound(p, l) && SavedAfterPruning(l)
    ensures !Forgets(p, l)
  {
    hide Sound, Run, Limited, Forgets;
    forall ops | RestartFree(ops) ensures Limited(p, History(Run(p, Restart(l), ops))) {
      RestartKeeps(p, l);
      RunKeeps(p, Restart(l), ops);
      SoundIsLimited(p, Run(p, Restart(l), ops));
    }
    RestartIsSafeExactly(p, l);
  }

  lemma SoundIsLimited(p: Policy, l: Ledger)
    requires Sound(p, l)
    ensures Limited(p, History(l))
  {
  }

  lemma {:induction false} RunKeeps(p: Policy, l: Ledger, ops: seq<Op>)
    requires ValidPolicy(p) && Sound(p, l) && RestartFree(ops)
    ensures Sound(p, Run(p, l, ops))
  {
    hide Sound, Apply;
    if ops != [] {
      RunKeeps(p, l, ops[..|ops| - 1]);
      ApplyKeeps(p, Run(p, l, ops[..|ops| - 1]), ops[|ops| - 1]);
    }
  }

  /*------------------------------------------------------------------ a restart that forgets */

  lemma GrantOnEmptyTable(p: Policy, l: Ledger, host: Host, size: nat)
    requires ValidPolicy(p) && l.network == [] && host !in l.hosts && l.breaker <= Clock(l) && size <= p.dailyBody
    ensures var after := Admit(p, l, host, size, 0.0, 0.0).0;
      && after.network == [Charge(host, Clock(l), size)] && after.dropped == l.dropped && after.prunedAt == l.prunedAt
      && after.base == l.base && after.elapsed == l.elapsed && after.breaker == l.breaker
      && after.time == MaxReal(l.time, Clock(l))
      && forall h :: h in after.hosts && h != host ==> h in l.hosts
  {
    assert Prune(l).network == [] && Prune(l).dropped == l.dropped;
    assert Due(p, Prune(l), host) == l.breaker;
    assert Tick(Prune(l), 0.0) == Prune(l);
  }

  lemma RefusalPrunes(p: Policy, l: Ledger, host: Host, size: nat)
    requires ValidPolicy(p) && |l.network| == 1 && l.network[0].created <= Clock(l) - DAY
    requires host in l.hosts && l.hosts[host] > Clock(l)
    ensures var after := Admit(p, l, host, size, 0.0, 0.0).0;
      && after.network == [] && after.dropped == l.dropped + l.network && after.prunedAt == Clock(l)
      && after.base == l.base && after.elapsed == l.elapsed && after.breaker == l.breaker && after.time == l.time
      && forall h :: h in after.hosts ==> h in l.hosts
  {
    OneOld(l.network, Clock(l) - DAY);
    assert BaseDue(p, Prune(l), host) >= Prune(l).hosts[host];
  }

  lemma OneOld(rows: seq<Charge>, limit: real)
    requires |rows| == 1 && rows[0].created <= limit
    ensures Newer(rows, limit) == [] && Older(rows, limit) == rows
  {
    assert rows == [] + [rows[0]];
    assert rows[..0] == [];
  }

  /**
   A request to `a`, answered with a Retry-After of more than a day; a day later a row still queued for
   `a` is passed over, which prunes and does not save.
   */
  function PassedOver(p: Policy, a: Host, size: nat): Ledger
    requires ValidPolicy(p)
  {
    var answered := Apply(p, Apply(p, Apply(p, Empty(), Attempt(a, size, 0.0, 0.0)), Delay(a, 200000.0)), Saving);
    Apply(p, Apply(p, answered, Passing(86401.0)), Attempt(a, size, 0.0, 0.0))
  }

  /** Then a crash, and a request to `c`: under every policy the run ends with two requests at one moment of ledger time. */
  lemma ForgottenRequest(p: Policy, a: Host, c: Host, size: nat)
    requires ValidPolicy(p) && size <= p.dailyBody && c != a
    ensures var l := PassedOver(p, a, size); !SavedAfterPruning(l) && Forgets(p, l)
    ensures var after := Apply(p, Apply(p, PassedOver(p, a, size), Restarting), Attempt(c, size, 0.0, 0.0));
      && !Paced(History(after), p.minInterval)
      && (p.perDay == 1 ==> !Within(History(after), DAY, false, p.perDay))
  {
    hide Admit, Within, Outrun, BytesForgotten, Paced;
    var l1 := Apply(p, Empty(), Attempt(a, size, 0.0, 0.0));
    var l2, l3 := Apply(p, Apply(p, l1, Delay(a, 200000.0)), Saving), PassedOver(p, a, size);
    var l4 := Apply(p, Apply(p, l3, Restarting), Attempt(c, size, 0.0, 0.0));
    FirstSent(p, Empty(), l1, a, size);
    ThenRefused(p, l1, l2, l3, a, size);
    ThenForgotten(p, l3, l4, c, size);
    var first, second := Charge(a, 0.0, size), Charge(c, 0.0, size);
    assert History(l4) == [first] + [second];
    TwoAtOnce(first, second, p.minInterval);
  }

  lemma FirstSent(p: Policy, l0: Ledger, l1: Ledger, a: Host, size: nat)
    requires ValidPolicy(p) && size <= p.dailyBody && l0.network == [] && l0.dropped == [] && l0.hosts == map[]
    requires l0.base == 0.0 && l0.elapsed == 0.0 && l0.time == 0.0 && l0.breaker == 0.0 && l0.prunedAt == 0.0
    requires l1 == Apply(p, l0, Attempt(a, size, 0.0, 0.0))
    ensures l1.network == [Charge(a, 0.0, size)] && l1.dropped == [] && l1.prunedAt == 0.0
    ensures l1.base == 0.0 && l1.elapsed == 0.0 && l1.time == 0.0 && l1.breaker == 0.0
    ensures forall h :: h in l1.hosts ==> h == a
  {
    hide Admit;
    GrantOnEmptyTable(p, l0, a, size);
  }

  lemma ThenRefused(p: Policy, l1: Ledger, l2: Ledger, l3: Ledger, a: Host, size: nat)
    requires ValidPolicy(p) && |l1.network| == 1 && l1.network[0].created == 0.0 && l1.dropped == []
    requires l1.base == 0.0 && l1.elapsed == 0.0 && l1.time == 0.0 && l1.breaker == 0.0
    requires forall h :: h in l1.hosts ==> h == a
    requires l2 == Apply(p, Apply(p, l1, Delay(a, 200000.0)), Saving)
    requires l3 == Apply(p, Apply(p, l2, Passing(86401.0)), Attempt(a, size, 0.0, 0.0))
    ensures l3.network == [] && l3.dropped == l1.network && l3.base == 0.0 && l3.time == 0.0 && l3.breaker == 0.0
    ensures l3.prunedAt == 86401.0
    ensures forall h :: h in l3.hosts ==> h == a
  {
    hide Admit;
    RefusalPrunes(p, Apply(p, l2, Passing(86401.0)), a, size);
    assert [] + l2.network == l2.network;
  }

  lemma ThenForgotten(p: Policy, l3: Ledger, l4: Ledger, c: Host, size: nat)
    requires ValidPolicy(p) && size <= p.dailyBody && l3.network == [] && l3.base == 0.0 && l3.time == 0.0 && l3.breaker == 0.0
    requires c !in l3.hosts && l4 == Apply(p, Apply(p, l3, Restarting), Attempt(c, size, 0.0, 0.0))
    ensures l4.network == [Charge(c, 0.0, size)] && l4.dropped == l3.dropped
  {
    hide Admit;
    GrantOnEmptyTable(p, Restart(l3), c, size);
  }

  lemma TwoAtOnce(a: Charge, b: Charge, interval: real)
    requires a.created == 0.0 == b.created && interval > 0.0
    ensures !Paced([a] + [b], interval) && !Within([a] + [b], DAY, false, 1)
  {
    assert ([a] + [b])[1] == b && ([a] + [b])[1 - 1] == a;
    LoadConcat([a], [b], 0.0 - DAY, 0.0, false);
    assert [a][..0] == [] && [b][..0] == [];
    assert WindowLoad([a] + [b], DAY, 0.0, false) == 2;
  }
}
