/**
 The network ledger of the web service (dmn/web.py:117-150, 205-239, 345-403): a clock that survives
 restarts, sliding request windows, pacing and a daily byte budget.
 */
module WebRates {
  import opened Wrappers

  type Host = nat

  datatype Policy = Policy(minInterval: real, perMinute: nat, perHour: nat, perDay: nat, maxBody: nat, dailyBody: nat)

  predicate ValidPolicy(p: Policy) {
    && 1.0 <= p.minInterval <= DAY
    && 1 <= p.perMinute <= 60 && 1 <= p.perHour <= 1000 && 1 <= p.perDay <= 10000
    && 1 <= p.maxBody <= p.dailyBody
  }

  const MINUTE := 60.0
  const HOUR := 3600.0
  const DAY := 86400.0

  /** One network request that was let through. */
  datatype Charge = Charge(host: Host, created: real, bytes: nat)

  /**
   `network` is the stored table; `dropped` records the rows pruned from it, oldest first, so that
   `dropped + network` is every request ever let through. `time` is the saved clock, `prunedAt` the
   clock of the last pruning that removed a row.
   */
  datatype Ledger = Ledger(
    base: real, elapsed: real, time: real, breaker: real,
    network: seq<Charge>, hosts: map<Host, real>, dropped: seq<Charge>, prunedAt: real)

  function History(l: Ledger): seq<Charge> {
    l.dropped + l.network
  }

  function MaxReal(a: real, b: real): real {
    if a >= b then a else b
  }

  /** Saved time plus what has passed in this process: downtime is not credited. */
  function Clock(l: Ledger): real {
    l.base + l.elapsed
  }

  function Save(l: Ledger): Ledger {
    l.(time := MaxReal(l.time, Clock(l)))
  }

  function Tick(l: Ledger, passed: real): Ledger {
    l.(elapsed := l.elapsed + MaxReal(passed, 0.0))
  }

  /** A new process starts from the saved clock. */
  function Restart(l: Ledger): Ledger {
    l.(base := l.time, elapsed := 0.0)
  }

  function Newer(rows: seq<Charge>, limit: real): seq<Charge> {
    if rows == [] then []
    else
      var last := |rows| - 1;
      if rows[last].created > limit then Newer(rows[..last], limit) + [rows[last]] else Newer(rows[..last], limit)
  }

  function Older(rows: seq<Charge>, limit: real): seq<Charge> {
    if rows == [] then []
    else
      var last := |rows| - 1;
      if rows[last].created > limit then Older(rows[..last], limit) else Older(rows[..last], limit) + [rows[last]]
  }

  function Prune(l: Ledger): Ledger {
    var now := Clock(l);
    var older := Older(l.network, now - DAY);
    l.(network := Newer(l.network, now - DAY), dropped := l.dropped + older,
       prunedAt := if older == [] then l.prunedAt else now,
       hosts := map h | h in l.hosts && l.hosts[h] >= now :: l.hosts[h])
  }

  /** The time at which a window of `maximum` requests frees a place, or `due` if that is later. */
  function WindowDue(rows: seq<Charge>, now: real, window: real, maximum: nat, due: real): real
    requires maximum >= 1
  {
    var recent := Newer(rows, now - window);
    if |recent| >= maximum then MaxReal(due, recent[|recent| - maximum].created + window) else due
  }

  function BaseDue(p: Policy, l: Ledger, host: Host): real {
    var due := if l.network == [] then l.breaker
               else MaxReal(l.breaker, l.network[|l.network| - 1].created + p.minInterval);
    if host in l.hosts then MaxReal(due, l.hosts[host]) else due
  }

  /** When the next request to `host` is due, on an already pruned ledger. */
  function Due(p: Policy, l: Ledger, host: Host): real
    requires ValidPolicy(p)
  {
    var now := Clock(l);
    WindowDue(l.network, now, DAY, p.perDay,
      WindowDue(l.network, now, HOUR, p.perHour,
        WindowDue(l.network, now, MINUTE, p.perMinute, BaseDue(p, l, host))))
  }

  function Charged(rows: seq<Charge>): nat {
    if rows == [] then 0 else Charged(rows[..|rows| - 1]) + rows[|rows| - 1].bytes
  }

  datatype Verdict = Waiting | OverBudget | Granted

  /**
   One attempt to send to `host`: prune, wait, check the byte budget, reserve. Only a refusal for
   the byte budget and a reservation save the clock. `lapse` passes before the reservation's stamp.
   */
  function Admit(p: Policy, l: Ledger, host: Host, size: nat, delay: real, lapse: real): (Ledger, Verdict)
    requires ValidPolicy(p)
  {
    var pruned := Prune(l);
    if Due(p, pruned, host) > Clock(pruned) then (pruned, Waiting)
    else if Charged(pruned.network) + size > p.dailyBody then (Save(Tick(pruned, lapse)), OverBudget)
    else (Reserve(p, Tick(pruned, lapse), host, size, delay), Granted)
  }

  function Reserve(p: Policy, l: Ledger, host: Host, size: nat, delay: real): Ledger {
    var stamp := Clock(l);
    Save(l.(network := l.network + [Charge(host, stamp, size)],
            hosts := l.hosts[host := stamp + MaxReal(p.minInterval, delay)]))
  }

  /** The bytes really used replace the reservation, unless the row was pruned meanwhile. */
  function Settle(l: Ledger, id: nat, used: nat): Ledger {
    var k := id - |l.dropped|;
    if 0 <= k < |l.network| then
      l.(network := l.network[k := l.network[k].(bytes := if used <= l.network[k].bytes then used else l.network[k].bytes)])
    else l
  }

  /*------------------------------------------------------------------ what the limits mean */

  /** Requests, or bytes, charged in the half-open window after `from` up to `to`. */
  function Load(h: seq<Charge>, from: real, to: real, bytes: bool): nat {
    if h == [] then 0
    else
      var last := h[|h| - 1];
      Load(h[..|h| - 1], from, to, bytes)
      + if from < last.created <= to then (if bytes then last.bytes else 1) else 0
  }

  function WindowLoad(h: seq<Charge>, window: real, end: real, bytes: bool): nat {
    Load(h, end - window, end, bytes)
  }

  /** No window of this length, wherever it ends, carries more than `maximum`. */
  ghost predicate Within(h: seq<Charge>, window: real, bytes: bool, maximum: nat) {
    forall t: real :: WindowLoad(h, window, t, bytes) <= maximum
  }

  ghost predicate Sorted(h: seq<Charge>) {
    forall i, j :: 0 <= i < j < |h| ==> h[i].created <= h[j].created
  }

  ghost predicate Paced(h: seq<Charge>, interval: real) {
    forall i :: 0 < i < |h| ==> h[i - 1].created + interval <= h[i].created
  }

  ghost predicate Limited(p: Policy, h: seq<Charge>) {
    && Within(h, MINUTE, false, p.perMinute) && Within(h, HOUR, false, p.perHour)
    && Within(h, DAY, false, p.perDay) && Within(h, DAY, true, p.dailyBody)
    && Paced(h, p.minInterval)
  }

  ghost predicate Before(rows: seq<Charge>, limit: real) {
    forall i :: 0 <= i < |rows| ==> rows[i].created <= limit
  }

  /** Every row that can still matter is in the table. */
  ghost predicate TableComplete(l: Ledger) {
    Before(l.dropped, Clock(l) - DAY)
  }

  ghost predicate Sound(p: Policy, l: Ledger) {
    && 0.0 <= l.elapsed && l.base <= l.time <= Clock(l)
    && Sorted(History(l)) && Before(History(l), l.time)
    && TableComplete(l) && Before(l.dropped, l.prunedAt - DAY)
    && Limited(p, History(l))
  }

  /*------------------------------------------------------------------ loads */

  lemma {:induction false} LoadConcat(a: seq<Charge>, b: seq<Charge>, from: real, to: real, bytes: bool)
    ensures Load(a + b, from, to, bytes) == Load(a, from, to, bytes) + Load(b, from, to, bytes)
    decreases |b|
  {
    if b == [] {
      assert a + b == a;
    } else {
      var last := |b| - 1;
      LoadConcat(a, b[..last], from, to, bytes);
      assert (a + b)[..|a + b| - 1] == a + b[..last];
    }
  }

  lemma {:induction false} LoadNothing(h: seq<Charge>, from: real, to: real, bytes: bool)
    requires Before(h, from)
    ensures Load(h, from, to, bytes) == 0
  {
    if h != [] { LoadNothing(h[..|h| - 1], from, to, bytes); }
  }

  lemma {:induction false} LoadShrinks(h: seq<Charge>, from: real, later: real, to: real, end: real, bytes: bool)
    requires from <= later && Before(h, to)
    ensures Load(h, later, end, bytes) <= Load(h, from, to, bytes)
  {
    if h != [] { LoadShrinks(h[..|h| - 1], from, later, to, end, bytes); }
  }

  /** The rows of the open-ended window, counted and summed. */
  lemma {:induction false} LoadOfNewer(h: seq<Charge>, from: real, to: real)
    requires Before(h, to)
    ensures |Newer(h, from)| == Load(h, from, to, false)
    ensures Charged(Newer(h, from)) == Load(h, from, to, true)
  {
    if h != [] {
      LoadOfNewer(h[..|h| - 1], from, to);
      if h[|h| - 1].created > from {
        assert Newer(h, from)[..|Newer(h, from)| - 1] == Newer(h[..|h| - 1], from);
      }
    }
  }

  lemma {:induction false} NewerAre(h: seq<Charge>, from: real)
    ensures forall i :: 0 <= i < |Newer(h, from)| ==> Newer(h, from)[i].created > from
  {
    if h != [] { NewerAre(h[..|h| - 1], from); }
  }

  lemma {:induction false} NoneNewer(h: seq<Charge>, limit: real)
    requires Before(h, limit)
    ensures Newer(h, limit) == []
  {
    if h != [] { NoneNewer(h[..|h| - 1], limit); }
  }

  /** On a sorted table pruning removes exactly a prefix. */
  lemma {:induction false} PruneSplits(rows: seq<Charge>, limit: real)
    requires Sorted(rows)
    ensures rows == Older(rows, limit) + Newer(rows, limit)
    ensures Before(Older(rows, limit), limit)
  {
    if rows != [] {
      var last := |rows| - 1;
      PruneSplits(rows[..last], limit);
      if rows[last].created <= limit {
        assert forall i :: 0 <= i < last ==> rows[i].created <= rows[last].created;
        NoneNewer(rows[..last], limit);
      }
    }
  }

  lemma NetworkSorted(l: Ledger)
    requires Sorted(History(l))
    ensures Sorted(l.network)
  {
    forall i, j | 0 <= i < j < |l.network| ensures l.network[i].created <= l.network[j].created {
      assert History(l)[|l.dropped| + i] == l.network[i] && History(l)[|l.dropped| + j] == l.network[j];
    }
  }

  lemma BeforeConcat(a: seq<Charge>, b: seq<Charge>, limit: real)
    ensures Before(a + b, limit) <==> (Before(a, limit) && Before(b, limit))
  {
    if Before(a + b, limit) {
      forall i | 0 <= i < |a| ensures a[i].created <= limit { assert (a + b)[i] == a[i]; }
      forall i | 0 <= i < |b| ensures b[i].created <= limit { assert (a + b)[|a| + i] == b[i]; }
    }
  }

  lemma EarlierBefore(a: seq<Charge>, limit: real, later: real)
    requires Before(a, limit) && limit <= later
    ensures Before(a, later)
  {
  }

  lemma PruneHistory(l: Ledger)
    requires Sorted(History(l))
    ensures History(Prune(l)) == History(l)
  {
    var limit := Clock(l) - DAY;
    NetworkSorted(l);
    PruneSplits(l.network, limit);
    hide Sorted, Before, Newer, Older;
    ConcatAssoc(l.dropped, Older(l.network, limit), Newer(l.network, limit));
  }

  lemma PruneTable(l: Ledger)
    requires Sorted(History(l)) && TableComplete(l) && Before(l.dropped, l.prunedAt - DAY)
    ensures TableComplete(Prune(l)) && Before(Prune(l).dropped, Prune(l).prunedAt - DAY)
  {
    var limit := Clock(l) - DAY;
    NetworkSorted(l);
    PruneSplits(l.network, limit);
    hide Sorted, Before, Newer, Older;
    BeforeConcat(l.dropped, Older(l.network, limit), limit);
    assert Older(l.network, limit) == [] ==> l.dropped + Older(l.network, limit) == l.dropped;
  }

  lemma PruneKeeps(p: Policy, l: Ledger)
    requires Sound(p, l)
    ensures History(Prune(l)) == History(l) && Sound(p, Prune(l))
  {
    hide Sorted, Before, Newer, Older, Limited, History, TableComplete;
    PruneHistory(l);
    PruneTable(l);
  }

  /*------------------------------------------------------------------ granting */

  /** When nothing is due later than now, the table has room in each window. */
  lemma RoomInWindow(p: Policy, l: Ledger, host: Host, window: real, maximum: nat)
    requires ValidPolicy(p) && Due(p, l, host) <= Clock(l) && Limits(p, window, maximum)
    ensures |Newer(l.network, Clock(l) - window)| < maximum
  {
    NewerAre(l.network, Clock(l) - window);
  }

  predicate Limits(p: Policy, window: real, maximum: nat) {
    || (window == MINUTE && maximum == p.perMinute)
    || (window == HOUR && maximum == p.perHour)
    || (window == DAY && maximum == p.perDay)
  }

  /** On a complete table the table's windows are the windows of the whole history. */
  lemma TableLoad(l: Ledger, from: real)
    requires TableComplete(l) && Before(History(l), Clock(l)) && Clock(l) - DAY <= from
    ensures Load(History(l), from, Clock(l), false) == |Newer(l.network, from)|
    ensures Load(History(l), from, Clock(l), true) == Charged(Newer(l.network, from))
  {
    var now := Clock(l);
    NetworkBefore(l, now);
    LoadNothing(l.dropped, from, now, false);
    LoadNothing(l.dropped, from, now, true);
    LoadConcat(l.dropped, l.network, from, now, false);
    LoadConcat(l.dropped, l.network, from, now, true);
    LoadOfNewer(l.network, from, now);
  }

  lemma NetworkBefore(l: Ledger, limit: real)
    requires Before(History(l), limit)
    ensures Before(l.network, limit)
  {
    forall i | 0 <= i < |l.network| ensures l.network[i].created <= limit {
      assert History(l)[|l.dropped| + i] == l.network[i];
    }
  }

  lemma GrantHasRoom(p: Policy, l: Ledger, host: Host, stamp: real, window: real, maximum: nat)
    requires ValidPolicy(p) && TableComplete(l) && Before(History(l), Clock(l))
    requires Due(p, l, host) <= Clock(l) <= stamp && Limits(p, window, maximum)
    ensures Load(History(l), stamp - window, stamp, false) < maximum
  {
    hide Due, Load, Newer;
    RoomInWindow(p, l, host, window, maximum);
    TableLoad(l, Clock(l) - window);
    LoadShrinks(History(l), Clock(l) - window, stamp - window, Clock(l), stamp, false);
  }

  lemma GrantHasBudget(l: Ledger, stamp: real)
    requires TableComplete(l) && Before(History(l), Clock(l)) && Clock(l) <= stamp
    ensures Load(History(l), stamp - DAY, stamp, true) <= Charged(l.network)
  {
    TableLoad(l, Clock(l) - DAY);
    NewerCharged(l.network, Clock(l) - DAY);
    LoadShrinks(History(l), Clock(l) - DAY, stamp - DAY, Clock(l), stamp, true);
  }

  lemma {:induction false} NewerCharged(h: seq<Charge>, limit: real)
    ensures Charged(Newer(h, limit)) <= Charged(h)
  {
    if h != [] {
      NewerCharged(h[..|h| - 1], limit);
      if h[|h| - 1].created > limit {
        assert Newer(h, limit)[..|Newer(h, limit)| - 1] == Newer(h[..|h| - 1], limit);
      }
    }
  }

  /** A request that finds room keeps every window within the limit, past and future. */
  lemma AppendWithin(h: seq<Charge>, c: Charge, window: real, bytes: bool, maximum: nat)
    requires window > 0.0 && Within(h, window, bytes, maximum) && Before(h, c.created)
    requires Load(h, c.created - window, c.created, bytes) + (if bytes then c.bytes else 1) <= maximum
    ensures Within(h + [c], window, bytes, maximum)
  {
    var longer := h + [c];
    assert longer[..|h|] == h;
    forall t: real ensures WindowLoad(longer, window, t, bytes) <= maximum {
      if t >= c.created {
        LoadShrinks(h, c.created - window, t - window, c.created, t, bytes);
      } else {
        assert WindowLoad(h, window, t, bytes) <= maximum;
      }
    }
  }

  lemma ReservationIsPaced(p: Policy, l: Ledger, host: Host, c: Charge)
    requires ValidPolicy(p) && Paced(History(l), p.minInterval) && TableComplete(l)
    requires Due(p, l, host) <= Clock(l) <= c.created
    ensures Paced(History(l) + [c], p.minInterval)
  {
    var h := History(l) + [c];
    forall i | 0 < i < |h| ensures h[i - 1].created + p.minInterval <= h[i].created {
      if i < |History(l)| {
        assert h[i - 1] == History(l)[i - 1] && h[i] == History(l)[i];
      } else if l.network == [] {
        assert h[i - 1] == l.dropped[i - 1];
      } else {
        assert h[i - 1] == l.network[|l.network| - 1];
        DueAfterLatest(p, l, host);
      }
    }
  }

  lemma DueAfterLatest(p: Policy, l: Ledger, host: Host)
    requires ValidPolicy(p) && l.network != []
    ensures l.network[|l.network| - 1].created + p.minInterval <= Due(p, l, host)
  {
  }

  lemma ReserveIsLimited(p: Policy, l: Ledger, host: Host, c: Charge)
    requires ValidPolicy(p) && TableComplete(l) && Before(History(l), Clock(l)) && Limited(p, History(l))
    requires Due(p, l, host) <= Clock(l) <= c.created && Charged(l.network) + c.bytes <= p.dailyBody
    ensures Limited(p, History(l) + [c])
  {
    hide Due, Load, Newer, Charged, Within, Paced, TableComplete, Before, History;
    var h, stamp := History(l), c.created;
    GrantHasRoom(p, l, host, stamp, MINUTE, p.perMinute);
    GrantHasRoom(p, l, host, stamp, HOUR, p.perHour);
    GrantHasRoom(p, l, host, stamp, DAY, p.perDay);
    GrantHasBudget(l, stamp);
    EarlierBefore(h, Clock(l), stamp);
    AppendWithin(h, c, MINUTE, false, p.perMinute);
    AppendWithin(h, c, HOUR, false, p.perHour);
    AppendWithin(h, c, DAY, false, p.perDay);
    AppendWithin(h, c, DAY, true, p.dailyBody);
    ReservationIsPaced(p, l, host, c);
  }

  lemma ReserveKeeps(p: Policy, l: Ledger, host: Host, size: nat, delay: real, lapse: real)
    requires ValidPolicy(p) && Sound(p, l) && Due(p, l, host) <= Clock(l)
    requires Charged(l.network) + size <= p.dailyBody
    ensures Sound(p, Reserve(p, Tick(l, lapse), host, size, delay))
  {
    hide Due, Load, Newer, Charged, Limited;
    var ticked, h := Tick(l, lapse), History(l);
    var c := Charge(host, Clock(ticked), size);
    assert History(Reserve(p, ticked, host, size, delay)) == h + [c];
    assert Before(h, Clock(l));
    ReserveIsLimited(p, l, host, c);
  }

  /** One attempt keeps every limit, whatever it answers. */
  lemma AdmitKeeps(p: Policy, l: Ledger, host: Host, size: nat, delay: real, lapse: real)
    requires ValidPolicy(p) && Sound(p, l)
    ensures Sound(p, Admit(p, l, host, size, delay, lapse).0)
  {
    hide Due, Load, Newer, Charged, Limited, Sorted;
    PruneKeeps(p, l);
    var pruned := Prune(l);
    if Due(p, pruned, host) <= Clock(pruned) && Charged(pruned.network) + size <= p.dailyBody {
      ReserveKeeps(p, pruned, host, size, delay, lapse);
    }
  }

  /*------------------------------------------------------------------ settling and restarting */

  lemma {:induction false} SmallerBytes(h: seq<Charge>, k: nat, c: Charge, from: real, to: real, bytes: bool)
    requires k < |h| && c.created == h[k].created && c.bytes <= h[k].bytes
    ensures Load(h[k := c], from, to, bytes) <= Load(h, from, to, bytes)
  {
    var last := |h| - 1;
    if k < last {
      SmallerBytes(h[..last], k, c, from, to, bytes);
      assert h[k := c][..last] == h[..last][k := c];
    } else {
      assert h[k := c][..last] == h[..last];
    }
  }

  lemma SmallerWithin(h: seq<Charge>, k: nat, c: Charge, window: real, bytes: bool, maximum: nat)
    requires Within(h, window, bytes, maximum)
    requires k < |h| && c.created == h[k].created && c.bytes <= h[k].bytes
    ensures Within(h[k := c], window, bytes, maximum)
  {
    var settled := h[k := c];
    forall t: real ensures WindowLoad(settled, window, t, bytes) <= maximum {
      SmallerBytes(h, k, c, t - window, t, bytes);
      assert WindowLoad(h, window, t, bytes) <= maximum;
    }
  }

  lemma SettleKeeps(p: Policy, l: Ledger, id: nat, used: nat)
    requires Sound(p, l)
    ensures Sound(p, Settle(l, id, used))
  {
    var k := id - |l.dropped|;
    if 0 <= k < |l.network| {
      var h, c := History(l), Settle(l, id, used).network[k];
      assert h[id] == l.network[k];
      assert History(Settle(l, id, used)) == h[id := c];
      hide Load;
      SmallerWithin(h, id, c, MINUTE, false, p.perMinute);
      SmallerWithin(h, id, c, HOUR, false, p.perHour);
      SmallerWithin(h, id, c, DAY, false, p.perDay);
      SmallerWithin(h, id, c, DAY, true, p.dailyBody);
    }
  }

  /** The request's row, while it is in the table, gets the smaller of the two sizes, and nothing else changes. */
  lemma SettleBooks(l: Ledger, id: nat, used: nat)
    ensures var h, t := History(l), Settle(l, id, used);
      && t == l.(network := t.network) && |History(t)| == |h|
      && (|l.dropped| <= id < |h| ==> History(t) == h[id := h[id].(bytes := Min(used, h[id].bytes))])
      && (id < |l.dropped| || id >= |h| ==> History(t) == h)
  {
    var k := id - |l.dropped|;
    if 0 <= k < |l.network| {
      assert History(l)[id] == l.network[k];
      assert History(Settle(l, id, used)) == History(l)[id := Settle(l, id, used).network[k]];
    }
  }

  /** The saved clock has caught up with the last pruning that removed a row. */
  predicate SavedAfterPruning(l: Ledger) {
    l.prunedAt <= l.time
  }

  /** A restart with the last pruning saved finds every row that can still matter. */
  lemma RestartKeeps(p: Policy, l: Ledger)
    requires Sound(p, l) && SavedAfterPruning(l)
    ensures Sound(p, Restart(l))
  {
    hide Limited, Sorted;
    assert History(Restart(l)) == History(l);
  }

  /*------------------------------------------------------------------ every run */

  /** What can happen to the ledger; `Delay` covers Retry-After and error pauses, `Breaker` the repeat breaker. */
  datatype Op =
    | Passing(passed: real)
    | Saving
    | Pruning
    | Attempt(host: Host, size: nat, delay: real, lapse: real)
    | Settling(id: nat, used: nat)
    | Delay(host: Host, until: real)
    | Breaker(until: real)
    | Restarting

  function Apply(p: Policy, l: Ledger, op: Op): Ledger
    requires ValidPolicy(p)
  {
    match op
    case Passing(passed) => Tick(l, passed)
    case Saving => Save(l)
    case Pruning => Prune(l)
    case Attempt(host, size, delay, lapse) => Admit(p, l, host, size, delay, lapse).0
    case Settling(id, used) => Settle(l, id, used)
    case Delay(host, until) =>
      l.(hosts := l.hosts[host := if host in l.hosts then MaxReal(l.hosts[host], until) else until])
    case Breaker(until) => l.(breaker := MaxReal(l.breaker, until))
    case Restarting => Restart(l)
  }

  function Run(p: Policy, l: Ledger, ops: seq<Op>): Ledger
    requires ValidPolicy(p)
  {
    if ops == [] then l else Apply(p, Run(p, l, ops[..|ops| - 1]), ops[|ops| - 1])
  }

  /** No restart of the run happens between a pruning that removed a row and the next saving of the clock. */
  predicate SavedRestarts(p: Policy, l: Ledger, ops: seq<Op>)
    requires ValidPolicy(p)
  {
    ops == [] || (
      && SavedRestarts(p, l, ops[..|ops| - 1])
      && (ops[|ops| - 1].Restarting? ==> SavedAfterPruning(Run(p, l, ops[..|ops| - 1]))))
  }

  function Empty(): Ledger {
    Ledger(0.0, 0.0, 0.0, 0.0, [], map[], [], 0.0)
  }

  lemma ApplyKeeps(p: Policy, l: Ledger, op: Op)
    requires ValidPolicy(p) && Sound(p, l) && (op.Restarting? ==> SavedAfterPruning(l))
    ensures Sound(p, Apply(p, l, op))
  {
    hide Load, Due, Prune, Limited, Sorted, Admit;
    match op
    case Pruning => PruneKeeps(p, l);
    case Attempt(host, size, delay, lapse) => AdmitKeeps(p, l, host, size, delay, lapse);
    case Settling(id, used) => SettleKeeps(p, l, id, used);
    case Restarting => RestartKeeps(p, l);
    case _ =>
  }

  lemma EmptyWithin(h: seq<Charge>, window: real, bytes: bool, maximum: nat)
    requires h == []
    ensures Within(h, window, bytes, maximum)
  {
  }

  lemma EmptyIsSound(p: Policy)
    requires ValidPolicy(p)
    ensures Sound(p, Empty())
  {
    var h := History(Empty());
    EmptyWithin(h, MINUTE, false, p.perMinute);
    EmptyWithin(h, HOUR, false, p.perHour);
    EmptyWithin(h, DAY, false, p.perDay);
    EmptyWithin(h, DAY, true, p.dailyBody);
    hide Within;
  }

  /**
   Over every run whose restarts find the pruning saved: no 60 s, 3600 s or 86400 s window of ledger
   time carries more requests than allowed or a day's bytes beyond the budget, and consecutive
   requests keep the interval.
   */
  lemma {:induction false} EveryRunIsLimited(p: Policy, ops: seq<Op>)
    requires ValidPolicy(p) && SavedRestarts(p, Empty(), ops)
    ensures Sound(p, Run(p, Empty(), ops))
  {
    if ops == [] {
      EmptyIsSound(p);
    } else {
      EveryRunIsLimited(p, ops[..|ops| - 1]);
      ApplyKeeps(p, Run(p, Empty(), ops[..|ops| - 1]), ops[|ops| - 1]);
    }
  }
}
