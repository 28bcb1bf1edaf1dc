/** The web worker over its two ledgers (dmn/web.py:137-150, 193-239, 345-454). */
module WebService {
  import opened Wrappers
  import WebRates
  import opened WebRequests

  type Host = WebRates.Host
  type Body = nat

  const BACKLOG := 16
  const ROBOTS_SIZE := 65536

  /** One licensed transport call: the request, what to fetch, the reserved row and its size. */
  datatype Claimed = Claimed(id: Id, stage: Stage, reservation: nat, size: nat)

  lemma FinishSound(t: Tables, id: Id, status: Status, now: real, cacheBytes: nat)
    requires Sound(Service(t, None), cacheBytes) && Terminal(status)
    ensures Sound(Service(Finish(t, id, status, now), None), cacheBytes)
  {
    hide Good;
    FinishKeeps(t, id, status, now, cacheBytes);
  }

  lemma ActiveIsKnown(s: Service, cacheBytes: nat)
    requires Sound(s, cacheBytes) && s.active.Some?
    ensures s.active.value.0 in s.tables.requests
  {
  }

  /*------------------------------------------------------------------ what the rates say of a request */

  /** Two ledgers that let the same requests through: they differ in saved clocks and already pruned rows. */
  ghost predicate SameRates(a: WebRates.Ledger, b: WebRates.Ledger) {
    && WebRates.Clock(a) == WebRates.Clock(b) && a.breaker == b.breaker
    && WebRates.Prune(a).network == WebRates.Prune(b).network && WebRates.Prune(a).hosts == WebRates.Prune(b).hosts
  }

  lemma SameRatesSelf(l: WebRates.Ledger)
    ensures SameRates(l, l)
  {
  }

  lemma SameRatesTwice(a: WebRates.Ledger, b: WebRates.Ledger, c: WebRates.Ledger)
    requires SameRates(a, b) && SameRates(b, c)
    ensures SameRates(a, c)
  {
  }

  lemma SaveKeepsRates(l: WebRates.Ledger)
    ensures SameRates(l, WebRates.Save(l))
  {
  }

  lemma {:induction false} NewerTwice(rows: seq<WebRates.Charge>, limit: real)
    ensures WebRates.Newer(WebRates.Newer(rows, limit), limit) == WebRates.Newer(rows, limit)
  {
    if rows != [] {
      var front, last := rows[..|rows| - 1], rows[|rows| - 1];
      NewerTwice(front, limit);
      if last.created > limit {
        var newer := WebRates.Newer(front, limit);
        assert (newer + [last])[..|newer + [last]| - 1] == newer;
      }
    }
  }

  lemma PruneKeepsRates(l: WebRates.Ledger)
    ensures SameRates(l, WebRates.Prune(l))
  {
    NewerTwice(l.network, WebRates.Clock(l) - WebRates.DAY);
    hide WebRates.Newer, WebRates.Older;
    assert WebRates.Prune(WebRates.Prune(l)).hosts == WebRates.Prune(l).hosts;
  }

  lemma PruneTwice(l: WebRates.Ledger)
    ensures WebRates.Prune(WebRates.Prune(l)).network == WebRates.Prune(l).network
  {
    PruneKeepsRates(l);
  }

  /** Everything that paces requests to this host lets one through now. */
  ghost predicate DueNow(p: WebRates.Policy, l: WebRates.Ledger, host: Host)
    requires WebRates.ValidPolicy(p)
  {
    WebRates.Due(p, WebRates.Prune(l), host) <= WebRates.Clock(l)
  }

  /** The delay that robots.txt asks for has passed since every request to the host that the table knows. */
  ghost predicate CrawlPassed(l: WebRates.Ledger, host: Host, asked: real) {
    var rows := WebRates.Prune(l).network;
    forall i :: 0 <= i < |rows| && rows[i].host == host ==> rows[i].created + asked <= WebRates.Clock(l)
  }

  ghost predicate Affordable(p: WebRates.Policy, l: WebRates.Ledger, size: nat) {
    WebRates.Charged(WebRates.Prune(l).network) + size <= p.dailyBody
  }

  lemma SameAnswers(p: WebRates.Policy, a: WebRates.Ledger, b: WebRates.Ledger, host: Host, asked: real, size: nat)
    requires WebRates.ValidPolicy(p) && SameRates(a, b)
    ensures DueNow(p, a, host) == DueNow(p, b, host) && CrawlPassed(a, host, asked) == CrawlPassed(b, host, asked)
    ensures Affordable(p, a, size) == Affordable(p, b, size)
  {
    hide WebRates.Prune, WebRates.WindowDue;
    PruneKeepsClock(a);
    PruneKeepsClock(b);
  }

  lemma PruneKeepsClock(l: WebRates.Ledger)
    ensures WebRates.Clock(WebRates.Prune(l)) == WebRates.Clock(l) && WebRates.Prune(l).breaker == l.breaker
  {
  }

  lemma {:induction false} LatestIsLatest(rows: seq<WebRates.Charge>, host: Host, limit: real)
    ensures (Latest(rows, host).Some? ==> Latest(rows, host).value <= limit)
       <==> forall i :: 0 <= i < |rows| && rows[i].host == host ==> rows[i].created <= limit
  {
    if rows != [] {
      var last := |rows| - 1;
      LatestIsLatest(rows[..last], host, limit);
      assert forall i :: 0 <= i < last ==> rows[..last][i] == rows[i];
    }
  }

  /*------------------------------------------------------------------ rows that end in one pass */

  /** Distinct rows, all with this status. */
  ghost predicate Listed(ids: seq<Id>, t: Tables, status: Status) {
    && (forall a, b :: 0 <= a < b < |ids| ==> ids[a] != ids[b])
    && forall j :: 0 <= j < |ids| ==> ids[j] in t.requests && t.requests[ids[j]].status == status
  }

  function Members(ids: seq<Id>): set<Id> {
    set id | id in ids
  }

  function WithRow(t: Tables, id: Id, row: Request): Tables {
    t.(requests := t.requests[id := row])
  }

  /** The rows in `cancelled` and `failed` have ended so; every other row is as it was. */
  ghost predicate Ended(before: Tables, after: Tables, cancelled: set<Id>, failed: set<Id>) {
    && after.requests.Keys == before.requests.Keys
    && forall k :: k in before.requests ==>
         if k in failed then after.requests[k].status == Failed
         else if k in cancelled then after.requests[k].status == Cancelled else after.requests[k] == before.requests[k]
  }

  lemma NoneEnded(t: Tables, ids: seq<Id>)
    ensures Ended(t, t, Members(ids[..0]), {})
  {
  }

  lemma NoneListed(ids: seq<Id>)
    ensures {} <= Members(ids[..0])
  {
  }

  /** The next listed row is new, known and not among those before it. */
  lemma MoreListed(ids: seq<Id>, i: nat, t: Tables)
    requires i < |ids| && (exists status :: Listed(ids, t, status))
    ensures Members(ids[..i + 1]) == Members(ids[..i]) + {ids[i]} && ids[i] !in Members(ids[..i]) && ids[i] in t.requests
  {
    assert ids[..i + 1] == ids[..i] + [ids[i]];
    assert forall j :: 0 <= j < i ==> ids[..i][j] == ids[j];
  }

  lemma QueueIsApart(cancelling: seq<Id>, queue: seq<Id>, t: Tables)
    requires Listed(queue, t, Queued) && Listed(cancelling, t, Cancelling)
    ensures forall j :: 0 <= j < |queue| ==> queue[j] !in Members(cancelling)
    ensures Members(queue) <= t.requests.Keys
  {
  }

  lemma EndedRow(before: Tables, t: Tables, cancelled: set<Id>, failed: set<Id>, id: Id)
    requires Ended(before, t, cancelled, failed) && id in before.requests && id !in cancelled && id !in failed
    ensures id in t.requests && t.requests[id] == before.requests[id]
  {
  }

  lemma EndedMore(before: Tables, t: Tables, cancelled: set<Id>, failed: set<Id>, id: Id, now: real)
    requires Ended(before, t, cancelled, failed) && id in t.requests && !Terminal(t.requests[id].status)
    ensures Ended(before, Finish(t, id, Failed, now), cancelled, failed + {id})
  {
  }

  lemma CancelledMore(before: Tables, t: Tables, cancelled: set<Id>, id: Id, now: real)
    requires Ended(before, t, cancelled, {}) && id in t.requests && !Terminal(t.requests[id].status)
    ensures Ended(before, Finish(t, id, Cancelled, now), cancelled + {id}, {})
    ensures |Finish(t, id, Cancelled, now).results| == |t.results| + 1 && Finish(t, id, Cancelled, now).sent == t.sent
  {
  }

  lemma RowBack(before: Tables, t: Tables, cancelled: set<Id>, failed: set<Id>, id: Id, stage: Stage)
    requires Ended(before, t, cancelled, failed) && id in before.requests && id !in cancelled && id !in failed
    ensures id in t.requests && Ended(before, WithRow(WebRequests.Claim(t, id, stage), id, before.requests[id]), cancelled, failed)
  {
  }

  /** Evicts oldest documents until one of this length fits. */
  method Evict(tables: Tables, length: nat, cacheBytes: nat) returns (t: Tables)
    requires length <= cacheBytes
    ensures t == MakeRoom(tables, length, cacheBytes)
  {
    t := tables;
    while Total(t.documents) + length > cacheBytes || |t.documents| >= MAX_DOCUMENTS
      invariant MakeRoom(t, length, cacheBytes) == MakeRoom(tables, length, cacheBytes)
      decreases |t.documents|
    {
      t := EvictOldest(t);
    }
  }

  /** The request's next state after the transport's answer. */
  method Answer(tables: Tables, id: Id, stage: Stage, outcome: Outcome, cacheBytes: nat, now: real) returns (t: Tables)
    requires id in tables.requests
    ensures t == Settle(tables, id, stage, outcome, cacheBytes, now)
  {
    if outcome.Uncertain? {
      t := Finish(tables, id, OutcomeUnknown, now);
    } else if outcome.CancelRequested? || tables.requests[id].status == Cancelling {
      t := Finish(tables, id, Cancelled, now);
    } else if stage == Robots {
      t := if outcome.RobotsFound? then Requeue(tables, id) else Finish(tables, id, Failed, now);
    } else if !outcome.PageFound? || outcome.length > cacheBytes {
      t := Finish(tables, id, Failed, now);
    } else {
      t := Evict(tables, outcome.length, cacheBytes);
      t := Keep(t, id, outcome.length, outcome.links, now);
    }
  }

  class WebService {
    const policy: WebRates.Policy
    const cacheBytes: nat
    const hostOf: Url -> Host
    /** What a host's robots.txt says of a URL: allowed or not, and the delay it asks for. */
    const decide: (Body, Url) -> (bool, real)

    var ledger: WebRates.Ledger
    var tables: Tables
    var active: Option<(Id, Stage)>
    var robots: map<Host, Body>

    ghost predicate Valid()
      reads this
    {
      && WebRates.ValidPolicy(policy)
      && WebRates.Sound(policy, ledger)
      && Sound(Service(tables, active), cacheBytes)
    }

    /** What is fetched next for a host: its robots.txt until that is known. */
    function StageFor(host: Host): Stage
      reads this`robots
    {
      if host in robots then Page else Robots
    }

    function SizeFor(stage: Stage): nat
      requires WebRates.ValidPolicy(policy)
    {
      if stage == Page then policy.maxBody else Min(ROBOTS_SIZE, policy.maxBody)
    }

    /** Known robots.txt allows the URL. */
    predicate Allowed(url: Url)
      reads this`robots
    {
      hostOf(url) in robots ==> decide(robots[hostOf(url)], url).0
    }

    ghost predicate CrawlDelayPassed(l: WebRates.Ledger, url: Url)
      reads this`robots
    {
      hostOf(url) in robots ==> CrawlPassed(l, hostOf(url), decide(robots[hostOf(url)], url).1)
    }

    /** The row is sent: accepted, due, allowed, its crawl delay passed and its bytes within the budget. */
    ghost predicate Sendable(l: WebRates.Ledger, url: Url, accepted: bool)
      requires WebRates.ValidPolicy(policy)
      reads this`robots
    {
      accepted && DueNow(policy, l, hostOf(url)) && Allowed(url) && CrawlDelayPassed(l, url)
      && Affordable(policy, l, SizeFor(StageFor(hostOf(url))))
    }

    /** The row ends: refused by policy, or once due by robots.txt or by the budget. */
    ghost predicate Refused(l: WebRates.Ledger, url: Url, accepted: bool)
      requires WebRates.ValidPolicy(policy)
      reads this`robots
    {
      !accepted || (DueNow(policy, l, hostOf(url))
        && (!Allowed(url) || (CrawlDelayPassed(l, url) && !Affordable(policy, l, SizeFor(StageFor(hostOf(url)))))))
    }

    lemma SameFate(a: WebRates.Ledger, b: WebRates.Ledger, url: Url, accepted: bool)
      requires WebRates.ValidPolicy(policy) && SameRates(a, b)
      ensures Sendable(a, url, accepted) == Sendable(b, url, accepted) && Refused(a, url, accepted) == Refused(b, url, accepted)
    {
      hide SameRates, DueNow, CrawlPassed, Affordable;
      var host := hostOf(url);
      SameAnswers(policy, a, b, host, if host in robots then decide(robots[host], url).1 else 0.0, SizeFor(StageFor(host)));
    }

    /** Opening after a crash: what was claimed may have reached a server and is never replayed. */
    constructor (p: WebRates.Policy, cache: nat, host: Url -> Host, decision: (Body, Url) -> (bool, real),
                 saved: WebRates.Ledger, stored: Service, known: map<Host, Body>, interrupted: seq<Id>)
      requires WebRates.ValidPolicy(p) && WebRates.Sound(p, saved) && WebRates.SavedAfterPruning(saved)
      requires Sound(stored, cache) && Lists(interrupted, stored.tables, {Running, Cancelling})
      ensures Valid() && policy == p && cacheBytes == cache && active == None
      ensures WebRates.History(ledger) == WebRates.History(saved) && WebRates.Clock(ledger) == saved.time
      ensures tables == FinishAll(stored.tables, interrupted, OutcomeUnknown, saved.time)
    {
      policy, cacheBytes, hostOf, decide := p, cache, host, decision;
      ledger := WebRates.Restart(saved);
      WebRates.RestartKeeps(p, saved);
      var t := stored.tables;
      var now := saved.time;
      for i := 0 to |interrupted|
        invariant t == FinishAll(stored.tables, interrupted[..i], OutcomeUnknown, now)
      {
        assert interrupted[..i + 1][..i] == interrupted[..i];
        t := Finish(t, interrupted[i], OutcomeUnknown, now);
      }
      assert interrupted[..|interrupted|] == interrupted;
      tables, active, robots := t, None, known;
      StepKeeps(stored, Restarting(interrupted), cache, now);
    }

    /** How long until a request to `host` may be sent. */
    method NetworkWait(host: Host) returns (wait: real)
      requires Valid()
      modifies this`ledger
      ensures Valid() && ledger == WebRates.Prune(old(ledger))
      ensures wait == WebRates.MaxReal(0.0, WebRates.Due(policy, ledger, host) - WebRates.Clock(ledger))
    {
      hide WebRates.Sound, Sound, WebRates.Newer;
      WebRates.PruneKeeps(policy, ledger);
      ledger := WebRates.Prune(ledger);
      var now := WebRates.Clock(ledger);
      var due := ledger.breaker;
      if ledger.network != [] {
        due := WebRates.MaxReal(due, ledger.network[|ledger.network| - 1].created + policy.minInterval);
      }
      if host in ledger.hosts {
        due := WebRates.MaxReal(due, ledger.hosts[host]);
      }
      var windows := [(WebRates.MINUTE, policy.perMinute), (WebRates.HOUR, policy.perHour), (WebRates.DAY, policy.perDay)];
      for i := 0 to 3
        invariant ledger == WebRates.Prune(old(ledger))
        invariant WebRates.Due(policy, ledger, host) ==
          var one := if i < 1 then WebRates.WindowDue(ledger.network, now, WebRates.MINUTE, policy.perMinute, due) else due;
          var two := if i < 2 then WebRates.WindowDue(ledger.network, now, WebRates.HOUR, policy.perHour, one) else one;
          if i < 3 then WebRates.WindowDue(ledger.network, now, WebRates.DAY, policy.perDay, two) else two
      {
        var (window, maximum) := windows[i];
        var recent := WebRates.Newer(ledger.network, now - window);
        if |recent| >= maximum {
          due := WebRates.MaxReal(due, recent[|recent| - maximum].created + window);
        }
      }
      wait := WebRates.MaxReal(0.0, due - now);
    }

    /** Ends a request once, with its event, and saves the clock. */
    method FinishRequest(id: Id, status: Status)
      requires Valid() && active == None && Terminal(status)
      modifies this`ledger, this`tables
      ensures Valid() && tables == Finish(old(tables), id, status, WebRates.Clock(ledger))
      ensures ledger == old(ledger) || ledger == WebRates.Save(old(ledger))
      ensures SameRates(old(ledger), ledger)
    {
      SaveKeepsRates(ledger);
      hide WebRates.Sound, Sound;
      if id !in tables.requests || Terminal(tables.requests[id].status) {
        return;
      }
      FinishSound(tables, id, status, WebRates.Clock(ledger), cacheBytes);
      tables := Finish(tables, id, status, WebRates.Clock(ledger));
      ledger := WebRates.Save(ledger);
      WebRates.ApplyKeeps(policy, old(ledger), WebRates.Saving);
    }

    /**
     Picks the next request to send: once the cancelled rows have ended, while fewer than `BACKLOG` results are
     undelivered, the first row that can be sent. Of the rows before it those in `failed` have ended, exactly the
     ones that ledger, robots.txt or budget refuse; `at` is where the search stopped.
     */
    method Claim(cancelling: seq<Id>, queue: seq<Id>, delivered: nat, accepts: Id -> bool, lapse: real)
      returns (claim: Option<Claimed>, ghost at: nat, ghost failed: set<Id>)
      requires Valid() && active == None && Listed(queue, tables, Queued) && Listed(cancelling, tables, Cancelling)
      modifies this`ledger, this`tables, this`active
      ensures Valid() && at <= |queue| && Members(queue) <= old(tables).requests.Keys
      ensures claim.Some? <==>
        (|old(tables).results| + |cancelling| < delivered + BACKLOG
         && exists i :: 0 <= i < |queue| && Sendable(old(ledger), old(tables).requests[queue[i]].url, accepts(queue[i])))
      ensures claim.Some? ==>
        (at < |queue| && queue[at] == claim.value.id
         && Sendable(old(ledger), old(tables).requests[queue[at]].url, accepts(queue[at])))
      ensures claim.None? ==> at == if |old(tables).results| + |cancelling| < delivered + BACKLOG then |queue| else 0
      ensures forall j :: 0 <= j < at ==> !Sendable(old(ledger), old(tables).requests[queue[j]].url, accepts(queue[j]))
      ensures failed <= Members(queue[..at])
      ensures forall j :: 0 <= j < at ==>
        (queue[j] in failed <==> Refused(old(ledger), old(tables).requests[queue[j]].url, accepts(queue[j])))
      ensures claim.None? ==>
        (active == None && WebRates.History(ledger) == WebRates.History(old(ledger)) && tables.sent == old(tables).sent
         && Ended(old(tables), tables, Members(cancelling), failed))
      ensures claim.Some? ==>
        Licensed(old(tables).requests[claim.value.id].url, old(ledger), claim.value)
        && tables.sent == old(tables).sent + [(claim.value.id, claim.value.stage)]
        && claim.value.id in tables.requests
        && tables.requests[claim.value.id] == old(tables).requests[claim.value.id].(status := Running, stage := claim.value.stage)
        && Ended(old(tables), WithRow(tables, claim.value.id, old(tables).requests[claim.value.id]), Members(cancelling), failed)
    {
      hide WebRates.Sound, Sound, SameRates, WebRates.History, Sendable, Refused, Licensed, Ended, Members;
      claim, at, failed := None, 0, {};
      EndCancelling(cancelling);
      ghost var cancelled := Members(cancelling);
      QueueIsApart(cancelling, queue, old(tables));
      NoneListed(queue);
      if |tables.results| >= delivered + BACKLOG {
        return;
      }
      for i := 0 to |queue|
        invariant Valid() && active == None && claim.None? && at == i
        invariant SameRates(old(ledger), ledger) && WebRates.History(ledger) == WebRates.History(old(ledger))
        invariant tables.sent == old(tables).sent && Ended(old(tables), tables, cancelled, failed) && failed <= Members(queue[..i])
        invariant forall j :: 0 <= j < i ==> !Sendable(old(ledger), old(tables).requests[queue[j]].url, accepts(queue[j]))
        invariant forall j :: 0 <= j < i ==>
          (queue[j] in failed <==> Refused(old(ledger), old(tables).requests[queue[j]].url, accepts(queue[j])))
      {
        var id := queue[i];
        MoreListed(queue, i, old(tables));
        ghost var before, rates := tables, ledger;
        EndedRow(old(tables), tables, cancelled, failed, id);
        SameFate(old(ledger), ledger, tables.requests[id].url, accepts(id));
        claim := ClaimRow(id, accepts(id), lapse);
        if claim.Some? {
          LicensedSame(old(ledger), rates, tables.requests[id].url, claim.value);
          RowBack(old(tables), before, cancelled, failed, id, claim.value.stage);
          return;
        }
        SameRatesTwice(old(ledger), rates, ledger);
        if Refused(old(ledger), old(tables).requests[id].url, accepts(id)) {
          EndedMore(old(tables), before, cancelled, failed, id, WebRates.Clock(rates));
          failed := failed + {id};
        }
        at := i + 1;
      }
    }

    lemma LicensedSame(a: WebRates.Ledger, b: WebRates.Ledger, url: Url, c: Claimed)
      requires WebRates.ValidPolicy(policy) && SameRates(a, b) && WebRates.History(a) == WebRates.History(b) && Licensed(url, b, c)
      ensures Licensed(url, a, c)
    {
    }

    method EndCancelling(cancelling: seq<Id>)
      requires Valid() && active == None && Listed(cancelling, tables, Cancelling)
      modifies this`ledger, this`tables
      ensures Valid() && SameRates(old(ledger), ledger) && WebRates.History(ledger) == WebRates.History(old(ledger))
      ensures |tables.results| == |old(tables).results| + |cancelling| && tables.sent == old(tables).sent
      ensures Ended(old(tables), tables, Members(cancelling), {})
    {
      hide WebRates.Sound, Sound, SameRates;
      NoneEnded(tables, cancelling);
      SameRatesSelf(ledger);
      for i := 0 to |cancelling|
        invariant Valid() && active == None && SameRates(old(ledger), ledger)
        invariant WebRates.History(ledger) == WebRates.History(old(ledger))
        invariant |tables.results| == |old(tables).results| + i && tables.sent == old(tables).sent
        invariant Ended(old(tables), tables, Members(cancelling[..i]), {})
      {
        ghost var before, rates := tables, ledger;
        MoreListed(cancelling, i, old(tables));
        EndedRow(old(tables), tables, Members(cancelling[..i]), {}, cancelling[i]);
        FinishRequest(cancelling[i], Cancelled);
        CancelledMore(old(tables), before, Members(cancelling[..i]), cancelling[i], WebRates.Clock(ledger));
        SameRatesTwice(old(ledger), rates, ledger);
      }
      assert cancelling[..|cancelling|] == cancelling;
    }

    /** What a claim leaves beside its row: the active call, its reservation in the ledger, and the host paused. */
    ghost predicate Licensed(url: Url, rates: WebRates.Ledger, c: Claimed)
      requires WebRates.ValidPolicy(policy)
      reads this
    {
      var host := hostOf(url);
      && c.stage == StageFor(host) && c.size == SizeFor(c.stage) && c.reservation == |WebRates.History(rates)|
      && active == Some((c.id, c.stage))
      && WebRates.History(ledger) == WebRates.History(rates) + [WebRates.Charge(host, WebRates.Clock(ledger), c.size)]
      && WebRates.Clock(rates) <= WebRates.Clock(ledger) <= ledger.time && host in ledger.hosts
      && ledger.hosts[host] == WebRates.Clock(ledger)
           + WebRates.MaxReal(policy.minInterval, if host in robots then decide(robots[host], url).1 else 0.0)
    }

    /** One queued row: sent, ended or passed over, exactly as ledger, robots.txt and budget say. */
    method ClaimRow(id: Id, accepted: bool, lapse: real) returns (claim: Option<Claimed>)
      requires Valid() && active == None && id in tables.requests && tables.requests[id].status == Queued
      modifies this`ledger, this`tables, this`active
      ensures Valid()
      ensures claim.Some? <==> Sendable(old(ledger), old(tables).requests[id].url, accepted)
      ensures claim.Some? ==>
        (claim.value.id == id && Licensed(old(tables).requests[id].url, old(ledger), claim.value)
         && tables == WebRequests.Claim(old(tables), id, claim.value.stage))
      ensures claim.None? ==>
        (active == None && SameRates(old(ledger), ledger) && WebRates.History(ledger) == WebRates.History(old(ledger)))
      ensures claim.None? ==>
        tables == (if Refused(old(ledger), old(tables).requests[id].url, accepted)
                   then Finish(old(tables), id, Failed, WebRates.Clock(old(ledger))) else old(tables))
    {
      hide WebRates.Sound, Sound, WebRates.Due, WebRates.Prune, CrawlPassed, Affordable, SameRates;
      claim := None;
      var url := tables.requests[id].url;
      var host := hostOf(url);
      ClockKept(ledger);
      if !accepted {
        FinishRequest(id, Failed);
        ClockSame(old(ledger), ledger);
        return;
      }
      var wait := NetworkWait(host);
      WebRates.PruneKeeps(policy, old(ledger));
      PruneKeepsRates(old(ledger));
      if wait > 0.0 {
        return;
      }
      SameFate(old(ledger), ledger, url, accepted);
      SameAnswers(policy, old(ledger), ledger, host, 0.0, 0);
      PruneTwice(old(ledger));
      ghost var pruned := ledger;
      claim := ClaimDue(id, host, lapse);
      if claim.None? { SameRatesTwice(old(ledger), pruned, ledger); }
    }

    lemma ClockKept(l: WebRates.Ledger)
      ensures WebRates.Clock(WebRates.Prune(l)) == WebRates.Clock(l)
    {
    }

    lemma ClockSame(a: WebRates.Ledger, b: WebRates.Ledger)
      requires SameRates(a, b)
      ensures WebRates.Clock(a) == WebRates.Clock(b)
    {
    }

    /** The row's time has come: ask robots.txt and the byte budget. */
    method ClaimDue(id: Id, host: Host, lapse: real) returns (claim: Option<Claimed>)
      requires Valid() && active == None && id in tables.requests && tables.requests[id].status == Queued
      requires host == hostOf(tables.requests[id].url) && WebRates.Prune(ledger).network == ledger.network
      requires WebRates.Due(policy, ledger, host) <= WebRates.Clock(ledger) && DueNow(policy, ledger, host)
      modifies this`ledger, this`tables, this`active
      ensures Valid()
      ensures claim.Some? <==> Sendable(old(ledger), old(tables).requests[id].url, true)
      ensures claim.Some? ==>
        (claim.value.id == id && Licensed(old(tables).requests[id].url, old(ledger), claim.value)
         && tables == WebRequests.Claim(old(tables), id, claim.value.stage))
      ensures claim.None? ==>
        (active == None && SameRates(old(ledger), ledger) && WebRates.History(ledger) == WebRates.History(old(ledger)))
      ensures claim.None? ==>
        tables == (if Refused(old(ledger), old(tables).requests[id].url, true)
                   then Finish(old(tables), id, Failed, WebRates.Clock(old(ledger))) else old(tables))
    {
      hide WebRates.Sound, Sound, WebRates.Due, WebRates.Charged, WebRates.Prune, DueNow;
      claim := None;
      var url := tables.requests[id].url;
      var stage, delay := Robots, 0.0;
      if host in robots {
        var (allowed, asked) := decide(robots[host], url);
        if !allowed {
          FinishRequest(id, Failed);
          return;
        }
        LatestIsLatest(ledger.network, host, WebRates.Clock(ledger) - asked);
        var latest := Latest(ledger.network, host);
        if latest.Some? && WebRates.Clock(ledger) < latest.value + asked {
          return;
        }
        stage, delay := Page, asked;
      }
      var size := if stage == Page then policy.maxBody else Min(ROBOTS_SIZE, policy.maxBody);
      if WebRates.Charged(ledger.network) + size > policy.dailyBody {
        FinishRequest(id, Failed);
        return;
      }
      claim := Reserve(id, host, stage, size, delay, lapse);
    }

    method Reserve(id: Id, host: Host, stage: Stage, size: nat, delay: real, lapse: real) returns (claim: Option<Claimed>)
      requires Valid() && active == None && id in tables.requests && tables.requests[id].status == Queued
      requires WebRates.Due(policy, ledger, host) <= WebRates.Clock(ledger)
      requires WebRates.Charged(ledger.network) + size <= policy.dailyBody
      modifies this`ledger, this`tables, this`active
      ensures Valid() && active == Some((id, stage)) && tables == WebRequests.Claim(old(tables), id, stage)
      ensures claim == Some(Claimed(id, stage, |WebRates.History(old(ledger))|, size))
      ensures WebRates.History(ledger) == WebRates.History(old(ledger)) + [WebRates.Charge(host, WebRates.Clock(ledger), size)]
      ensures WebRates.Clock(old(ledger)) <= WebRates.Clock(ledger) <= ledger.time
      ensures ledger.hosts == old(ledger).hosts[host := WebRates.Clock(ledger) + WebRates.MaxReal(policy.minInterval, delay)]
    {
      hide WebRates.Sound, Sound, WebRates.Due, WebRates.Charged;
      claim := Some(Claimed(id, stage, |ledger.dropped| + |ledger.network|, size));
      WebRates.ReserveKeeps(policy, ledger, host, size, delay, lapse);
      ledger := WebRates.Reserve(policy, WebRates.Tick(ledger, lapse), host, size, delay);
      StepKeeps(Service(tables, active), Claiming(id, stage), cacheBytes, 0.0);
      tables := WebRequests.Claim(tables, id, stage);
      active := Some((id, stage));
    }

    /** Books the answer to the active claim: bytes used, host pause, robots.txt, and the request's next state. */
    method Conclude(claim: Claimed, outcome: Outcome, body: Body, used: nat, pause: real)
      requires Valid() && active == Some((claim.id, claim.stage))
      modifies this`ledger, this`tables, this`active, this`robots
      ensures Valid() && active == None
      ensures tables == Settle(old(tables), claim.id, claim.stage, outcome, cacheBytes, WebRates.Clock(ledger))
      ensures claim.id in old(tables).requests
      ensures var host := hostOf(old(tables).requests[claim.id].url);
        robots == if claim.stage == Robots && outcome.RobotsFound? && old(tables).requests[claim.id].status == Running
                  then old(robots)[host := body] else old(robots)
      ensures WebRates.Clock(ledger) == WebRates.Clock(old(ledger))
      ensures Booked(old(ledger), ledger, claim.reservation, if used <= claim.size then used else claim.size)
      ensures ledger.breaker == old(ledger).breaker && WebRates.Clock(ledger) <= ledger.time
      ensures Paused(old(ledger), ledger, hostOf(old(tables).requests[claim.id].url), pause)
    {
      hide WebRates.Sound, Sound, Settle, WebRates.Settle;
      ActiveIsKnown(Service(tables, active), cacheBytes);
      var now, row := WebRates.Clock(ledger), tables.requests[claim.id];
      Book(claim.reservation, if used <= claim.size then used else claim.size, hostOf(row.url), pause);
      StepKeeps(Service(tables, active), Settling(outcome), cacheBytes, now);
      if claim.stage == Robots && outcome.RobotsFound? && row.status == Running {
        robots := robots[hostOf(row.url) := body];
      }
      tables := Answer(tables, claim.id, claim.stage, outcome, cacheBytes, now);
      active := None;
    }

    method Book(reservation: nat, used: nat, host: Host, pause: real)
      requires Valid()
      modifies this`ledger
      ensures Valid() && WebRates.Clock(ledger) == WebRates.Clock(old(ledger))
      ensures Booked(old(ledger), ledger, reservation, used)
      ensures ledger.breaker == old(ledger).breaker && WebRates.Clock(ledger) <= ledger.time
      ensures Paused(old(ledger), ledger, host, pause)
    {
      hide WebRates.Sound, Sound;
      WebRates.SettleKeeps(policy, ledger, reservation, used);
      WebRates.SettleBooks(ledger, reservation, used);
      ledger := WebRates.Settle(ledger, reservation, used);
      if pause > 0.0 {
        var until := WebRates.Clock(ledger) + pause;
        WebRates.ApplyKeeps(policy, ledger, WebRates.Delay(host, until));
        ledger := ledger.(hosts := ledger.hosts[host := if host in ledger.hosts then WebRates.MaxReal(ledger.hosts[host], until) else until]);
      }
      WebRates.ApplyKeeps(policy, ledger, WebRates.Saving);
      ledger := WebRates.Save(ledger);
    }
  }

  /** The reservation's row, if it is still in the table, carries no more than the bytes really used; no other row changes. */
  ghost predicate Booked(before: WebRates.Ledger, after: WebRates.Ledger, reservation: nat, used: nat) {
    var h := WebRates.History(before);
    WebRates.History(after) ==
      if |before.dropped| <= reservation < |h| then h[reservation := h[reservation].(bytes := Min(used, h[reservation].bytes))] else h
  }

  /** The host is not asked again before the pause has passed, nor sooner than before; other hosts are as they were. */
  ghost predicate Paused(before: WebRates.Ledger, after: WebRates.Ledger, host: Host, pause: real) {
    && (forall h :: h != host ==> (h in after.hosts <==> h in before.hosts) && (h in before.hosts ==> after.hosts[h] == before.hosts[h]))
    && (host in after.hosts <==> host in before.hosts || pause > 0.0)
    && (host in after.hosts ==>
          && (pause > 0.0 ==> after.hosts[host] >= WebRates.Clock(before) + pause)
          && (host in before.hosts ==> after.hosts[host] >= before.hosts[host])
          && (after.hosts[host] == WebRates.Clock(before) + pause || (host in before.hosts && after.hosts[host] == before.hosts[host])))
  }

  /** When the table last recorded a request to `host`. */
  function Latest(rows: seq<WebRates.Charge>, host: Host): Option<real> {
    if rows == [] then None
    else
      var row, earlier := rows[|rows| - 1], Latest(rows[..|rows| - 1], host);
      if row.host != host then earlier
      else if earlier.Some? then Some(WebRates.MaxReal(earlier.value, row.created)) else Some(row.created)
  }
}
