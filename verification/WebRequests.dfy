/**
 The request tables of the web service (dmn/web.py:65-74, 193-225, 345-454): what one request goes
 through, its single result event, and the evicting document cache.
 */
module WebRequests {
  import opened Wrappers

  /** Request identities are hashes of a position that only grows; the position stands for the hash. */
  type Id = nat
  type Url = nat

  datatype Status = Queued | Running | Cancelling | Complete | Failed | Cancelled | OutcomeUnknown

  datatype Stage = Robots | Page

  predicate Terminal(s: Status) {
    s in {Complete, Failed, Cancelled, OutcomeUnknown}
  }

  /** `result` is the index of the request's event. */
  datatype Request = Request(url: Url, status: Status, stage: Stage, created: real, finished: real, result: Option<nat>)

  /** A `web_result` event. */
  datatype Result = Result(id: Id, status: Status)

  datatype Document = Document(id: Id, bytes: nat)

  /** A link handle is a hash of the document it came from and its target. */
  datatype Handle = Handle(document: Id, url: Url)

  /** `sent` records what was handed to the transport; nothing is ever taken from it. */
  datatype Tables = Tables(
    requests: map<Id, Request>, results: seq<Result>, highwater: int,
    documents: seq<Document>, handles: set<Handle>, sent: seq<(Id, Stage)>)

  const MAX_DOCUMENTS := 128

  function Finish(t: Tables, id: Id, status: Status, now: real): Tables {
    if id !in t.requests || Terminal(t.requests[id].status) then t
    else
      t.(requests := t.requests[id := t.requests[id].(status := status, finished := now, result := Some(|t.results|))],
         results := t.results + [Result(id, status)])
  }

  /** The committed effect of a planned fetch. */
  function Insert(t: Tables, id: Id, url: Url, now: real): Tables {
    t.(requests := t.requests[id := Request(url, Queued, Robots, now, 0.0, None)], highwater := Max(t.highwater, id))
  }

  /** The committed effect of a cancel action. */
  function RequestCancel(t: Tables, id: Id): Tables {
    if id in t.requests && t.requests[id].status in {Queued, Running}
    then t.(requests := t.requests[id := t.requests[id].(status := Cancelling)]) else t
  }

  /** Claiming makes the request running and is what licenses one transport call. */
  function Claim(t: Tables, id: Id, stage: Stage): Tables
    requires id in t.requests
  {
    t.(requests := t.requests[id := t.requests[id].(status := Running, stage := stage)], sent := t.sent + [(id, stage)])
  }

  /** After robots.txt the request waits for its page. */
  function Requeue(t: Tables, id: Id): Tables
    requires id in t.requests
  {
    t.(requests := t.requests[id := t.requests[id].(status := Queued, stage := Page)])
  }

  function Total(ds: seq<Document>): nat {
    if ds == [] then 0 else ds[0].bytes + Total(ds[1..])
  }

  function EvictOldest(t: Tables): Tables
    requires t.documents != []
  {
    var oldest := t.documents[0].id;
    t.(documents := t.documents[1..], handles := set h | h in t.handles && h.document != oldest)
  }

  /** Evicts until a document of this length fits. */
  function MakeRoom(t: Tables, length: nat, cacheBytes: nat): Tables
    requires length <= cacheBytes
    decreases |t.documents|
  {
    if Total(t.documents) + length > cacheBytes || |t.documents| >= MAX_DOCUMENTS
    then MakeRoom(EvictOldest(t), length, cacheBytes) else t
  }

  function Keep(t: Tables, id: Id, length: nat, links: set<Url>, now: real): Tables {
    Finish(t.(documents := t.documents + [Document(id, length)],
              handles := t.handles + (set u | u in links :: Handle(id, u))), id, Complete, now)
  }

  /** What the transport reported. */
  datatype Outcome =
    | Uncertain
    | CancelRequested
    | RobotsFound
    | RobotsUnavailable
    | PageFailed
    | PageFound(length: nat, links: set<Url>)

  function Settle(t: Tables, id: Id, stage: Stage, outcome: Outcome, cacheBytes: nat, now: real): Tables
    requires id in t.requests
  {
    if outcome.Uncertain? then Finish(t, id, OutcomeUnknown, now)
    else if outcome.CancelRequested? || t.requests[id].status == Cancelling then Finish(t, id, Cancelled, now)
    else if stage == Robots then
      if outcome.RobotsFound? then Requeue(t, id) else Finish(t, id, Failed, now)
    else if !outcome.PageFound? || outcome.length > cacheBytes then Finish(t, id, Failed, now)
    else Keep(MakeRoom(t, outcome.length, cacheBytes), id, outcome.length, outcome.links, now)
  }

  /*------------------------------------------------------------------ invariants */

  ghost predicate OneResultEach(t: Tables) {
    && (forall i, j :: 0 <= i < j < |t.results| ==> t.results[i].id != t.results[j].id)
    && (forall i :: 0 <= i < |t.results| ==> t.results[i].id <= t.highwater)
  }

  ghost predicate NoResult(t: Tables, id: Id) {
    forall i :: 0 <= i < |t.results| ==> t.results[i].id != id
  }

  /** A request has an event exactly when it is terminal, and the event reports its status. */
  ghost predicate ResultMatches(t: Tables, id: Id)
    requires id in t.requests
  {
    var r := t.requests[id];
    && id <= t.highwater && (Terminal(r.status) <==> r.result.Some?)
    && (r.result.Some? ==> r.result.value < |t.results| && t.results[r.result.value] == Result(id, r.status))
    && (r.result.None? ==> NoResult(t, id))
  }

  ghost predicate ResultsMatch(t: Tables) {
    forall id :: id in t.requests ==> ResultMatches(t, id)
  }

  ghost predicate PagesOnce(t: Tables) {
    && (forall i, j :: 0 <= i < j < |t.sent| && t.sent[i].1 == Page ==> t.sent[i] != t.sent[j])
    && (forall i :: 0 <= i < |t.sent| ==> t.sent[i].0 <= t.highwater)
  }

  ghost predicate PageSent(t: Tables, id: Id) {
    exists i :: 0 <= i < |t.sent| && t.sent[i] == (id, Page)
  }

  /** A request whose page was sent is never queued again. */
  ghost predicate SentIsPast(t: Tables) {
    forall id :: id in t.requests && PageSent(t, id) ==> t.requests[id].status != Queued && t.requests[id].stage == Page
  }

  ghost predicate CacheBounded(t: Tables, cacheBytes: nat) {
    && Total(t.documents) <= cacheBytes && |t.documents| <= MAX_DOCUMENTS
    && (forall i, j :: 0 <= i < j < |t.documents| ==> t.documents[i].id != t.documents[j].id)
    && (forall i :: 0 <= i < |t.documents| ==>
          t.documents[i].id in t.requests && t.requests[t.documents[i].id].status == Complete)
    && (forall h :: h in t.handles ==> exists i :: 0 <= i < |t.documents| && t.documents[i].id == h.document)
  }

  ghost predicate Good(t: Tables, cacheBytes: nat) {
    OneResultEach(t) && ResultsMatch(t) && PagesOnce(t) && SentIsPast(t) && CacheBounded(t, cacheBytes)
  }

  /*------------------------------------------------------------------ what each operation keeps */

  lemma FinishKeepsResults(t: Tables, id: Id, status: Status, now: real)
    requires OneResultEach(t) && ResultsMatch(t) && Terminal(status)
    ensures OneResultEach(Finish(t, id, status, now)) && ResultsMatch(Finish(t, id, status, now))
  {
    var u := Finish(t, id, status, now);
    if id in t.requests && !Terminal(t.requests[id].status) {
      assert ResultMatches(t, id);
      forall k | k in u.requests ensures ResultMatches(u, k) {
        assert ResultMatches(t, k);
      }
    }
  }

  lemma FinishKeepsRest(t: Tables, id: Id, status: Status, now: real, cacheBytes: nat)
    requires PagesOnce(t) && SentIsPast(t) && CacheBounded(t, cacheBytes) && Terminal(status)
    ensures var u := Finish(t, id, status, now); PagesOnce(u) && SentIsPast(u) && CacheBounded(u, cacheBytes)
  {
    var u := Finish(t, id, status, now);
    forall k | k in u.requests && PageSent(u, k)
      ensures u.requests[k].status != Queued && u.requests[k].stage == Page {
      assert PageSent(t, k);
    }
  }

  lemma FinishKeeps(t: Tables, id: Id, status: Status, now: real, cacheBytes: nat)
    requires Good(t, cacheBytes) && Terminal(status)
    ensures Good(Finish(t, id, status, now), cacheBytes)
  {
    FinishKeepsResults(t, id, status, now);
    FinishKeepsRest(t, id, status, now, cacheBytes);
  }

  lemma InsertKeeps(t: Tables, id: Id, url: Url, now: real, cacheBytes: nat)
    requires Good(t, cacheBytes) && id > t.highwater
    ensures Good(Insert(t, id, url, now), cacheBytes)
  {
    var u := Insert(t, id, url, now);
    assert id in t.requests ==> ResultMatches(t, id);
    forall k | k in u.requests ensures ResultMatches(u, k) {
      if k != id { assert ResultMatches(t, k); }
    }
    forall k | k in u.requests && PageSent(u, k)
      ensures u.requests[k].status != Queued && u.requests[k].stage == Page {
      assert PageSent(t, k);
      assert k <= t.highwater;
    }
  }

  lemma RestateKeeps(t: Tables, u: Tables, id: Id, cacheBytes: nat)
    requires Good(t, cacheBytes) && id in t.requests && !Terminal(t.requests[id].status)
    requires id in u.requests && u == t.(requests := u.requests) && u.requests == t.requests[id := u.requests[id]]
    requires !Terminal(u.requests[id].status) && u.requests[id].result == None
    requires PageSent(t, id) ==> u.requests[id].status != Queued && u.requests[id].stage == Page
    ensures Good(u, cacheBytes)
  {
    assert ResultMatches(t, id);
    forall k | k in u.requests ensures ResultMatches(u, k) {
      assert ResultMatches(t, k);
    }
    forall k | k in u.requests && PageSent(u, k)
      ensures u.requests[k].status != Queued && u.requests[k].stage == Page {
      assert PageSent(t, k);
    }
  }

  lemma CancelKeeps(t: Tables, id: Id, cacheBytes: nat)
    requires Good(t, cacheBytes)
    ensures Good(RequestCancel(t, id), cacheBytes)
  {
    if id in t.requests && t.requests[id].status in {Queued, Running} {
      assert ResultMatches(t, id);
      RestateKeeps(t, RequestCancel(t, id), id, cacheBytes);
    }
  }

  lemma RequeueKeeps(t: Tables, id: Id, cacheBytes: nat)
    requires Good(t, cacheBytes) && id in t.requests && t.requests[id].status == Running && t.requests[id].stage == Robots
    ensures Good(Requeue(t, id), cacheBytes)
  {
    assert ResultMatches(t, id);
    RestateKeeps(t, Requeue(t, id), id, cacheBytes);
  }

  lemma ClaimKeeps(t: Tables, id: Id, stage: Stage, cacheBytes: nat)
    requires Good(t, cacheBytes) && id in t.requests && t.requests[id].status == Queued
    ensures Good(Claim(t, id, stage), cacheBytes)
  {
    var u := Claim(t, id, stage);
    assert ResultMatches(t, id);
    assert !PageSent(t, id);
    forall k | k in u.requests ensures ResultMatches(u, k) {
      assert ResultMatches(t, k);
    }
    forall k | k in u.requests && PageSent(u, k)
      ensures u.requests[k].status != Queued && u.requests[k].stage == Page {
      var i :| 0 <= i < |u.sent| && u.sent[i] == (k, Page);
      if i < |t.sent| { assert t.sent[i] == (k, Page); }
    }
    forall i, j | 0 <= i < j < |u.sent| && u.sent[i].1 == Page ensures u.sent[i] != u.sent[j] {
      if j == |t.sent| { assert u.sent[i] == t.sent[i]; }
    }
  }

  /*------------------------------------------------------------------ the document cache */

  predicate TooFull(ds: seq<Document>, length: nat, cacheBytes: nat) {
    Total(ds) + length > cacheBytes || |ds| >= MAX_DOCUMENTS
  }

  /** Eviction stops at the first suffix, oldest documents dropped first, that leaves room. */
  lemma {:induction false} MakeRoomIsLeast(t: Tables, length: nat, cacheBytes: nat, j: nat)
    requires length <= cacheBytes && j <= |t.documents|
    ensures var u := MakeRoom(t, length, cacheBytes); var dropped := |t.documents| - |u.documents|;
      && 0 <= dropped && u.documents == t.documents[dropped..]
      && (j < dropped ==> TooFull(t.documents[j..], length, cacheBytes))
      && (j == dropped ==> !TooFull(t.documents[j..], length, cacheBytes))
    decreases |t.documents|
  {
    if Total(t.documents) + length > cacheBytes || |t.documents| >= MAX_DOCUMENTS {
      MakeRoomIsLeast(EvictOldest(t), length, cacheBytes, if j > 0 then j - 1 else 0);
      var rest, u := t.documents[1..], MakeRoom(t, length, cacheBytes);
      var dropped := |rest| - |u.documents|;
      assert rest[dropped..] == t.documents[dropped + 1..];
      if j > 0 { assert rest[j - 1..] == t.documents[j..]; } else { assert t.documents[0..] == t.documents; }
    } else {
      assert t.documents[0..] == t.documents;
    }
  }

  lemma TotalTail(ds: seq<Document>)
    requires ds != []
    ensures Total(ds[1..]) <= Total(ds)
  {
  }

  lemma EvictKeeps(t: Tables, cacheBytes: nat)
    requires Good(t, cacheBytes) && t.documents != []
    ensures Good(EvictOldest(t), cacheBytes)
  {
    var u := EvictOldest(t);
    TotalTail(t.documents);
    forall k | k in u.requests ensures ResultMatches(u, k) { assert ResultMatches(t, k); }
    forall k | k in u.requests && PageSent(u, k)
      ensures u.requests[k].status != Queued && u.requests[k].stage == Page { assert PageSent(t, k); }
    forall i | 0 <= i < |u.documents| ensures u.documents[i] == t.documents[i + 1] { }
    forall h | h in u.handles ensures exists i :: 0 <= i < |u.documents| && u.documents[i].id == h.document {
      var j :| 0 <= j < |t.documents| && t.documents[j].id == h.document;
      assert u.documents[j - 1].id == h.document;
    }
  }

  lemma {:induction false} MakeRoomKeeps(t: Tables, length: nat, cacheBytes: nat)
    requires Good(t, cacheBytes) && length <= cacheBytes
    ensures Good(MakeRoom(t, length, cacheBytes), cacheBytes)
    ensures MakeRoom(t, length, cacheBytes).requests == t.requests
    decreases |t.documents|
  {
    if Total(t.documents) + length > cacheBytes || |t.documents| >= MAX_DOCUMENTS {
      EvictKeeps(t, cacheBytes);
      MakeRoomKeeps(EvictOldest(t), length, cacheBytes);
    }
  }

  lemma {:induction false} TotalAppend(ds: seq<Document>, d: Document)
    ensures Total(ds + [d]) == Total(ds) + d.bytes
  {
    if ds != [] {
      TotalAppend(ds[1..], d);
      assert (ds + [d])[1..] == ds[1..] + [d];
    } else {
      assert ds + [d] == [d];
    }
  }

  lemma KeepCache(t: Tables, id: Id, length: nat, links: set<Url>, now: real, cacheBytes: nat)
    requires CacheBounded(t, cacheBytes) && id in t.requests && !Terminal(t.requests[id].status)
    requires Total(t.documents) + length <= cacheBytes && |t.documents| < MAX_DOCUMENTS
    ensures CacheBounded(Keep(t, id, length, links, now), cacheBytes)
  {
    var u := Keep(t, id, length, links, now);
    TotalAppend(t.documents, Document(id, length));
    assert u.documents == t.documents + [Document(id, length)];
    forall h | h in u.handles ensures exists i :: 0 <= i < |u.documents| && u.documents[i].id == h.document {
      if h in t.handles {
        var i :| 0 <= i < |t.documents| && t.documents[i].id == h.document;
        assert u.documents[i].id == h.document;
      } else {
        assert u.documents[|t.documents|].id == h.document;
      }
    }
    assert forall i :: 0 <= i < |t.documents| ==> t.documents[i].id != id && u.documents[i] == t.documents[i];
  }

  lemma KeepKeeps(t: Tables, id: Id, length: nat, links: set<Url>, now: real, cacheBytes: nat)
    requires Good(t, cacheBytes) && id in t.requests && !Terminal(t.requests[id].status)
    requires Total(t.documents) + length <= cacheBytes && |t.documents| < MAX_DOCUMENTS
    ensures Good(Keep(t, id, length, links, now), cacheBytes)
  {
    KeepCache(t, id, length, links, now, cacheBytes);
    FinishKeepsResults(t, id, Complete, now);
    FinishKeepsRest(t, id, Complete, now, cacheBytes);
    var f, u := Finish(t, id, Complete, now), Keep(t, id, length, links, now);
    assert u == f.(documents := u.documents, handles := u.handles);
    forall k | k in u.requests ensures ResultMatches(u, k) { assert ResultMatches(f, k); }
    forall k | k in u.requests && PageSent(u, k)
      ensures u.requests[k].status != Queued && u.requests[k].stage == Page { assert PageSent(f, k); }
  }

  /*------------------------------------------------------------------ runs */

  /** The service: durable tables and the claim the worker is serving, which a crash forgets. */
  datatype Service = Service(tables: Tables, active: Option<(Id, Stage)>)

  ghost predicate Sound(s: Service, cacheBytes: nat) {
    && Good(s.tables, cacheBytes)
    && (forall id :: id in s.tables.requests && s.tables.requests[id].status == Running ==>
          s.active.Some? && s.active.value.0 == id)
    && (s.active.Some? ==>
          var id := s.active.value.0;
          && id in s.tables.requests && s.tables.requests[id].status in {Running, Cancelling}
          && s.tables.requests[id].stage == s.active.value.1)
  }

  /** Delivered, old and not the source of a retained document. */
  predicate Prunable(t: Tables, id: Id, delivered: nat, before: real) {
    && id in t.requests && t.requests[id].result.Some? && t.requests[id].result.value < delivered
    && t.requests[id].finished < before
    && forall i :: 0 <= i < |t.documents| ==> t.documents[i].id != id
  }

  const HISTORY := 1024

  /** Pruning keeps the `HISTORY` most recently created of the prunable requests. */
  ghost predicate Prunes(t: Tables, gone: set<Id>, delivered: nat, before: real) {
    var all := set id | id in t.requests && Prunable(t, id, delivered, before);
    && gone <= all && |all - gone| == Min(HISTORY, |all|)
    && forall g, k :: g in gone && k in all - gone ==> t.requests[g].created <= t.requests[k].created
  }

  function FinishAll(t: Tables, ids: seq<Id>, status: Status, now: real): Tables {
    if ids == [] then t else Finish(FinishAll(t, ids[..|ids| - 1], status, now), ids[|ids| - 1], status, now)
  }

  ghost predicate Lists(ids: seq<Id>, t: Tables, statuses: set<Status>) {
    forall id :: id in ids <==> id in t.requests && t.requests[id].status in statuses
  }

  datatype Op =
    | Commit(id: Id, url: Url)
    | Cancel(id: Id)
    | Claiming(id: Id, stage: Stage)
    | Settling(outcome: Outcome)
    | Ending(ids: seq<Id>, status: Status)
    | Pruning(gone: set<Id>, delivered: nat, before: real)
    | Restarting(interrupted: seq<Id>)

  /** When an operation can happen. */
  ghost predicate Enabled(s: Service, op: Op) {
    match op
    case Commit(id, url) => id > s.tables.highwater
    case Cancel(id) => true
    case Claiming(id, stage) => s.active.None? && id in s.tables.requests && s.tables.requests[id].status == Queued
    case Settling(outcome) => s.active.Some? && s.active.value.0 in s.tables.requests
    case Ending(ids, status) => s.active.None? && status in {Failed, Cancelled}
    case Pruning(gone, delivered, before) => Prunes(s.tables, gone, delivered, before)
    case Restarting(interrupted) => Lists(interrupted, s.tables, {Running, Cancelling})
  }

  ghost function Apply(s: Service, op: Op, cacheBytes: nat, now: real): Service
    requires Enabled(s, op)
  {
    match op
    case Commit(id, url) => s.(tables := Insert(s.tables, id, url, now))
    case Cancel(id) => s.(tables := RequestCancel(s.tables, id))
    case Claiming(id, stage) => Service(Claim(s.tables, id, stage), Some((id, stage)))
    case Settling(outcome) =>
      Service(Settle(s.tables, s.active.value.0, s.active.value.1, outcome, cacheBytes, now), None)
    case Ending(ids, status) => s.(tables := FinishAll(s.tables, ids, status, now))
    case Pruning(gone, delivered, before) => s.(tables := s.tables.(requests := s.tables.requests - gone))
    case Restarting(interrupted) => Service(FinishAll(s.tables, interrupted, OutcomeUnknown, now), None)
  }

  lemma {:induction false} FinishAllKeeps(t: Tables, ids: seq<Id>, status: Status, now: real, cacheBytes: nat)
    requires Good(t, cacheBytes) && Terminal(status)
    ensures Good(FinishAll(t, ids, status, now), cacheBytes)
  {
    hide Good;
    if ids != [] {
      FinishAllKeeps(t, ids[..|ids| - 1], status, now, cacheBytes);
      FinishKeeps(FinishAll(t, ids[..|ids| - 1], status, now), ids[|ids| - 1], status, now, cacheBytes);
    }
  }

  /** Exactly the listed requests that were not terminal become so. */
  lemma {:induction false} FinishAllEach(t: Tables, ids: seq<Id>, status: Status, now: real, k: Id)
    requires Terminal(status)
    ensures var u := FinishAll(t, ids, status, now);
      && (k in u.requests <==> k in t.requests)
      && (k in t.requests ==>
           && u.requests[k].stage == t.requests[k].stage
           && u.requests[k].status == if k in ids && !Terminal(t.requests[k].status) then status else t.requests[k].status)
  {
    if ids != [] {
      FinishAllEach(t, ids[..|ids| - 1], status, now, k);
      assert k in ids <==> k in ids[..|ids| - 1] || k == ids[|ids| - 1];
    }
  }

  lemma FinishAllForall(t: Tables, ids: seq<Id>, status: Status, now: real)
    requires Terminal(status)
    ensures var u := FinishAll(t, ids, status, now);
      forall k ::
        && (k in u.requests <==> k in t.requests)
        && (k in t.requests ==>
             && u.requests[k].stage == t.requests[k].stage
             && u.requests[k].status == if k in ids && !Terminal(t.requests[k].status) then status else t.requests[k].status)
  {
    forall k { FinishAllEach(t, ids, status, now, k); }
  }

  /** A restart ends every interrupted request with one event saying its outcome is unknown, and no other request. */
  lemma RestartEndsInterrupted(s: Service, interrupted: seq<Id>, cacheBytes: nat, now: real)
    requires Sound(s, cacheBytes) && Enabled(s, Restarting(interrupted))
    ensures var t := Apply(s, Restarting(interrupted), cacheBytes, now);
      && t.active == None && t.tables.requests.Keys == s.tables.requests.Keys
      && forall id :: id in s.tables.requests ==>
           && t.tables.requests[id].status ==
                (if s.tables.requests[id].status in {Running, Cancelling} then OutcomeUnknown else s.tables.requests[id].status)
           && (s.tables.requests[id].status in {Running, Cancelling} ==> ResultMatches(t.tables, id))
  {
    hide Good, CacheBounded;
    var t := Apply(s, Restarting(interrupted), cacheBytes, now).tables;
    FinishAllForall(s.tables, interrupted, OutcomeUnknown, now);
    FinishAllKeeps(s.tables, interrupted, OutcomeUnknown, now, cacheBytes);
    EventsMatch(t, cacheBytes);
  }

  lemma EventsMatch(t: Tables, cacheBytes: nat)
    requires Good(t, cacheBytes)
    ensures forall id :: id in t.requests ==> ResultMatches(t, id)
  {
  }

  lemma SettleKeeps(t: Tables, id: Id, stage: Stage, outcome: Outcome, cacheBytes: nat, now: real)
    requires Good(t, cacheBytes) && id in t.requests
    requires t.requests[id].status in {Running, Cancelling} && t.requests[id].stage == stage
    ensures Good(Settle(t, id, stage, outcome, cacheBytes, now), cacheBytes)
    ensures var u := Settle(t, id, stage, outcome, cacheBytes, now);
      && u.requests.Keys == t.requests.Keys
      && (forall k :: k in t.requests && k != id ==> u.requests[k] == t.requests[k])
      && (Terminal(u.requests[id].status) || (u.requests[id].status == Queued && stage == Robots))
  {
    hide Good, CacheBounded;
    if outcome.Uncertain? {
      FinishKeeps(t, id, OutcomeUnknown, now, cacheBytes);
    } else if outcome.CancelRequested? || t.requests[id].status == Cancelling {
      FinishKeeps(t, id, Cancelled, now, cacheBytes);
    } else if stage == Robots && outcome.RobotsFound? {
      RequeueKeeps(t, id, cacheBytes);
    } else if stage == Robots || !outcome.PageFound? || outcome.length > cacheBytes {
      FinishKeeps(t, id, Failed, now, cacheBytes);
    } else {
      var room := MakeRoom(t, outcome.length, cacheBytes);
      MakeRoomKeeps(t, outcome.length, cacheBytes);
      MakeRoomFits(t, outcome.length, cacheBytes);
      KeepKeeps(room, id, outcome.length, outcome.links, now, cacheBytes);
    }
  }

  /** Ending a request sets its status, reports it once and changes nothing else. */
  lemma FinishEnds(t: Tables, id: Id, status: Status, now: real)
    requires id in t.requests && !Terminal(t.requests[id].status)
    ensures var u := Finish(t, id, status, now);
      && u.requests == t.requests[id := u.requests[id]] && u.requests[id].status == status && u.requests[id].finished == now
      && u.requests[id].url == t.requests[id].url && u.requests[id].result == Some(|t.results|)
      && u.results == t.results + [Result(id, status)]
      && u.documents == t.documents && u.handles == t.handles && u.sent == t.sent && u.highwater == t.highwater
  {
  }

  /** How the answer to a claim ends the request. */
  function Ending(t: Tables, id: Id, stage: Stage, outcome: Outcome, cacheBytes: nat): Status
    requires id in t.requests
  {
    if outcome.Uncertain? then OutcomeUnknown
    else if outcome.CancelRequested? || t.requests[id].status == Cancelling then Cancelled
    else if stage == Robots && outcome.RobotsFound? then Queued
    else if stage == Page && outcome.PageFound? && outcome.length <= cacheBytes then Complete
    else Failed
  }

  /**
   The answer decides the status: unknown, cancelled, waiting for its page, complete with its document and links
   kept, or failed. Every end is reported once; only a kept document evicts others.
   */
  lemma SettleEnds(t: Tables, id: Id, stage: Stage, outcome: Outcome, cacheBytes: nat, now: real)
    requires id in t.requests && !Terminal(t.requests[id].status)
    ensures var u, status := Settle(t, id, stage, outcome, cacheBytes, now), Ending(t, id, stage, outcome, cacheBytes);
      && id in u.requests && u.requests[id].status == status && u.requests[id].url == t.requests[id].url
      && (status == Queued ==> u.requests[id].stage == Page && u.results == t.results)
      && (status != Queued ==> u.results == t.results + [Result(id, status)] && u.requests[id].result == Some(|t.results|))
      && u.sent == t.sent
      && (status != Complete ==> u.documents == t.documents && u.handles == t.handles)
      && (status == Complete ==>
            var room := MakeRoom(t, outcome.length, cacheBytes);
            && u.documents == room.documents + [Document(id, outcome.length)]
            && u.handles == room.handles + (set url | url in outcome.links :: Handle(id, url)))
  {
    var status := Ending(t, id, stage, outcome, cacheBytes);
    if status == Complete {
      var room := MakeRoom(t, outcome.length, cacheBytes);
      MakeRoomLeaves(t, outcome.length, cacheBytes);
      FinishEnds(room.(documents := room.documents + [Document(id, outcome.length)],
                       handles := room.handles + (set url | url in outcome.links :: Handle(id, url))), id, Complete, now);
    } else if status != Queued {
      FinishEnds(t, id, status, now);
    }
  }

  /** Eviction touches nothing but documents and handles; the handles that go are those of the documents that go. */
  lemma {:induction false} MakeRoomLeaves(t: Tables, length: nat, cacheBytes: nat)
    requires length <= cacheBytes
    ensures var u := MakeRoom(t, length, cacheBytes);
      && u == t.(documents := u.documents, handles := u.handles) && |u.documents| <= |t.documents|
      && forall h :: h in u.handles <==>
           h in t.handles && forall j :: 0 <= j < |t.documents| - |u.documents| ==> t.documents[j].id != h.document
    decreases |t.documents|
  {
    if Total(t.documents) + length > cacheBytes || |t.documents| >= MAX_DOCUMENTS {
      var next, u := EvictOldest(t), MakeRoom(t, length, cacheBytes);
      MakeRoomLeaves(next, length, cacheBytes);
      var gone := |t.documents| - |u.documents|;
      forall h ensures h in u.handles <==> h in t.handles && forall j :: 0 <= j < gone ==> t.documents[j].id != h.document {
        assert forall j :: 1 <= j < gone ==> t.documents[j] == next.documents[j - 1];
        assert forall j :: 0 <= j < gone - 1 ==> next.documents[j] == t.documents[j + 1];
      }
    }
  }

  /** A planned fetch becomes a new queued request for its robots.txt. */
  lemma InsertQueues(t: Tables, id: Id, url: Url, now: real)
    ensures var u := Insert(t, id, url, now);
      && u.requests == t.requests[id := Request(url, Queued, Robots, now, 0.0, None)] && u.highwater >= id
      && u == t.(requests := u.requests, highwater := u.highwater) && u.highwater >= t.highwater
  {
  }

  /** A cancel action marks exactly a queued or running request. */
  lemma CancelMarks(t: Tables, id: Id)
    ensures var u := RequestCancel(t, id);
      && u == t.(requests := u.requests) && u.requests.Keys == t.requests.Keys
      && (forall k :: k in t.requests && k != id ==> u.requests[k] == t.requests[k])
      && (id in t.requests ==>
            u.requests[id] == t.requests[id].(status := if t.requests[id].status in {Queued, Running} then Cancelling else t.requests[id].status))
  {
  }

  lemma MakeRoomFits(t: Tables, length: nat, cacheBytes: nat)
    requires length <= cacheBytes
    ensures var u := MakeRoom(t, length, cacheBytes);
      Total(u.documents) + length <= cacheBytes && |u.documents| < MAX_DOCUMENTS
  {
    var dropped := |t.documents| - |MakeRoom(t, length, cacheBytes).documents|;
    MakeRoomIsLeast(t, length, cacheBytes, 0);
    MakeRoomIsLeast(t, length, cacheBytes, dropped);
  }

  lemma PruneKeeps(t: Tables, gone: set<Id>, delivered: nat, before: real, cacheBytes: nat)
    requires Good(t, cacheBytes) && Prunes(t, gone, delivered, before)
    ensures Good(t.(requests := t.requests - gone), cacheBytes)
    ensures forall k :: k in gone ==> k in t.requests && Terminal(t.requests[k].status)
  {
    var u := t.(requests := t.requests - gone);
    forall k | k in gone ensures k in t.requests && Terminal(t.requests[k].status) {
      assert Prunable(t, k, delivered, before);
      assert ResultMatches(t, k);
    }
    forall k | k in u.requests ensures ResultMatches(u, k) { assert ResultMatches(t, k); }
    forall k | k in u.requests && PageSent(u, k)
      ensures u.requests[k].status != Queued && u.requests[k].stage == Page { assert PageSent(t, k); }
    forall i | 0 <= i < |u.documents|
      ensures u.documents[i].id in u.requests && u.requests[u.documents[i].id].status == Complete {
      var d := t.documents[i].id;
      assert d in gone ==> Prunable(t, d, delivered, before);
    }
  }

  lemma StepKeeps(s: Service, op: Op, cacheBytes: nat, now: real)
    requires Sound(s, cacheBytes) && Enabled(s, op)
    ensures Sound(Apply(s, op, cacheBytes, now), cacheBytes)
  {
    hide Good, CacheBounded, Settle, Prunes;
    match op
    case Commit(id, url) => InsertKeeps(s.tables, id, url, now, cacheBytes); NewId(s.tables, id, cacheBytes);
    case Cancel(id) => CancelKeeps(s.tables, id, cacheBytes);
    case Claiming(id, stage) => ClaimKeeps(s.tables, id, stage, cacheBytes);
    case Settling(outcome) =>
      SettleKeeps(s.tables, s.active.value.0, s.active.value.1, outcome, cacheBytes, now);
    case Ending(ids, status) =>
      FinishAllKeeps(s.tables, ids, status, now, cacheBytes);
      FinishAllForall(s.tables, ids, status, now);
    case Pruning(gone, delivered, before) => PruneKeeps(s.tables, gone, delivered, before, cacheBytes);
    case Restarting(interrupted) =>
      FinishAllKeeps(s.tables, interrupted, OutcomeUnknown, now, cacheBytes);
      FinishAllForall(s.tables, interrupted, OutcomeUnknown, now);
  }

  lemma NewId(t: Tables, id: Id, cacheBytes: nat)
    requires Good(t, cacheBytes) && id > t.highwater
    ensures id !in t.requests
  {
    assert id in t.requests ==> ResultMatches(t, id);
  }

  /** `trace` lists the states of a run and the operation and time of each step. */
  ghost predicate IsRun(states: seq<Service>, ops: seq<Op>, times: seq<real>, cacheBytes: nat) {
    && |states| == |ops| + 1 == |times| + 1
    && states[0] == Service(Tables(map[], [], -1, [], {}, []), None)
    && forall i :: 0 <= i < |ops| ==>
         Enabled(states[i], ops[i]) && states[i + 1] == Apply(states[i], ops[i], cacheBytes, times[i])
  }

  /**
   In every run, with any crashes: a request is terminal exactly when it has its one event, no page is
   sent twice, a page once sent is never queued again, and the document cache keeps its limits.
   */
  lemma {:induction false} EveryRunIsSound(states: seq<Service>, ops: seq<Op>, times: seq<real>, cacheBytes: nat, n: nat)
    requires IsRun(states, ops, times, cacheBytes) && n <= |ops|
    ensures Sound(states[n], cacheBytes)
    decreases n
  {
    if n > 0 {
      EveryRunIsSound(states, ops, times, cacheBytes, n - 1);
      StepKeeps(states[n - 1], ops[n - 1], cacheBytes, times[n - 1]);
    }
  }

  /** Events and transport calls are never taken back, and a terminal request keeps its status until it is pruned. */
  ghost predicate Continues(before: Tables, after: Tables) {
    && before.results <= after.results && before.sent <= after.sent && before.highwater <= after.highwater
    && (forall id :: id in before.requests && Terminal(before.requests[id].status) && id in after.requests ==>
          after.requests[id] == before.requests[id])
    && forall id :: id in after.requests && id <= before.highwater ==> id in before.requests
  }

  lemma {:induction false} FinishAllContinues(t: Tables, ids: seq<Id>, status: Status, now: real)
    ensures Continues(t, FinishAll(t, ids, status, now))
  {
    if ids != [] { FinishAllContinues(t, ids[..|ids| - 1], status, now); }
  }

  lemma {:induction false} MakeRoomContinues(t: Tables, length: nat, cacheBytes: nat)
    requires length <= cacheBytes
    ensures var u := MakeRoom(t, length, cacheBytes);
      u == t.(documents := u.documents, handles := u.handles)
    decreases |t.documents|
  {
    if Total(t.documents) + length > cacheBytes || |t.documents| >= MAX_DOCUMENTS {
      MakeRoomContinues(EvictOldest(t), length, cacheBytes);
    }
  }

  lemma StepContinues(s: Service, op: Op, cacheBytes: nat, now: real)
    requires Sound(s, cacheBytes) && Enabled(s, op)
    ensures Continues(s.tables, Apply(s, op, cacheBytes, now).tables)
  {
    hide Good, CacheBounded, Prunes, MakeRoom;
    match op
    case Commit(id, url) => NewId(s.tables, id, cacheBytes);
    case Ending(ids, status) => FinishAllContinues(s.tables, ids, status, now);
    case Restarting(interrupted) => FinishAllContinues(s.tables, interrupted, OutcomeUnknown, now);
    case Settling(outcome) =>
      if outcome.PageFound? && outcome.length <= cacheBytes { MakeRoomContinues(s.tables, outcome.length, cacheBytes); }
    case _ =>
  }

  /** Over any stretch of a run. */
  lemma {:induction false} RunContinues(states: seq<Service>, ops: seq<Op>, times: seq<real>, cacheBytes: nat, i: nat, j: nat)
    requires IsRun(states, ops, times, cacheBytes) && i <= j <= |ops|
    ensures Continues(states[i].tables, states[j].tables)
    decreases j
  {
    if i < j {
      RunContinues(states, ops, times, cacheBytes, i, j - 1);
      EveryRunIsSound(states, ops, times, cacheBytes, i);
      EveryRunIsSound(states, ops, times, cacheBytes, j - 1);
      StepContinues(states[j - 1], ops[j - 1], cacheBytes, times[j - 1]);
      ContinuesTwice(states[i].tables, states[j - 1].tables, states[j].tables, cacheBytes);
    }
  }

  lemma ContinuesTwice(a: Tables, b: Tables, c: Tables, cacheBytes: nat)
    requires Good(a, cacheBytes) && Continues(a, b) && Continues(b, c)
    ensures Continues(a, c)
  {
    forall id | id in a.requests && Terminal(a.requests[id].status) && id in c.requests
      ensures c.requests[id] == a.requests[id] {
      assert ResultMatches(a, id);
    }
  }
}
