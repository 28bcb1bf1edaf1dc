/**
 Addressed input (dmn/conversations.py:95-277, dmn/contacts.py:44-110): the directory of
 conversations, first-contact consent, and the one transaction that publishes deliveries and
 contact decisions.
 */
module Inbox {
  import opened Wrappers

  type Conversation = nat
  type Person = nat
  type EventId = nat
  type Key = nat
  type Content = nat

  datatype Contact = Unrequested | Pending | Deferred | Declined | Accepted

  datatype Disposition = Held | Released | Discarded

  /** The first message of a participant who has not been accepted; it is no event. */
  datatype HeldInput = HeldInput(conversation: Conversation, key: Key, content: Content, disposition: Disposition)

  datatype Input = Input(conversation: Conversation, person: Person, content: Content)

  /** Events are numbered 1..events; `inputs` are the addressed ones. */
  datatype Directory = Directory(
    events: nat, inputs: map<EventId, Input>, keys: map<Key, EventId>,
    delivered: set<EventId>, suppressed: set<EventId>,
    owner: map<Conversation, Person>, closed: set<Conversation>, blocked: map<Person, nat>,
    contacts: map<Person, Contact>, held: map<Person, HeldInput>)

  datatype Limits = Limits(total: nat, each: nat)

  function ContactOf(d: Directory, p: Person): Contact {
    if p in d.contacts then d.contacts[p] else Unrequested
  }

  /** Undelivered input that may still be delivered. */
  function Waiting(d: Directory): set<EventId> {
    set id | id in d.inputs && id !in d.delivered && id !in d.suppressed
  }

  function WaitingOf(d: Directory, p: Person): set<EventId> {
    set id | id in Waiting(d) && d.inputs[id].person == p
  }

  function HeldPeople(d: Directory): set<Person> {
    set p | p in d.held && d.held[p].disposition == Held
  }

  function Load(d: Directory): nat {
    |Waiting(d)| + |HeldPeople(d)|
  }

  function Register(d: Directory, c: Conversation, p: Person): Option<Directory> {
    if c in d.owner then (if d.owner[c] == p then Some(d) else None)
    else if |d.owner| >= 128 then None
    else Some(d.(owner := d.owner[c := p]))
  }

  /** A host event that is not addressed to a conversation. */
  function Announce(d: Directory): Directory {
    d.(events := d.events + 1)
  }

  /** A message of a participant who is not accepted: held, a retry of the held one, or refused. */
  function Hold(d: Directory, limits: Limits, c: Conversation, p: Person, key: Key, content: Content): Option<Directory> {
    if key in d.keys then None
    else if p in d.held then
      if d.held[p].key == key && d.held[p].conversation == c && d.held[p].content == content then Some(d) else None
    else if ContactOf(d, p) !in {Unrequested, Pending, Deferred} || p in d.contacts then None
    else if Load(d) >= limits.total || (exists q :: q in d.held && d.held[q].key == key) then None
    else
      Some(d.(events := d.events + 1, contacts := d.contacts[p := Pending],
              held := d.held[p := HeldInput(c, key, content, Held)]))
  }

  function Admit(d: Directory, c: Conversation, p: Person, key: Key, content: Content): Directory {
    var id := d.events + 1;
    d.(events := id, inputs := d.inputs[id := Input(c, p, content)], keys := d.keys[key := id])
  }

  /** One message from a frontend; `key` identifies retries. None is a refusal that changes nothing. */
  function Enqueue(d: Directory, limits: Limits, c: Conversation, key: Key, content: Content): Option<Directory> {
    if c !in d.owner || d.owner[c] in d.blocked || c in d.closed then None
    else
      var p := d.owner[c];
      if ContactOf(d, p) != Accepted then Hold(d, limits, c, p, key, content)
      else if exists q :: q in d.held && d.held[q].key == key && d.held[q].disposition == Discarded then None
      else if key in d.keys then
        var prior := d.keys[key];
        if prior in d.inputs && d.inputs[prior] == Input(c, p, content) then Some(d) else None
      else if Load(d) >= limits.total || |WaitingOf(d, p)| >= limits.each then None
      else Some(Admit(d, c, p, key, content))
  }

  /*------------------------------------------------------------------ the effects of one checkpoint */

  datatype Decision = Accept | Decline | Defer

  datatype Effect =
    | Decide(person: Person, decision: Decision)
    | Close(conversation: Conversation)
    | Reopen(conversation: Conversation)
    | Block(person: Person, revision: nat)
    | Unblock(person: Person, revision: nat)

  function Release(d: Directory, p: Person): Directory
    requires p in d.held
  {
    var h := d.held[p];
    Admit(d, h.conversation, p, h.key, h.content).(held := d.held[p := h.(disposition := Released)])
  }

  function Discard(d: Directory, p: Person): Directory
    requires p in d.held
  {
    d.(held := d.held[p := d.held[p].(disposition := Discarded)])
  }

  function CommitDecision(d: Directory, p: Person, decision: Decision): Option<Directory> {
    if decision == Accept && p in d.blocked then None
    else if p !in d.contacts || d.contacts[p] == Accepted then None
    else
      var decided := d.(contacts := d.contacts[p := match decision case Accept => Accepted case Decline => Declined case Defer => Deferred]);
      if p !in d.held || d.held[p].disposition != Held then Some(decided)
      else if decision == Accept && d.held[p].conversation !in d.closed then
        if d.held[p].key in d.keys then None else Some(Release(decided, p))
      else if decision == Decline || d.held[p].conversation in d.closed then Some(Discard(decided, p))
      else Some(decided)
  }

  predicate Concerns(e: Effect, c: Conversation, p: Person) {
    (e.Close? && e.conversation == c) || (e.Block? && e.person == p)
  }

  /** Closing or blocking suppresses undelivered input and discards held input, for good. */
  function Silence(d: Directory, e: Effect): Directory {
    d.(suppressed := d.suppressed + (set id | id in d.inputs && id !in d.delivered
                                     && Concerns(e, d.inputs[id].conversation, d.inputs[id].person)),
       held := map p | p in d.held ::
         if d.held[p].disposition == Held && Concerns(e, d.held[p].conversation, p)
         then d.held[p].(disposition := Discarded) else d.held[p])
  }

  function CommitEffect(d: Directory, e: Effect): Option<Directory> {
    match e
    case Decide(p, decision) => CommitDecision(d, p, decision)
    case Close(c) => Some(Silence(d.(closed := d.closed + {c}), e))
    case Reopen(c) => Some(d.(closed := d.closed - {c}))
    case Block(p, revision) => Some(Silence(d.(blocked := d.blocked[p := revision]), e))
    case Unblock(p, revision) =>
      if p in d.blocked && d.blocked[p] == revision then Some(d.(blocked := d.blocked - {p})) else None
  }

  function CommitEffects(d: Directory, effects: seq<Effect>): Option<Directory> {
    if effects == [] then Some(d)
    else
      match CommitEffects(d, effects[..|effects| - 1])
      case None => None
      case Some(before) => CommitEffect(before, effects[|effects| - 1])
  }

  /** Deliveries are published before the effects, in the same transaction. */
  function Publish(d: Directory, entered: set<EventId>, effects: seq<Effect>): Option<Directory> {
    CommitEffects(d.(delivered := d.delivered + entered), effects)
  }

  /** The transaction as it runs: any effect that no longer applies undoes all of it. */
  method PublishAll(d: Directory, entered: set<EventId>, effects: seq<Effect>) returns (r: Option<Directory>)
    ensures r == Publish(d, entered, effects)
  {
    var now := d.(delivered := d.delivered + entered);
    for i := 0 to |effects|
      invariant CommitEffects(d.(delivered := d.delivered + entered), effects[..i]) == Some(now)
    {
      assert effects[..i + 1][..i] == effects[..i];
      var next := CommitEffect(now, effects[i]);
      if next.None? {
        FailureStays(d.(delivered := d.delivered + entered), effects, i + 1);
        return None;
      }
      now := next.value;
    }
    assert effects[..|effects|] == effects;
    r := Some(now);
  }

  lemma {:induction false} FailureStays(d: Directory, effects: seq<Effect>, k: nat)
    requires k <= |effects| && CommitEffects(d, effects[..k]).None?
    ensures CommitEffects(d, effects).None?
    decreases |effects| - k
  {
    if k < |effects| {
      assert effects[..k + 1][..k] == effects[..k];
      FailureStays(d, effects, k + 1);
    } else {
      assert effects[..k] == effects;
    }
  }

  /*------------------------------------------------------------------ invariants of the directory */

  ghost predicate Numbered(d: Directory) {
    && (forall id :: id in d.inputs ==> 1 <= id <= d.events)
    && (forall id :: id in d.delivered || id in d.suppressed ==> 1 <= id <= d.events)
    && (forall id :: id in d.suppressed ==> id in d.inputs && id !in d.delivered)
    && (forall k :: k in d.keys ==> d.keys[k] in d.inputs)
  }

  /** Input that may still be delivered comes from an open conversation of an unblocked participant. */
  ghost predicate Open(d: Directory) {
    forall id :: id in Waiting(d) ==> d.inputs[id].conversation !in d.closed && d.inputs[id].person !in d.blocked
  }

  /** An event of a participant exists only once they are accepted. */
  ghost predicate EventsConsented(d: Directory) {
    forall id :: id in d.inputs ==> ContactOf(d, d.inputs[id].person) == Accepted
  }

  /** Everyone who asked has one held message, undecided only while they are not accepted. */
  ghost predicate HeldConsented(d: Directory) {
    && (forall p :: p in d.held <==> p in d.contacts)
    && (forall p :: p in d.contacts ==> d.contacts[p] != Unrequested)
    && (forall p :: p in d.held ==>
          && (d.held[p].disposition == Released ==> ContactOf(d, p) == Accepted)
          && (d.held[p].disposition == Held ==>
                && ContactOf(d, p) != Accepted && ContactOf(d, p) != Declined
                && d.held[p].conversation !in d.closed && p !in d.blocked))
  }

  ghost predicate Consented(d: Directory) {
    EventsConsented(d) && HeldConsented(d)
  }

  /** Held messages have different keys. */
  ghost predicate KeysApart(held: map<Person, HeldInput>) {
    forall p, q :: p in held && q in held && held[p].key == held[q].key ==> p == q
  }

  ghost predicate WithinLimits(d: Directory, limits: Limits) {
    Load(d) <= limits.total && forall p :: |WaitingOf(d, p)| <= limits.each
  }

  ghost predicate Sound(d: Directory, limits: Limits) {
    Numbered(d) && Open(d) && Consented(d) && KeysApart(d.held) && WithinLimits(d, limits)
  }

  /** Changing dispositions only, or adding a new key, keeps the keys apart. */
  lemma KeysStayApart(before: map<Person, HeldInput>, after: map<Person, HeldInput>)
    requires KeysApart(before) && after.Keys == before.Keys
    requires forall p :: p in before ==> after[p].key == before[p].key
    ensures KeysApart(after)
  {
  }

  lemma NewKeyIsApart(held: map<Person, HeldInput>, p: Person, h: HeldInput)
    requires KeysApart(held) && forall q :: q in held ==> held[q].key != h.key
    ensures KeysApart(held[p := h])
  {
  }

  /*------------------------------------------------------------------ what each operation keeps */

  lemma AdmitWaiting(d: Directory, c: Conversation, p: Person, key: Key, content: Content)
    requires Numbered(d)
    ensures Waiting(Admit(d, c, p, key, content)) == Waiting(d) + {d.events + 1} && d.events + 1 !in Waiting(d)
    ensures WaitingOf(Admit(d, c, p, key, content), p) == WaitingOf(d, p) + {d.events + 1}
    ensures forall q :: q != p ==> WaitingOf(Admit(d, c, p, key, content), q) == WaitingOf(d, q)
  {
  }

  lemma AdmitKeeps(d: Directory, limits: Limits, c: Conversation, p: Person, key: Key, content: Content)
    requires Numbered(d) && Open(d) && c !in d.closed && p !in d.blocked
    ensures Numbered(Admit(d, c, p, key, content)) && Open(Admit(d, c, p, key, content))
  {
    AdmitWaiting(d, c, p, key, content);
  }

  lemma AdmitConsents(d: Directory, c: Conversation, p: Person, key: Key, content: Content)
    requires Consented(d) && ContactOf(d, p) == Accepted
    ensures Consented(Admit(d, c, p, key, content))
  {
    var u := Admit(d, c, p, key, content);
    assert HeldConsented(u);
    hide HeldConsented;
    forall id | id in u.inputs ensures ContactOf(u, u.inputs[id].person) == Accepted {
      if id in d.inputs { assert ContactOf(d, d.inputs[id].person) == Accepted; }
    }
  }

  lemma AdmitLimits(d: Directory, limits: Limits, c: Conversation, p: Person, key: Key, content: Content)
    requires Numbered(d) && WithinLimits(d, limits) && Load(d) < limits.total && |WaitingOf(d, p)| < limits.each
    ensures WithinLimits(Admit(d, c, p, key, content), limits)
  {
    var u := Admit(d, c, p, key, content);
    AdmitWaiting(d, c, p, key, content);
    assert HeldPeople(u) == HeldPeople(d);
    hide Numbered, Waiting, WaitingOf, HeldPeople, Admit;
    forall q ensures |WaitingOf(u, q)| <= limits.each {
      if q != p { assert WaitingOf(u, q) == WaitingOf(d, q); }
    }
  }

  lemma EnqueueAccepted(d: Directory, limits: Limits, c: Conversation, p: Person, key: Key, content: Content)
    requires Sound(d, limits) && c !in d.closed && p !in d.blocked && ContactOf(d, p) == Accepted
    requires Load(d) < limits.total && |WaitingOf(d, p)| < limits.each
    ensures Sound(Admit(d, c, p, key, content), limits)
  {
    hide Sound, KeysApart, Numbered, Open, Consented, WithinLimits, Load, WaitingOf;
    SoundParts(d, limits);
    AdmitKeeps(d, limits, c, p, key, content);
    AdmitConsents(d, c, p, key, content);
    AdmitLimits(d, limits, c, p, key, content);
    SoundParts(Admit(d, c, p, key, content), limits);
  }

  /** Nobody who was accepted stops being so: the events stay consented. */
  lemma EventsStayConsented(d: Directory, u: Directory)
    requires EventsConsented(d) && u.inputs == d.inputs
    requires forall p :: ContactOf(d, p) == Accepted ==> ContactOf(u, p) == Accepted
    ensures EventsConsented(u)
  {
    hide ContactOf;
  }

  lemma SameWaiting(d: Directory, u: Directory)
    requires u.inputs == d.inputs && u.delivered == d.delivered && u.suppressed == d.suppressed
    ensures Waiting(u) == Waiting(d) && forall q :: WaitingOf(u, q) == WaitingOf(d, q)
  {
    assert Waiting(u) == Waiting(d);
    forall q ensures WaitingOf(u, q) == WaitingOf(d, q) { }
  }

  lemma HoldConsents(d: Directory, u: Directory, c: Conversation, p: Person, key: Key, content: Content)
    requires Consented(d) && c !in d.closed && p !in d.blocked && ContactOf(d, p) != Accepted && p !in d.held && p !in d.contacts
    requires u == d.(events := d.events + 1, contacts := d.contacts[p := Pending], held := d.held[p := HeldInput(c, key, content, Held)])
    ensures Consented(u)
  {
    assert HeldConsented(u);
    hide HeldConsented, EventsConsented;
    EventsStayConsented(d, u);
  }

  lemma HoldKeeps(d: Directory, limits: Limits, c: Conversation, p: Person, key: Key, content: Content)
    requires Sound(d, limits) && c !in d.closed && p !in d.blocked && ContactOf(d, p) != Accepted
    requires Hold(d, limits, c, p, key, content).Some?
    ensures Sound(Hold(d, limits, c, p, key, content).value, limits)
  {
    hide Sound, Waiting, WaitingOf, Consented, Open, Numbered, WithinLimits, Load, HeldPeople, KeysApart;
    var u := Hold(d, limits, c, p, key, content).value;
    if u != d {
      SoundParts(d, limits);
      NewKeyIsApart(d.held, p, HeldInput(c, key, content, Held));
      HoldConsents(d, u, c, p, key, content);
      HoldQueues(d, u, limits, HeldInput(c, key, content, Held), p);
      SoundParts(u, limits);
    }
  }

  lemma SoundParts(d: Directory, limits: Limits)
    ensures Sound(d, limits) <==> Numbered(d) && Open(d) && Consented(d) && KeysApart(d.held) && WithinLimits(d, limits)
  {
  }

  lemma HoldQueues(d: Directory, u: Directory, limits: Limits, h: HeldInput, p: Person)
    requires Numbered(d) && Open(d) && WithinLimits(d, limits) && Load(d) < limits.total && p !in d.held
    requires h.disposition == Held
    requires u == d.(events := d.events + 1, contacts := d.contacts[p := Pending], held := d.held[p := h])
    ensures Numbered(u) && Open(u) && WithinLimits(u, limits)
  {
    hide HeldPeople, WithinLimits, Load;
    SameWaiting(d, u);
    HoldLimits(d, u, limits, h, p);
    hide Waiting, WaitingOf;
  }

  lemma HoldLimits(d: Directory, u: Directory, limits: Limits, h: HeldInput, p: Person)
    requires WithinLimits(d, limits) && Load(d) < limits.total && p !in d.held && h.disposition == Held
    requires u == d.(events := d.events + 1, contacts := d.contacts[p := Pending], held := d.held[p := h])
    ensures WithinLimits(u, limits)
  {
    SameWaiting(d, u);
    hide Waiting, WaitingOf;
    assert HeldPeople(u) == HeldPeople(d) + {p};
  }

  lemma EnqueueKeeps(d: Directory, limits: Limits, c: Conversation, key: Key, content: Content)
    requires Sound(d, limits) && Enqueue(d, limits, c, key, content).Some?
    ensures Sound(Enqueue(d, limits, c, key, content).value, limits)
  {
    var p := d.owner[c];
    hide Sound, Hold, Admit, WaitingOf, Waiting;
    if ContactOf(d, p) != Accepted {
      HoldKeeps(d, limits, c, p, key, content);
    } else if key !in d.keys {
      EnqueueAccepted(d, limits, c, p, key, content);
    }
  }

  /** A message under a new key from an accepted participant is admitted exactly when both inboxes have room, as one new waiting input. */
  lemma FreshMessageIsAdmitted(d: Directory, limits: Limits, c: Conversation, key: Key, content: Content)
    requires Numbered(d) && c in d.owner && ContactOf(d, d.owner[c]) == Accepted && c !in d.closed && d.owner[c] !in d.blocked
    requires key !in d.keys && forall q :: q in d.held && d.held[q].key == key ==> d.held[q].disposition != Discarded
    ensures var r := Enqueue(d, limits, c, key, content);
      && (r.Some? <==> Load(d) < limits.total && |WaitingOf(d, d.owner[c])| < limits.each)
      && (r.Some? ==>
            var u, id := r.value, d.events + 1;
            && u.events == id && u.inputs == d.inputs[id := Input(c, d.owner[c], content)] && u.keys == d.keys[key := id]
            && Waiting(u) == Waiting(d) + {id} && id !in Waiting(d)
            && u == d.(events := u.events, inputs := u.inputs, keys := u.keys))
  {
    AdmitWaiting(d, c, d.owner[c], key, content);
    hide Waiting, WaitingOf, HeldPeople;
  }

  /** The first message of somebody who never asked is held exactly when there is room: a pending request, and no input. */
  lemma FirstMessageIsHeld(d: Directory, limits: Limits, c: Conversation, key: Key, content: Content)
    requires c in d.owner && c !in d.closed && d.owner[c] !in d.blocked && d.owner[c] !in d.contacts && d.owner[c] !in d.held
    requires key !in d.keys && forall q :: q in d.held ==> d.held[q].key != key
    ensures var r, p := Enqueue(d, limits, c, key, content), d.owner[c];
      && (r.Some? <==> Load(d) < limits.total)
      && (r.Some? ==>
            && r.value.contacts == d.contacts[p := Pending] && r.value.held == d.held[p := HeldInput(c, key, content, Held)]
            && r.value == d.(events := d.events + 1, contacts := r.value.contacts, held := r.value.held))
  {
    hide Load;
  }

  /** Nothing is admitted for an unknown or closed conversation or a blocked participant, nor anything more from one not accepted. */
  lemma RefusedMessages(d: Directory, limits: Limits, c: Conversation, key: Key, content: Content)
    requires c !in d.owner || c in d.closed || d.owner[c] in d.blocked
      || (ContactOf(d, d.owner[c]) != Accepted && d.owner[c] in d.held
          && !(d.held[d.owner[c]].key == key && d.held[d.owner[c]].conversation == c && d.held[d.owner[c]].content == content))
    ensures Enqueue(d, limits, c, key, content) == None
  {
  }

  /**
   A key that was used answers only its own message: unchanged when the same message of a still accepted participant, or
   the same held message, comes again; refused for any other content, sender or conversation, and for a discarded one.
   */
  lemma UsedKeysAreAnswered(d: Directory, limits: Limits, c: Conversation, key: Key, content: Content)
    requires Numbered(d) && KeysApart(d.held) && c in d.owner && c !in d.closed && d.owner[c] !in d.blocked
    requires key in d.keys || exists q :: q in d.held && d.held[q].key == key && (q == d.owner[c] || d.held[q].disposition == Discarded)
    ensures var p := d.owner[c];
      var sameInput := key in d.keys && d.inputs[d.keys[key]] == Input(c, p, content);
      var sameHeld := key !in d.keys && p in d.held && d.held[p] == HeldInput(c, key, content, d.held[p].disposition);
      var discarded := exists q :: q in d.held && d.held[q].key == key && d.held[q].disposition == Discarded;
      var r := Enqueue(d, limits, c, key, content);
      && (ContactOf(d, p) == Accepted && (discarded || key in d.keys) ==> r == if sameInput && !discarded then Some(d) else None)
      && (ContactOf(d, p) != Accepted ==> r == if sameHeld then Some(d) else None)
  {
    hide Load, WaitingOf, Waiting;
  }

  /** A conversation belongs to the participant who registered it first, and at most 128 are ever registered. */
  lemma RegistersOnce(d: Directory, c: Conversation, p: Person)
    ensures var r := Register(d, c, p);
      && (r.Some? <==> if c in d.owner then d.owner[c] == p else |d.owner| < 128)
      && (r.Some? ==>
            && c in r.value.owner && r.value.owner[c] == p && r.value == d.(owner := r.value.owner)
            && (forall b :: b != c ==> (b in r.value.owner <==> b in d.owner) && (b in d.owner ==> r.value.owner[b] == d.owner[b]))
            && forall q :: Register(r.value, c, q) == if q == p then Some(r.value) else None)
  {
  }

  /** A retry is answered from what is already there: the same key and content never add a second event. */
  lemma RetryAddsNothing(d: Directory, limits: Limits, c: Conversation, key: Key, content: Content)
    requires Sound(d, limits) && Enqueue(d, limits, c, key, content).Some?
    ensures var u := Enqueue(d, limits, c, key, content).value;
      Enqueue(u, limits, c, key, content) == Some(u)
  {
    var p, u := d.owner[c], Enqueue(d, limits, c, key, content).value;
    if ContactOf(d, p) == Accepted && key !in d.keys {
      assert u.keys[key] == d.events + 1 && u.inputs[d.events + 1] == Input(c, p, content);
      assert ContactOf(u, p) == Accepted;
    }
  }

  lemma FewerKeepLimits(d: Directory, u: Directory, limits: Limits)
    requires WithinLimits(d, limits) && Waiting(u) <= Waiting(d) && HeldPeople(u) <= HeldPeople(d)
    requires forall q :: WaitingOf(u, q) <= WaitingOf(d, q)
    ensures WithinLimits(u, limits)
  {
    hide Waiting, WaitingOf, HeldPeople;
    SubsetSize(Waiting(u), Waiting(d));
    SubsetSize(HeldPeople(u), HeldPeople(d));
    forall q ensures |WaitingOf(u, q)| <= limits.each {
      SubsetSize(WaitingOf(u, q), WaitingOf(d, q));
    }
  }

  lemma ReleaseConsents(d: Directory, u: Directory, p: Person)
    requires Consented(d) && p in d.held && d.held[p].disposition == Held
    requires u == Release(d.(contacts := d.contacts[p := Accepted]), p)
    ensures Consented(u) && WaitingOf(d, p) == {}
  {
    ReleaseHeld(d, u, p);
    NothingWaiting(d, p);
    hide HeldConsented;
    forall id | id in u.inputs ensures ContactOf(u, u.inputs[id].person) == Accepted {
      if id in d.inputs { assert ContactOf(d, d.inputs[id].person) == Accepted; }
    }
  }

  lemma ReleaseHeld(d: Directory, u: Directory, p: Person)
    requires HeldConsented(d) && p in d.held && d.held[p].disposition == Held
    requires u == Release(d.(contacts := d.contacts[p := Accepted]), p)
    ensures HeldConsented(u)
  {
  }

  /** A participant with undecided held input has no events. */
  lemma NothingWaiting(d: Directory, p: Person)
    requires Consented(d) && p in d.held && d.held[p].disposition == Held
    ensures WaitingOf(d, p) == {}
  {
    assert ContactOf(d, p) != Accepted;
    hide HeldConsented;
    forall id ensures id !in WaitingOf(d, p) {
      if id in d.inputs { assert ContactOf(d, d.inputs[id].person) == Accepted; }
    }
  }

  lemma ReleaseQueues(d: Directory, u: Directory, p: Person)
    requires Numbered(d) && p in d.held && d.held[p].disposition == Held
    requires u == Release(d.(contacts := d.contacts[p := Accepted]), p)
    ensures Waiting(u) == Waiting(d) + {d.events + 1} && d.events + 1 !in Waiting(d)
    ensures WaitingOf(u, p) == WaitingOf(d, p) + {d.events + 1}
    ensures forall q :: q != p ==> WaitingOf(u, q) == WaitingOf(d, q)
    ensures HeldPeople(u) == HeldPeople(d) - {p} && p in HeldPeople(d)
  {
    var h, accepted := d.held[p], d.(contacts := d.contacts[p := Accepted]);
    SameWaiting(d, accepted);
    AdmitWaiting(accepted, h.conversation, p, h.key, h.content);
    SameWaiting(Admit(accepted, h.conversation, p, h.key, h.content), u);
  }

  lemma ReleaseOpen(d: Directory, u: Directory, p: Person)
    requires Numbered(d) && Open(d) && p in d.held && d.held[p].conversation !in d.closed && p !in d.blocked
    requires u == Release(d.(contacts := d.contacts[p := Accepted]), p)
    ensures Numbered(u) && Open(u)
  {
  }

  lemma ReleaseLimits(d: Directory, u: Directory, limits: Limits, p: Person)
    requires WithinLimits(d, limits) && limits.each >= 1 && WaitingOf(d, p) == {}
    requires Waiting(u) == Waiting(d) + {d.events + 1} && d.events + 1 !in Waiting(d)
    requires WaitingOf(u, p) == WaitingOf(d, p) + {d.events + 1}
    requires forall q :: q != p ==> WaitingOf(u, q) == WaitingOf(d, q)
    requires HeldPeople(u) == HeldPeople(d) - {p} && p in HeldPeople(d)
    ensures WithinLimits(u, limits)
  {
    hide Waiting, WaitingOf, HeldPeople;
    forall q ensures |WaitingOf(u, q)| <= limits.each {
      if q != p { assert WaitingOf(u, q) == WaitingOf(d, q); }
    }
    assert |Waiting(u)| == |Waiting(d)| + 1 && |HeldPeople(u)| == |HeldPeople(d)| - 1;
  }

  lemma HeldIsOpen(d: Directory, p: Person)
    requires Consented(d) && p in d.held && d.held[p].disposition == Held
    ensures d.held[p].conversation !in d.closed && p !in d.blocked
  {
  }

  lemma ReleaseKeeps(d: Directory, limits: Limits, p: Person)
    requires Sound(d, limits) && limits.each >= 1 && p in d.held && d.held[p].disposition == Held
    ensures Sound(Release(d.(contacts := d.contacts[p := Accepted]), p), limits)
  {
    hide Sound, Consented, KeysApart, Open, Numbered, WithinLimits, Waiting, WaitingOf, HeldPeople;
    var u := Release(d.(contacts := d.contacts[p := Accepted]), p);
    SoundParts(d, limits);
    HeldIsOpen(d, p);
    ReleaseConsents(d, u, p);
    ReleaseQueues(d, u, p);
    ReleaseOpen(d, u, p);
    ReleaseLimits(d, u, limits, p);
    KeysStayApart(d.held, u.held);
    SoundParts(u, limits);
  }

  /** A first message that was held and then released is the one that was submitted: its retry is recognised and adds nothing. */
  lemma RetryAfterRelease(d: Directory, limits: Limits, p: Person)
    requires Sound(d, limits) && p in d.held && d.held[p].disposition == Held && CommitDecision(d, p, Accept).Some?
    requires d.held[p].conversation in d.owner && d.owner[d.held[p].conversation] == p
    ensures var h, u := d.held[p], CommitDecision(d, p, Accept).value;
      Enqueue(u, limits, h.conversation, h.key, h.content) == Some(u)
  {
    hide Open, Numbered, WithinLimits, Waiting, WaitingOf, HeldPeople;
    var h, u := d.held[p], CommitDecision(d, p, Accept).value;
    assert u.inputs[d.events + 1] == Input(h.conversation, p, h.content) && u.keys[h.key] == d.events + 1;
    assert u.held[p].disposition == Released;
    forall q | q in u.held && u.held[q].key == h.key ensures q == p {
      assert d.held[q].key == d.held[p].key;
    }
  }

  lemma DiscardConsents(d: Directory, u: Directory, p: Person, contact: Contact)
    requires Consented(d) && p in d.held && p in d.contacts && d.contacts[p] != Accepted && contact != Unrequested
    requires d.held[p].disposition == Held ==> contact == Declined
    requires u == var decided := d.(contacts := d.contacts[p := contact]);
      if d.held[p].disposition == Held then Discard(decided, p) else decided
    ensures Consented(u)
    ensures HeldPeople(u) <= HeldPeople(d)
  {
    DiscardHeld(d, u, p, contact);
    hide HeldConsented, EventsConsented;
    EventsStayConsented(d, u);
  }

  lemma DiscardHeld(d: Directory, u: Directory, p: Person, contact: Contact)
    requires HeldConsented(d) && p in d.held && p in d.contacts && d.contacts[p] != Accepted && contact != Unrequested
    requires d.held[p].disposition == Held ==> contact == Declined
    requires u == var decided := d.(contacts := d.contacts[p := contact]);
      if d.held[p].disposition == Held then Discard(decided, p) else decided
    ensures HeldConsented(u)
  {
  }

  /** A change that touches neither events nor deliveries keeps numbering and openness. */
  lemma SameEvents(d: Directory, u: Directory)
    requires Numbered(d) && Open(d) && u == d.(contacts := u.contacts, held := u.held)
    ensures Numbered(u) && Open(u)
  {
    SameWaiting(d, u);
  }

  lemma DiscardKeeps(d: Directory, limits: Limits, p: Person, contact: Contact)
    requires Sound(d, limits) && p in d.held && p in d.contacts && d.contacts[p] != Accepted && contact != Unrequested
    requires d.held[p].disposition == Held ==> contact == Declined
    ensures var decided := d.(contacts := d.contacts[p := contact]);
      var u := if d.held[p].disposition == Held then Discard(decided, p) else decided;
      Sound(u, limits)
  {
    hide Sound, Consented, KeysApart, Open, Numbered, WithinLimits, Waiting, WaitingOf, HeldPeople;
    var decided := d.(contacts := d.contacts[p := contact]);
    var u := if d.held[p].disposition == Held then Discard(decided, p) else decided;
    SoundParts(d, limits);
    SameWaiting(d, u);
    SameEvents(d, u);
    DiscardConsents(d, u, p, contact);
    KeysStayApart(d.held, u.held);
    FewerKeepLimits(d, u, limits);
    SoundParts(u, limits);
  }

  lemma DeferKeeps(d: Directory, limits: Limits, p: Person)
    requires Sound(d, limits) && p in d.contacts && d.contacts[p] != Accepted
    ensures Sound(d.(contacts := d.contacts[p := Deferred]), limits)
  {
    hide Sound, Consented, KeysApart, Open, Numbered, WithinLimits, Waiting, WaitingOf, HeldPeople;
    var u := d.(contacts := d.contacts[p := Deferred]);
    SoundParts(d, limits);
    SameEvents(d, u);
    DeferConsents(d, u, p);
    SameLimits(d, u, limits);
    SoundParts(u, limits);
  }

  lemma DeferConsents(d: Directory, u: Directory, p: Person)
    requires Consented(d) && p in d.contacts && d.contacts[p] != Accepted && u == d.(contacts := d.contacts[p := Deferred])
    ensures Consented(u)
  {
    assert HeldConsented(u);
    hide HeldConsented, EventsConsented;
    EventsStayConsented(d, u);
  }

  lemma SameLimits(d: Directory, u: Directory, limits: Limits)
    requires WithinLimits(d, limits) && u.held == d.held
    requires u.inputs == d.inputs && u.delivered == d.delivered && u.suppressed == d.suppressed
    ensures WithinLimits(u, limits)
  {
    SameWaiting(d, u);
    assert HeldPeople(u) == HeldPeople(d);
    hide Waiting, WaitingOf, HeldPeople;
  }

  lemma DecisionKeeps(d: Directory, limits: Limits, p: Person, decision: Decision)
    requires Sound(d, limits) && limits.each >= 1 && CommitDecision(d, p, decision).Some?
    ensures Sound(CommitDecision(d, p, decision).value, limits)
  {
    hide KeysApart, Admit, Waiting, WaitingOf, HeldPeople, Load, Open, Numbered, WithinLimits, Release, Discard;
    if decision == Accept && d.held[p].disposition == Held {
      ReleaseKeeps(d, limits, p);
    } else if decision == Defer {
      DeferKeeps(d, limits, p);
    } else {
      DiscardKeeps(d, limits, p, if decision == Accept then Accepted else Declined);
    }
  }

  lemma SilenceKeeps(d: Directory, before: Directory, limits: Limits, e: Effect)
    requires e.Close? || e.Block?
    requires Sound(before, limits)
    requires d == if e.Close? then before.(closed := before.closed + {e.conversation})
                  else before.(blocked := before.blocked[e.person := e.revision])
    ensures Sound(Silence(d, e), limits)
  {
    hide Sound, Consented, KeysApart, Open, Numbered, WithinLimits, Waiting, WaitingOf, HeldPeople;
    var u := Silence(d, e);
    SoundParts(before, limits);
    SilenceQueues(d, before, e);
    SilenceConsents(d, before, e);
    SilenceNumbers(d, before, e);
    KeysStayApart(before.held, u.held);
    FewerKeepLimits(before, u, limits);
    SoundParts(u, limits);
  }

  lemma SilenceNumbers(d: Directory, before: Directory, e: Effect)
    requires Numbered(before) && d == before.(closed := d.closed, blocked := d.blocked)
    ensures Numbered(Silence(d, e))
  {
  }

  lemma SilenceQueues(d: Directory, before: Directory, e: Effect)
    requires e.Close? || e.Block?
    requires Open(before) && d == if e.Close? then before.(closed := before.closed + {e.conversation})
                                  else before.(blocked := before.blocked[e.person := e.revision])
    ensures var u := Silence(d, e);
      && Open(u) && Waiting(u) <= Waiting(before) && HeldPeople(u) <= HeldPeople(before)
      && forall q :: WaitingOf(u, q) <= WaitingOf(before, q)
  {
    var u := Silence(d, e);
    forall id ensures id in Waiting(u) ==> id in Waiting(before) && !Concerns(e, d.inputs[id].conversation, d.inputs[id].person) { }
  }

  lemma SilenceConsents(d: Directory, before: Directory, e: Effect)
    requires e.Close? || e.Block?
    requires Consented(before) && d == if e.Close? then before.(closed := before.closed + {e.conversation})
                                       else before.(blocked := before.blocked[e.person := e.revision])
    ensures Consented(Silence(d, e))
  {
    SilenceHeld(d, before, e);
    hide HeldConsented, EventsConsented;
    EventsStayConsented(before, Silence(d, e));
  }

  lemma SilenceHeld(d: Directory, before: Directory, e: Effect)
    requires e.Close? || e.Block?
    requires HeldConsented(before) && d == if e.Close? then before.(closed := before.closed + {e.conversation})
                                           else before.(blocked := before.blocked[e.person := e.revision])
    ensures HeldConsented(Silence(d, e))
  {
  }

  lemma ReopenKeeps(d: Directory, limits: Limits, u: Directory)
    requires Sound(d, limits) && u == d.(closed := u.closed, blocked := u.blocked)
    requires u.closed <= d.closed && u.blocked.Keys <= d.blocked.Keys
    ensures Sound(u, limits)
  {
    SameWaiting(d, u);
    SameLimits(d, u, limits);
    EventsStayConsented(d, u);
    hide WithinLimits, EventsConsented;
  }

  lemma EffectKeeps(d: Directory, limits: Limits, e: Effect)
    requires Sound(d, limits) && limits.each >= 1 && CommitEffect(d, e).Some?
    ensures Sound(CommitEffect(d, e).value, limits)
  {
    hide Sound, Silence, CommitDecision;
    match e
    case Decide(p, decision) => DecisionKeeps(d, limits, p, decision);
    case Close(c) => SilenceKeeps(d.(closed := d.closed + {c}), d, limits, e);
    case Block(p, revision) => SilenceKeeps(d.(blocked := d.blocked[p := revision]), d, limits, e);
    case Reopen(c) => ReopenKeeps(d, limits, d.(closed := d.closed - {c}));
    case Unblock(p, revision) => ReopenKeeps(d, limits, d.(blocked := d.blocked - {p}));
  }

  lemma {:induction false} EffectsKeep(d: Directory, limits: Limits, effects: seq<Effect>)
    requires Sound(d, limits) && limits.each >= 1 && CommitEffects(d, effects).Some?
    ensures Sound(CommitEffects(d, effects).value, limits)
  {
    hide Sound, CommitEffect;
    if effects != [] {
      EffectsKeep(d, limits, effects[..|effects| - 1]);
      EffectKeeps(CommitEffects(d, effects[..|effects| - 1]).value, limits, effects[|effects| - 1]);
    }
  }

  lemma DeliverKeeps(d: Directory, limits: Limits, entered: set<EventId>)
    requires Sound(d, limits) && forall id :: id in entered ==> 1 <= id <= d.events && id !in d.suppressed
    ensures Sound(d.(delivered := d.delivered + entered), limits)
  {
    var u := d.(delivered := d.delivered + entered);
    DeliverLimits(d, u, limits, entered);
    EventsStayConsented(d, u);
    hide WithinLimits, EventsConsented, KeysApart;
  }

  lemma DeliverLimits(d: Directory, u: Directory, limits: Limits, entered: set<EventId>)
    requires WithinLimits(d, limits) && u == d.(delivered := d.delivered + entered)
    ensures WithinLimits(u, limits)
  {
    assert HeldPeople(u) == HeldPeople(d);
    assert Waiting(u) <= Waiting(d) && forall q :: WaitingOf(u, q) <= WaitingOf(d, q);
    FewerKeepLimits(d, u, limits);
  }
}
