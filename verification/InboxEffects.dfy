/**
 What one publication does (dmn/conversations.py:249-279, dmn/contacts.py:92-110): the state of every
 conversation, participant, held message and input after a list of effects, read off the list.
 */
module InboxEffects {
  import opened Wrappers
  import opened Inbox

  /*------------------------------------------------------------------ what a list of effects says */

  /** Open or closed as the last effect on the conversation says. */
  function ClosedAfter(d: Directory, effects: seq<Effect>, c: Conversation): bool {
    if effects == [] then c in d.closed
    else
      match effects[|effects| - 1]
      case Close(x) => x == c || ClosedAfter(d, effects[..|effects| - 1], c)
      case Reopen(x) => x != c && ClosedAfter(d, effects[..|effects| - 1], c)
      case _ => ClosedAfter(d, effects[..|effects| - 1], c)
  }

  function BlockOf(d: Directory, p: Person): Option<nat> {
    if p in d.blocked then Some(d.blocked[p]) else None
  }

  /** Blocked, under which revision, or not, as the last effect on the participant says. */
  function BlockAfter(d: Directory, effects: seq<Effect>, p: Person): Option<nat> {
    if effects == [] then BlockOf(d, p)
    else
      match effects[|effects| - 1]
      case Block(x, revision) => if x == p then Some(revision) else BlockAfter(d, effects[..|effects| - 1], p)
      case Unblock(x, _) => if x == p then None else BlockAfter(d, effects[..|effects| - 1], p)
      case _ => BlockAfter(d, effects[..|effects| - 1], p)
  }

  function Answer(decision: Decision): Contact {
    match decision case Accept => Accepted case Decline => Declined case Defer => Deferred
  }

  /** Consent as the last decision about the participant says. */
  function ContactAfter(d: Directory, effects: seq<Effect>, p: Person): Contact {
    if effects == [] then ContactOf(d, p)
    else
      match effects[|effects| - 1]
      case Decide(x, decision) => if x == p then Answer(decision) else ContactAfter(d, effects[..|effects| - 1], p)
      case _ => ContactAfter(d, effects[..|effects| - 1], p)
  }

  /** A held message is released by acceptance and discarded by refusal, closing or blocking, whichever comes first. */
  function DispositionAfter(d: Directory, effects: seq<Effect>, p: Person): Disposition
    requires p in d.held
  {
    if effects == [] then d.held[p].disposition
    else
      var before := DispositionAfter(d, effects[..|effects| - 1], p);
      if before != Held then before
      else
        match effects[|effects| - 1]
        case Decide(x, decision) =>
          if x != p || decision == Defer then Held else if decision == Accept then Released else Discarded
        case Close(c) => if c == d.held[p].conversation then Discarded else Held
        case Block(x, _) => if x == p then Discarded else Held
        case _ => Held
  }

  predicate Stops(e: Effect, c: Conversation, p: Person) {
    (e.Close? && e.conversation == c) || (e.Block? && e.person == p)
  }

  predicate Stopped(effects: seq<Effect>, c: Conversation, p: Person) {
    exists i :: 0 <= i < |effects| && Stops(effects[i], c, p)
  }

  predicate Releases(d: Directory, effects: seq<Effect>, p: Person) {
    p in d.held && d.held[p].disposition == Held && DispositionAfter(d, effects, p) == Released
  }

  /** The effect can be applied after those before it. */
  predicate Applies(d: Directory, effects: seq<Effect>, i: nat)
    requires i < |effects|
  {
    match effects[i]
    case Decide(p, decision) =>
      && p in d.contacts && ContactAfter(d, effects[..i], p) != Accepted
      && (decision == Accept ==> BlockAfter(d, effects[..i], p) == None)
      && (decision == Accept && p in d.held && DispositionAfter(d, effects[..i], p) == Held ==> d.held[p].key !in d.keys)
    case Unblock(p, revision) => BlockAfter(d, effects[..i], p) == Some(revision)
    case _ => true
  }

  /*------------------------------------------------------------------ what the directory is afterwards */

  ghost predicate ConversationsMeet(d: Directory, effects: seq<Effect>, u: Directory) {
    u.owner == d.owner && forall c :: c in u.closed <==> ClosedAfter(d, effects, c)
  }

  ghost predicate PeopleMeet(d: Directory, effects: seq<Effect>, u: Directory) {
    && (forall p :: BlockOf(u, p) == BlockAfter(d, effects, p))
    && u.contacts.Keys == d.contacts.Keys && (forall p :: ContactOf(u, p) == ContactAfter(d, effects, p))
  }

  ghost predicate HeldMeet(d: Directory, effects: seq<Effect>, u: Directory) {
    && u.held.Keys == d.held.Keys
    && forall p :: p in d.held ==> u.held[p] == d.held[p].(disposition := DispositionAfter(d, effects, p))
  }

  /** The input with this number is the released first message of `p`. */
  ghost predicate ReleasedAs(d: Directory, effects: seq<Effect>, u: Directory, id: EventId, p: Person) {
    && Releases(d, effects, p) && id in u.inputs
    && u.inputs[id] == Input(d.held[p].conversation, p, d.held[p].content)
    && d.held[p].key in u.keys && u.keys[d.held[p].key] == id
  }

  ghost predicate IsReleased(d: Directory, effects: seq<Effect>, u: Directory, id: EventId) {
    exists p :: ReleasedAs(d, effects, u, id, p)
  }

  ghost predicate HasInput(d: Directory, effects: seq<Effect>, u: Directory, p: Person) {
    exists id :: id > d.events && ReleasedAs(d, effects, u, id, p)
  }

  ghost predicate IsReleasedKey(d: Directory, effects: seq<Effect>, k: Key) {
    exists p :: Releases(d, effects, p) && d.held[p].key == k
  }

  /** Inputs stay, and the new ones are the released messages, each under its own key. */
  ghost predicate InputsMeet(d: Directory, effects: seq<Effect>, u: Directory) {
    && d.events <= u.events
    && (forall id :: id in d.inputs ==> id in u.inputs && u.inputs[id] == d.inputs[id])
    && (forall k :: k in d.keys ==> k in u.keys && u.keys[k] == d.keys[k])
    && (forall id :: id in u.inputs && id !in d.inputs ==> IsReleased(d, effects, u, id))
    && (forall p :: Releases(d, effects, p) ==> HasInput(d, effects, u, p))
    && (forall k :: k in u.keys && k !in d.keys ==> IsReleasedKey(d, effects, k))
  }

  /** Undelivered input of a conversation that was closed or a participant that was blocked is suppressed, and nothing else. */
  ghost predicate SuppressionMeets(d: Directory, effects: seq<Effect>, u: Directory) {
    && u.delivered == d.delivered
    && (forall id :: id in d.inputs ==>
          (id in u.suppressed <==>
             id in d.suppressed || (id !in d.delivered && Stopped(effects, d.inputs[id].conversation, d.inputs[id].person))))
    && (forall id :: id in u.suppressed && id !in d.inputs ==>
          id in d.suppressed || (id in u.inputs && Stopped(effects, u.inputs[id].conversation, u.inputs[id].person)))
  }

  ghost predicate Meets(d: Directory, effects: seq<Effect>, u: Directory) {
    && ConversationsMeet(d, effects, u) && PeopleMeet(d, effects, u) && HeldMeet(d, effects, u)
    && InputsMeet(d, effects, u) && SuppressionMeets(d, effects, u)
  }

  /*------------------------------------------------------------------ one more effect */

  lemma MoreConversations(d: Directory, effects: seq<Effect>, e: Effect, m: Directory, u: Directory)
    requires ConversationsMeet(d, effects, m) && CommitEffect(m, e) == Some(u)
    ensures ConversationsMeet(d, effects + [e], u)
  {
    assert (effects + [e])[..|effects|] == effects;
  }

  lemma PeopleByEffect(m: Directory, e: Effect, p: Person)
    requires CommitEffect(m, e).Some?
    ensures var u := CommitEffect(m, e).value;
      && u.contacts.Keys == m.contacts.Keys
      && ContactOf(u, p) == (if e.Decide? && e.person == p then Answer(e.decision) else ContactOf(m, p))
      && BlockOf(u, p) == if e.Block? && e.person == p then Some(e.revision) else if e.Unblock? && e.person == p then None else BlockOf(m, p)
  {
  }

  lemma MorePeople(d: Directory, effects: seq<Effect>, e: Effect, m: Directory, u: Directory)
    requires PeopleMeet(d, effects, m) && CommitEffect(m, e) == Some(u)
    ensures PeopleMeet(d, effects + [e], u)
  {
    hide CommitEffect, ContactOf, BlockOf;
    assert (effects + [e])[..|effects|] == effects;
    forall p ensures BlockOf(u, p) == BlockAfter(d, effects + [e], p) && ContactOf(u, p) == ContactAfter(d, effects + [e], p) {
      PeopleByEffect(m, e, p);
    }
    PeopleByEffect(m, e, 0);
  }

  /** What one effect does to a held message of a sound directory. */
  lemma HeldByEffect(m: Directory, limits: Limits, e: Effect, p: Person)
    requires Inbox.Sound(m, limits) && CommitEffect(m, e).Some? && p in m.held
    ensures var u, h := CommitEffect(m, e).value, m.held[p];
      && u.held.Keys == m.held.Keys
      && u.held[p] == if h.disposition != Held then h
                      else if e.Decide? && e.person == p && e.decision == Accept then h.(disposition := Released)
                      else if (e.Decide? && e.person == p && e.decision == Decline) || Stops(e, h.conversation, p)
                      then h.(disposition := Discarded) else h
  {
    hide Numbered, Open, WithinLimits, KeysApart, EventsConsented;
  }

  lemma MoreHeld(d: Directory, limits: Limits, effects: seq<Effect>, e: Effect, m: Directory, u: Directory)
    requires HeldMeet(d, effects, m) && Inbox.Sound(m, limits) && CommitEffect(m, e) == Some(u)
    ensures HeldMeet(d, effects + [e], u)
  {
    hide Inbox.Sound, CommitEffect;
    assert (effects + [e])[..|effects|] == effects;
    EffectKeepsHeldKeys(m, e);
    forall p | p in d.held ensures u.held[p] == d.held[p].(disposition := DispositionAfter(d, effects + [e], p)) {
      HeldByEffect(m, limits, e, p);
    }
  }

  lemma EffectKeepsHeldKeys(m: Directory, e: Effect)
    requires CommitEffect(m, e).Some?
    ensures CommitEffect(m, e).value.held.Keys == m.held.Keys
  {
  }

  lemma StoppedMore(effects: seq<Effect>, e: Effect, c: Conversation, p: Person)
    ensures Stopped(effects + [e], c, p) <==> Stopped(effects, c, p) || Stops(e, c, p)
  {
    if Stopped(effects, c, p) {
      var i :| 0 <= i < |effects| && Stops(effects[i], c, p);
      assert Stops((effects + [e])[i], c, p);
    }
    if Stops(e, c, p) { assert Stops((effects + [e])[|effects|], c, p); }
  }

  /** What one effect suppresses. */
  lemma SuppressedByEffect(m: Directory, e: Effect, id: EventId)
    requires CommitEffect(m, e).Some? && id in m.inputs
    ensures var u := CommitEffect(m, e).value;
      && u.delivered == m.delivered
      && (id in u.suppressed <==>
            id in m.suppressed || (id !in m.delivered && Stops(e, m.inputs[id].conversation, m.inputs[id].person)))
  {
  }

  lemma DeliveredByEffect(m: Directory, e: Effect)
    requires CommitEffect(m, e).Some?
    ensures CommitEffect(m, e).value.delivered == m.delivered
  {
  }

  /** Nothing but known input is suppressed, and no input changes. */
  lemma SuppressedIsKnown(m: Directory, limits: Limits, e: Effect, id: EventId)
    requires Inbox.Sound(m, limits) && CommitEffect(m, e).Some?
    ensures var u := CommitEffect(m, e).value;
      && (id in u.suppressed ==> id in m.inputs)
      && (id in m.inputs ==> id in u.inputs && u.inputs[id] == m.inputs[id])
  {
    hide Open, Consented, WithinLimits, KeysApart;
  }

  lemma MoreSuppression(d: Directory, limits: Limits, effects: seq<Effect>, e: Effect, m: Directory, u: Directory)
    requires SuppressionMeets(d, effects, m) && InputsMeet(d, effects, m) && Inbox.Sound(m, limits) && CommitEffect(m, e) == Some(u)
    ensures SuppressionMeets(d, effects + [e], u)
  {
    hide CommitEffect, Stopped, Stops, Inbox.Sound;
    DeliveredByEffect(m, e);
    forall id | id in d.inputs
      ensures id in u.suppressed <==>
        (id in d.suppressed || (id !in d.delivered && Stopped(effects + [e], d.inputs[id].conversation, d.inputs[id].person))) {
      SuppressedByEffect(m, e, id);
      StoppedMore(effects, e, d.inputs[id].conversation, d.inputs[id].person);
    }
    forall id | id in u.suppressed && id !in d.inputs
      ensures id in d.suppressed || (id in u.inputs && Stopped(effects + [e], u.inputs[id].conversation, u.inputs[id].person)) {
      SuppressedIsKnown(m, limits, e, id);
      SuppressedByEffect(m, e, id);
      StoppedMore(effects, e, m.inputs[id].conversation, m.inputs[id].person);
    }
  }

  /** The inputs after one effect: a released message is the one addition. */
  lemma InputsByEffect(m: Directory, limits: Limits, e: Effect)
    requires Inbox.Sound(m, limits) && CommitEffect(m, e).Some?
    ensures var u := CommitEffect(m, e).value;
      if e.Decide? && e.decision == Accept && e.person in m.held && m.held[e.person].disposition == Held then
        var h, id := m.held[e.person], m.events + 1;
        && h.key !in m.keys && id !in m.inputs && u.events == id
        && u.inputs == m.inputs[id := Input(h.conversation, e.person, h.content)] && u.keys == m.keys[h.key := id]
      else u.inputs == m.inputs && u.keys == m.keys && u.events == m.events
  {
    hide Open, WithinLimits, KeysApart, EventsConsented;
  }

  lemma ReleasesMore(d: Directory, effects: seq<Effect>, e: Effect, p: Person)
    ensures Releases(d, effects + [e], p) <==>
      Releases(d, effects, p)
      || (p in d.held && DispositionAfter(d, effects, p) == Held && d.held[p].disposition == Held
          && e.Decide? && e.person == p && e.decision == Accept)
  {
    assert (effects + [e])[..|effects|] == effects;
    if p in d.held { HeldFromTheStart(d, effects, p); }
  }

  lemma {:induction false} HeldFromTheStart(d: Directory, effects: seq<Effect>, p: Person)
    requires p in d.held
    ensures DispositionAfter(d, effects, p) == Held ==> d.held[p].disposition == Held
    ensures d.held[p].disposition != Held ==> DispositionAfter(d, effects, p) == d.held[p].disposition
  {
    if effects != [] { HeldFromTheStart(d, effects[..|effects| - 1], p); }
  }

  /** The next step adds the message of `p0` under its own key; everything that was there stays. */
  ghost predicate AddsMessage(m: Directory, u: Directory, p0: Person) {
    p0 in m.held && m.held[p0].disposition == Held
    && var h, id := m.held[p0], m.events + 1;
       && h.key !in m.keys && id !in m.inputs && u.events == id
       && u.inputs == m.inputs[id := Input(h.conversation, p0, h.content)] && u.keys == m.keys[h.key := id]
  }

  lemma NewMessage(d: Directory, effects: seq<Effect>, m: Directory, u: Directory, p0: Person)
    requires InputsMeet(d, effects, m) && HeldMeet(d, effects, m) && AddsMessage(m, u, p0)
    ensures ReleasedAs(d, effects + [Decide(p0, Accept)], u, m.events + 1, p0)
    ensures IsReleased(d, effects + [Decide(p0, Accept)], u, m.events + 1)
    ensures HasInput(d, effects + [Decide(p0, Accept)], u, p0)
    ensures IsReleasedKey(d, effects + [Decide(p0, Accept)], m.held[p0].key)
  {
    ReleasesMore(d, effects, Decide(p0, Accept), p0);
    HeldFromTheStart(d, effects, p0);
    hide DispositionAfter, Releases;
    assert ReleasedAs(d, effects + [Decide(p0, Accept)], u, m.events + 1, p0);
  }

  lemma OldMessage(d: Directory, effects: seq<Effect>, m: Directory, u: Directory, p0: Person, id: EventId, p: Person)
    requires AddsMessage(m, u, p0) && ReleasedAs(d, effects, m, id, p)
    ensures ReleasedAs(d, effects + [Decide(p0, Accept)], u, id, p)
  {
    ReleasesMore(d, effects, Decide(p0, Accept), p);
    hide DispositionAfter, Releases;
  }

  lemma ReleaseMeets(d: Directory, effects: seq<Effect>, m: Directory, u: Directory, p0: Person)
    requires InputsMeet(d, effects, m) && HeldMeet(d, effects, m) && AddsMessage(m, u, p0)
    ensures InputsMeet(d, effects + [Decide(p0, Accept)], u)
  {
    var id0, all := m.events + 1, effects + [Decide(p0, Accept)];
    NewMessage(d, effects, m, u, p0);
    hide DispositionAfter, Releases, ReleasedAs, HeldMeet;
    forall id | id in u.inputs && id !in d.inputs ensures IsReleased(d, all, u, id) {
      if id != id0 {
        var p :| ReleasedAs(d, effects, m, id, p);
        OldMessage(d, effects, m, u, p0, id, p);
      }
    }
    forall p | Releases(d, all, p) ensures HasInput(d, all, u, p) {
      if p != p0 {
        ReleasesMore(d, effects, Decide(p0, Accept), p);
        var id :| id > d.events && ReleasedAs(d, effects, m, id, p);
        OldMessage(d, effects, m, u, p0, id, p);
      }
    }
    ReleasedKeysStay(d, effects, Decide(p0, Accept));
  }

  lemma ReleasedKeysStay(d: Directory, effects: seq<Effect>, e: Effect)
    ensures forall k :: IsReleasedKey(d, effects, k) ==> IsReleasedKey(d, effects + [e], k)
  {
    forall k | IsReleasedKey(d, effects, k) ensures IsReleasedKey(d, effects + [e], k) {
      var p :| Releases(d, effects, p) && d.held[p].key == k;
      ReleasesMore(d, effects, e, p);
    }
  }

  lemma NoReleaseMeets(d: Directory, effects: seq<Effect>, e: Effect, m: Directory, u: Directory)
    requires InputsMeet(d, effects, m) && HeldMeet(d, effects, m)
    requires !(e.Decide? && e.decision == Accept && e.person in m.held && m.held[e.person].disposition == Held)
    requires u.inputs == m.inputs && u.keys == m.keys && u.events == m.events
    ensures InputsMeet(d, effects + [e], u)
  {
    var all := effects + [e];
    forall p ensures Releases(d, all, p) <==> Releases(d, effects, p) { ReleasesMore(d, effects, e, p); }
    hide DispositionAfter, Releases;
    forall id | id in u.inputs && id !in d.inputs ensures IsReleased(d, all, u, id) {
      var p :| ReleasedAs(d, effects, m, id, p);
      assert ReleasedAs(d, all, u, id, p);
    }
    forall p | Releases(d, all, p) ensures HasInput(d, all, u, p) {
      var id :| id > d.events && ReleasedAs(d, effects, m, id, p);
      assert ReleasedAs(d, all, u, id, p);
    }
    ReleasedKeysStay(d, effects, e);
  }

  lemma MoreInputs(d: Directory, limits: Limits, effects: seq<Effect>, e: Effect, m: Directory, u: Directory)
    requires InputsMeet(d, effects, m) && HeldMeet(d, effects, m) && Inbox.Sound(m, limits) && CommitEffect(m, e) == Some(u)
    ensures InputsMeet(d, effects + [e], u)
  {
    hide Inbox.Sound, CommitEffect, InputsMeet, HeldMeet;
    InputsByEffect(m, limits, e);
    if e.Decide? && e.decision == Accept && e.person in m.held && m.held[e.person].disposition == Held {
      ReleaseMeets(d, effects, m, u, e.person);
      assert e == Decide(e.person, Accept);
    } else {
      NoReleaseMeets(d, effects, e, m, u);
    }
  }

  /*------------------------------------------------------------------ the whole list */

  lemma NothingMeets(d: Directory)
    ensures Meets(d, [], d)
  {
  }

  /** A list that was applied leaves the directory that the list describes. */
  lemma {:induction false} EffectsMeet(d: Directory, limits: Limits, effects: seq<Effect>)
    requires Inbox.Sound(d, limits) && limits.each >= 1 && CommitEffects(d, effects).Some?
    ensures Meets(d, effects, CommitEffects(d, effects).value)
  {
    hide Inbox.Sound, CommitEffect, ConversationsMeet, PeopleMeet, HeldMeet, InputsMeet, SuppressionMeets;
    if effects == [] {
      NothingMeets(d);
    } else {
      var front, e := effects[..|effects| - 1], effects[|effects| - 1];
      var m, u := CommitEffects(d, front).value, CommitEffects(d, effects).value;
      EffectsMeet(d, limits, front);
      EffectsKeep(d, limits, front);
      assert front + [e] == effects;
      MoreConversations(d, front, e, m, u);
      MorePeople(d, front, e, m, u);
      MoreHeld(d, limits, front, e, m, u);
      MoreInputs(d, limits, front, e, m, u);
      MoreSuppression(d, limits, front, e, m, u);
    }
  }

  /** The next effect can be applied exactly when the list says so. */
  lemma NextApplies(d: Directory, limits: Limits, effects: seq<Effect>, m: Directory)
    requires effects != [] && Inbox.Sound(m, limits) && KeysApart(d.held)
    requires Meets(d, effects[..|effects| - 1], m)
    ensures CommitEffect(m, effects[|effects| - 1]).Some? <==> Applies(d, effects, |effects| - 1)
  {
    var front, e := effects[..|effects| - 1], effects[|effects| - 1];
    hide Inbox.Sound, ContactAfter, BlockAfter, DispositionAfter, ConversationsMeet, SuppressionMeets;
    if e.Decide? {
      KeyIsFree(d, front, m, e.person);
      HeldIsInOpen(m, limits, e.person);
      hide InputsMeet;
    } else if e.Unblock? {
      hide InputsMeet, HeldMeet;
      assert BlockOf(m, e.person) == BlockAfter(d, front, e.person);
    }
  }

  lemma HeldIsInOpen(m: Directory, limits: Limits, p: Person)
    requires Inbox.Sound(m, limits)
    ensures p in m.held && m.held[p].disposition == Held ==> m.held[p].conversation !in m.closed
  {
  }

  /** Releases take only their own keys. */
  lemma KeyIsFree(d: Directory, effects: seq<Effect>, m: Directory, p: Person)
    requires KeysApart(d.held) && InputsMeet(d, effects, m) && HeldMeet(d, effects, m)
    ensures p in m.held && m.held[p].disposition == Held ==> (m.held[p].key in m.keys <==> d.held[p].key in d.keys)
  {
    hide DispositionAfter;
    if p in d.held && IsReleasedKey(d, effects, d.held[p].key) {
      var q :| Releases(d, effects, q) && d.held[q].key == d.held[p].key;
      assert q == p && Releases(d, effects, p);
    }
  }

  /** A list is applied exactly when each of its effects can be applied after those before it. */
  lemma {:induction false} EffectsApplyExactly(d: Directory, limits: Limits, effects: seq<Effect>)
    requires Inbox.Sound(d, limits) && limits.each >= 1
    ensures CommitEffects(d, effects).Some? <==> forall i :: 0 <= i < |effects| ==> Applies(d, effects, i)
  {
    hide Inbox.Sound, CommitEffect, Meets, Applies;
    if effects != [] {
      var front := effects[..|effects| - 1];
      EffectsApplyExactly(d, limits, front);
      forall i | 0 <= i < |front| ensures Applies(d, effects, i) <==> Applies(d, front, i) { AppliesInFront(d, effects, i); }
      if CommitEffects(d, front).Some? {
        EffectsMeet(d, limits, front);
        EffectsKeep(d, limits, front);
        KeysAreApart(d, limits);
        NextApplies(d, limits, effects, CommitEffects(d, front).value);
      }
    }
  }

  lemma AppliesInFront(d: Directory, effects: seq<Effect>, i: nat)
    requires i < |effects| - 1
    ensures Applies(d, effects, i) <==> Applies(d, effects[..|effects| - 1], i)
  {
    assert effects[..|effects| - 1][..i] == effects[..i];
  }

  lemma KeysAreApart(d: Directory, limits: Limits)
    requires Inbox.Sound(d, limits)
    ensures KeysApart(d.held)
  {
  }
}
