/**
 How addressed input enters the sequence (dmn/runtime.py:819-828, 1488-1493, 1709-1729,
 dmn/conversations.py:194-212): admission, checkpoints and crashes.
 */
module Delivery {
  import opened Wrappers
  import opened Inbox
  import opened InboxEffects

  /** What a checkpoint holds: the event cursor and the events in the saved sequence. */
  datatype Saved = Saved(cursor: nat, entered: seq<EventId>)

  /** The running process: its own cursor and sequence, deliveries not yet published, an event being admitted. */
  datatype State = State(d: Directory, saved: Saved, cursor: nat, entered: seq<EventId>,
                         unpublished: set<EventId>, picked: Option<EventId>)

  /** The first event after the cursor that is not suppressed. */
  function NextEvent(d: Directory, cursor: nat): Option<EventId>
    decreases d.events - cursor
  {
    if cursor >= d.events then None
    else if cursor + 1 !in d.suppressed then Some(cursor + 1)
    else NextEvent(d, cursor + 1)
  }

  predicate Admissible(d: Directory, id: EventId) {
    && id in d.inputs && d.inputs[id].conversation !in d.closed && d.inputs[id].person !in d.blocked
    && id !in d.suppressed
  }

  datatype Op =
    | Registering(conversation: Conversation, person: Person)
    | Announcing
    | Enqueuing(conversation: Conversation, key: Key, content: Content)
    | Picking
    | Entering
    | Checkpointing(effects: seq<Effect>)
    | Crashing

  /** The picked event enters unless it stopped being admissible while room was made for it. */
  function Enter(s: State): State {
    if s.picked.None? then s
    else
      var id := s.picked.value;
      if id in s.d.inputs && !Admissible(s.d, id) then s.(picked := None)
      else s.(entered := s.entered + [id], cursor := id, unpublished := s.unpublished + {id}, picked := None)
  }

  function Checkpoint(s: State, effects: seq<Effect>): State {
    match Publish(s.d, s.unpublished, effects)
    case None => s
    case Some(d) => s.(d := d, saved := Saved(s.cursor, s.entered), unpublished := {})
  }

  function Crash(s: State): State {
    s.(cursor := s.saved.cursor, entered := s.saved.entered, unpublished := {}, picked := None)
  }

  function WithDirectory(s: State, d: Option<Directory>): State {
    if d.Some? then s.(d := d.value) else s
  }

  function Apply(s: State, op: Op, limits: Limits): State {
    match op
    case Registering(c, p) => WithDirectory(s, Register(s.d, c, p))
    case Announcing => s.(d := Announce(s.d))
    case Enqueuing(c, key, content) => WithDirectory(s, Enqueue(s.d, limits, c, key, content))
    case Picking => if s.picked.Some? then s else s.(picked := NextEvent(s.d, s.cursor))
    case Entering => Enter(s)
    case Checkpointing(effects) => Checkpoint(s, effects)
    case Crashing => Crash(s)
  }

  /** The runtime's own fields, over the shared store. */
  class Runtime {
    var directory: Directory
    var saved: Saved
    var cursor: nat
    var entered: seq<EventId>
    var unpublished: set<EventId>
    var picked: Option<EventId>

    ghost function Now(): State
      reads this
    {
      State(directory, saved, cursor, entered, unpublished, picked)
    }

    constructor (store: Directory, checkpoint: Saved)
      ensures Now() == State(store, checkpoint, checkpoint.cursor, checkpoint.entered, {}, None)
    {
      directory, saved := store, checkpoint;
      cursor, entered, unpublished, picked := checkpoint.cursor, checkpoint.entered, {}, None;
    }

    method Pick()
      requires picked == None
      modifies this`picked
      ensures Now() == Apply(old(Now()), Picking, Limits(0, 0))
    {
      var at := cursor;
      while at < directory.events && at + 1 in directory.suppressed
        invariant NextEvent(directory, at) == NextEvent(directory, cursor)
      {
        at := at + 1;
      }
      picked := if at < directory.events then Some(at + 1) else None;
    }

    method EnterPicked() returns (entering: bool)
      modifies this`entered, this`cursor, this`unpublished, this`picked
      ensures Now() == Enter(old(Now()))
      ensures picked == None
      ensures entering <==> old(picked).Some? && (old(picked).value in directory.inputs ==> Admissible(directory, old(picked).value))
      ensures entered == old(entered) + if entering then [old(picked).value] else []
      ensures cursor == if entering then old(picked).value else old(cursor)
      ensures unpublished == old(unpublished) + if entering then {old(picked).value} else {}
    {
      entering := false;
      if picked.Some? {
        var id := picked.value;
        picked := None;
        if id in directory.inputs && !Admissible(directory, id) {
          return;
        }
        entered := entered + [id];
        cursor := id;
        unpublished := unpublished + {id};
        entering := true;
      }
    }

    method SaveCheckpoint(effects: seq<Effect>, ghost limits: Limits) returns (ok: bool)
      requires SoundState(Now(), limits) && limits.each >= 1
      modifies this`directory, this`saved, this`unpublished
      ensures Now() == Checkpoint(old(Now()), effects)
      ensures Saves(old(Now()), effects, Now(), ok)
    {
      CheckpointSaves(Now(), limits, effects);
      var published := PublishAll(directory, unpublished, effects);
      ok := published.Some?;
      if ok {
        directory := published.value;
        saved := Saved(cursor, entered);
        unpublished := {};
      }
    }
  }

  /**
   A checkpoint succeeds exactly when each of its effects can be applied; then cursor and sequence are saved,
   exactly what had entered is delivered, and the directory is what the effects say. Otherwise nothing changes.
   */
  ghost predicate Saves(s: State, effects: seq<Effect>, t: State, ok: bool) {
    var d := s.d.(delivered := s.d.delivered + s.unpublished);
    && (ok <==> forall i :: 0 <= i < |effects| ==> Applies(d, effects, i))
    && if ok then
         && t.saved == Saved(s.cursor, s.entered) && t.unpublished == {}
         && t.cursor == s.cursor && t.entered == s.entered && t.picked == s.picked
         && t.d.delivered == s.d.delivered + s.unpublished && Meets(d, effects, t.d)
       else t == s
  }

  lemma CheckpointSaves(s: State, limits: Limits, effects: seq<Effect>)
    requires SoundState(s, limits) && limits.each >= 1
    ensures Saves(s, effects, Checkpoint(s, effects), Publish(s.d, s.unpublished, effects).Some?)
  {
    hide Inbox.Sound, Unsuppressed, CommitEffects, Applies, ConversationsMeet, PeopleMeet, HeldMeet, InputsMeet;
    var d := s.d.(delivered := s.d.delivered + s.unpublished);
    UnpublishedFits(s, limits);
    DeliverKeeps(s.d, limits, s.unpublished);
    EffectsApplyExactly(d, limits, effects);
    if CommitEffects(d, effects).Some? { EffectsMeet(d, limits, effects); }
  }

  /*------------------------------------------------------------------ what holds in every state */

  /** Every event up to `n` that is not suppressed, in order. */
  function Unsuppressed(suppressed: set<EventId>, n: nat): seq<EventId> {
    if n == 0 then []
    else if n in suppressed then Unsuppressed(suppressed, n - 1) else Unsuppressed(suppressed, n - 1) + [n]
  }

  ghost predicate SoundState(s: State, limits: Limits) {
    && Inbox.Sound(s.d, limits)
    && s.saved.cursor <= s.cursor <= s.d.events
    && s.saved.entered == Unsuppressed(s.d.suppressed, s.saved.cursor)
    && s.entered == Unsuppressed(s.d.suppressed, s.cursor)
    && (forall id :: id in s.d.delivered <==> 1 <= id <= s.saved.cursor && id !in s.d.suppressed)
    && (forall id :: id in s.unpublished <==> s.saved.cursor < id <= s.cursor && id !in s.d.suppressed)
    && (s.picked.Some? ==>
          && s.cursor < s.picked.value <= s.d.events
          && forall id :: s.cursor < id < s.picked.value ==> id in s.d.suppressed)
  }

  lemma {:induction false} SameUnsuppressed(a: set<EventId>, b: set<EventId>, n: nat)
    requires forall id :: 1 <= id <= n ==> (id in a <==> id in b)
    ensures Unsuppressed(a, n) == Unsuppressed(b, n)
  {
    if n > 0 { SameUnsuppressed(a, b, n - 1); }
  }

  lemma {:induction false} Skipping(suppressed: set<EventId>, low: nat, high: nat)
    requires low <= high && forall id :: low < id <= high ==> id in suppressed
    ensures Unsuppressed(suppressed, high) == Unsuppressed(suppressed, low)
    decreases high
  {
    if low != high {
      Skipping(suppressed, low, high - 1);
    }
  }

  lemma {:induction false} NextIsFirst(d: Directory, cursor: nat)
    ensures var r := NextEvent(d, cursor);
      && (r.Some? ==> cursor < r.value <= d.events && r.value !in d.suppressed
                      && forall id :: cursor < id < r.value ==> id in d.suppressed)
      && (r.None? ==> forall id :: cursor < id <= d.events ==> id in d.suppressed)
    decreases d.events - cursor
  {
    if cursor < d.events { NextIsFirst(d, cursor + 1); }
  }

  /** An input that was picked is refused at the boundary exactly when it has been suppressed. */
  lemma RefusedMeansSuppressed(s: State, limits: Limits, id: EventId)
    requires SoundState(s, limits) && id in s.d.inputs && id > s.saved.cursor
    ensures Admissible(s.d, id) <==> id !in s.d.suppressed
  {
    assert id in Waiting(s.d) <==> id !in s.d.suppressed;
  }

  lemma EnterKeeps(s: State, limits: Limits)
    requires SoundState(s, limits)
    ensures SoundState(Enter(s), limits)
  {
    hide Inbox.Sound, Admissible;
    if s.picked.Some? {
      var id := s.picked.value;
      Skipping(s.d.suppressed, s.cursor, id - 1);
      if id in s.d.inputs { RefusedMeansSuppressed(s, limits, id); }
      InboxNumbered(s.d, limits);
    }
  }

  /** Effects touch neither deliveries nor anything delivered, and never lift a suppression. */
  ghost predicate Respects(before: Directory, after: Directory) {
    && before.events <= after.events && after.delivered == before.delivered
    && before.suppressed <= after.suppressed
    && forall id :: id in after.suppressed && id !in before.suppressed ==> id !in before.delivered
  }

  lemma EffectRespects(d: Directory, e: Effect)
    requires CommitEffect(d, e).Some?
    ensures Respects(d, CommitEffect(d, e).value)
  {
  }

  lemma {:induction false} EffectsRespect(d: Directory, effects: seq<Effect>)
    requires CommitEffects(d, effects).Some?
    ensures Respects(d, CommitEffects(d, effects).value)
  {
    hide CommitEffect;
    if effects != [] {
      EffectsRespect(d, effects[..|effects| - 1]);
      EffectRespects(CommitEffects(d, effects[..|effects| - 1]).value, effects[|effects| - 1]);
    }
  }

  lemma CheckpointKeeps(s: State, limits: Limits, effects: seq<Effect>)
    requires SoundState(s, limits) && limits.each >= 1
    ensures SoundState(Checkpoint(s, effects), limits)
  {
    hide Inbox.Sound, CommitEffects, Respects, Unsuppressed;
    var published := s.d.(delivered := s.d.delivered + s.unpublished);
    if Publish(s.d, s.unpublished, effects).Some? {
      UnpublishedFits(s, limits);
      DeliverKeeps(s.d, limits, s.unpublished);
      EffectsKeep(published, limits, effects);
      EffectsRespect(published, effects);
      PublishedIsSound(s, limits, Publish(s.d, s.unpublished, effects).value);
    }
  }

  lemma UnpublishedFits(s: State, limits: Limits)
    requires SoundState(s, limits)
    ensures forall id :: id in s.unpublished ==> 1 <= id <= s.d.events && id !in s.d.suppressed
  {
    hide Inbox.Sound, Unsuppressed;
  }

  /** What a successful publication leaves, the runtime's cursor being saved with it. */
  lemma PublishedIsSound(s: State, limits: Limits, d: Directory)
    requires SoundState(s, limits) && Inbox.Sound(d, limits)
    requires Respects(s.d.(delivered := s.d.delivered + s.unpublished), d)
    ensures SoundState(s.(d := d, saved := Saved(s.cursor, s.entered), unpublished := {}), limits)
  {
    hide Inbox.Sound, Unsuppressed;
    SuppressesOnlyLater(s, limits, d);
    SameUnsuppressed(s.d.suppressed, d.suppressed, s.cursor);
  }

  lemma SuppressesOnlyLater(s: State, limits: Limits, d: Directory)
    requires SoundState(s, limits) && Respects(s.d.(delivered := s.d.delivered + s.unpublished), d)
    ensures forall id :: 1 <= id <= s.cursor ==> (id in d.suppressed <==> id in s.d.suppressed)
  {
    hide Inbox.Sound, Unsuppressed;
  }

  lemma DirectoryKeeps(s: State, limits: Limits, d: Directory)
    requires SoundState(s, limits) && Inbox.Sound(d, limits) && s.d.events <= d.events
    requires d.delivered == s.d.delivered && d.suppressed == s.d.suppressed
    ensures SoundState(s.(d := d), limits)
  {
    hide Inbox.Sound;
  }

  lemma RegisterKeeps(d: Directory, limits: Limits, c: Conversation, p: Person)
    requires Inbox.Sound(d, limits) && Register(d, c, p).Some?
    ensures Inbox.Sound(Register(d, c, p).value, limits)
  {
    ReopenLike(d, Register(d, c, p).value, limits);
  }

  lemma ReopenLike(d: Directory, u: Directory, limits: Limits)
    requires Inbox.Sound(d, limits) && u == d.(owner := u.owner, events := u.events) && d.events <= u.events
    ensures Inbox.Sound(u, limits)
  {
    SameWaiting(d, u);
    assert HeldPeople(u) == HeldPeople(d);
  }

  lemma StepKeeps(s: State, op: Op, limits: Limits)
    requires SoundState(s, limits) && limits.each >= 1
    ensures SoundState(Apply(s, op, limits), limits)
  {
    hide Inbox.Sound, Checkpoint, Enter, Unsuppressed;
    match op
    case Registering(c, p) =>
      if Register(s.d, c, p).Some? {
        RegisterKeeps(s.d, limits, c, p);
        DirectoryKeeps(s, limits, Register(s.d, c, p).value);
      }
    case Announcing =>
      ReopenLike(s.d, Announce(s.d), limits);
      DirectoryKeeps(s, limits, Announce(s.d));
    case Enqueuing(c, key, content) =>
      if Enqueue(s.d, limits, c, key, content).Some? {
        EnqueueKeeps(s.d, limits, c, key, content);
        DirectoryKeeps(s, limits, Enqueue(s.d, limits, c, key, content).value);
      }
    case Picking => NextIsFirst(s.d, s.cursor);
    case Entering => EnterKeeps(s, limits);
    case Checkpointing(effects) => CheckpointKeeps(s, limits, effects);
    case Crashing =>
  }

  function Run(s: State, ops: seq<Op>, limits: Limits): State {
    if ops == [] then s else Apply(Run(s, ops[..|ops| - 1], limits), ops[|ops| - 1], limits)
  }

  function Initial(): State {
    State(Directory(0, map[], map[], {}, {}, map[], {}, map[], map[], map[]), Saved(0, []), 0, [], {}, None)
  }

  /**
   Over every run, with any closes, blocks, reopenings, failed transactions and crashes: the sequence holds
   exactly the events up to the cursor that are not suppressed, in order, and each event up to the
   committed cursor is recorded as delivered or suppressed, never both. Consent and the inbox limits hold.
   */
  lemma {:induction false} EveryRunIsSound(ops: seq<Op>, limits: Limits)
    requires limits.each >= 1
    ensures SoundState(Run(Initial(), ops, limits), limits)
  {
    if ops == [] {
      assert Waiting(Initial().d) == {} && HeldPeople(Initial().d) == {};
      assert forall p :: WaitingOf(Initial().d, p) == {};
    } else {
      EveryRunIsSound(ops[..|ops| - 1], limits);
      StepKeeps(Run(Initial(), ops[..|ops| - 1], limits), ops[|ops| - 1], limits);
    }
  }

  /*------------------------------------------------------------------ what is never undone */

  /**
   Acceptance is permanent; held input leaves that state once, to be released or discarded for good; input,
   deliveries and suppressions are never taken back; nobody's message is an event before acceptance.
   */
  ghost predicate Continues(before: Directory, after: Directory) {
    && (forall p :: ContactOf(before, p) == Accepted ==> ContactOf(after, p) == Accepted)
    && (forall p :: p in before.held ==>
          && p in after.held && after.held[p].(disposition := Held) == before.held[p].(disposition := Held)
          && (before.held[p].disposition != Held ==> after.held[p] == before.held[p]))
    && (forall id :: id in before.inputs ==> id in after.inputs && after.inputs[id] == before.inputs[id])
    && (forall id :: id in after.inputs && id !in before.inputs ==> id > before.events)
    && before.delivered <= after.delivered && before.suppressed <= after.suppressed && before.events <= after.events
  }

  lemma ContinuesTwice(a: Directory, b: Directory, c: Directory)
    requires Continues(a, b) && Continues(b, c)
    ensures Continues(a, c)
  {
  }

  lemma EffectContinues(d: Directory, e: Effect, limits: Limits)
    requires Inbox.Sound(d, limits) && CommitEffect(d, e).Some?
    ensures Continues(d, CommitEffect(d, e).value)
  {
    hide Inbox.Sound, Waiting, WaitingOf, HeldPeople, Load, Open, WithinLimits, CommitDecision, Silence;
    match e
    case Decide(p, decision) => DecisionContinues(d, p, decision, limits);
    case Close(c) => SilenceContinues(d, d.(closed := d.closed + {c}), e);
    case Block(p, revision) => SilenceContinues(d, d.(blocked := d.blocked[p := revision]), e);
    case _ =>
  }

  lemma SilenceContinues(d: Directory, u: Directory, e: Effect)
    requires u == d.(closed := u.closed, blocked := u.blocked)
    ensures Continues(d, Silence(u, e))
  {
  }

  lemma DecisionContinues(d: Directory, p: Person, decision: Decision, limits: Limits)
    requires Inbox.Sound(d, limits) && CommitDecision(d, p, decision).Some?
    ensures Continues(d, CommitDecision(d, p, decision).value)
  {
    hide Inbox.Sound, Waiting, WaitingOf, HeldPeople, Load, Open, WithinLimits, Consented, Release, Discard;
    InboxNumbered(d, limits);
    var contact := match decision case Accept => Accepted case Decline => Declined case Defer => Deferred;
    var decided := d.(contacts := d.contacts[p := contact]);
    assert Continues(d, decided);
    if p in d.held && d.held[p].disposition == Held {
      HeldContinues(d, decided, p);
    }
  }

  lemma InboxNumbered(d: Directory, limits: Limits)
    requires Inbox.Sound(d, limits)
    ensures Numbered(d)
  {
  }

  lemma HeldContinues(d: Directory, u: Directory, p: Person)
    requires Numbered(d) && p in d.held && d.held[p].disposition == Held && Continues(d, u)
    requires u == d.(contacts := u.contacts)
    ensures Continues(d, Release(u, p)) && Continues(d, Discard(u, p))
  {
    hide Numbered, Continues;
    ReleaseContinues(d, u, p);
    DiscardContinues(d, u, p);
  }

  lemma ReleaseContinues(d: Directory, u: Directory, p: Person)
    requires Numbered(d) && p in d.held && d.held[p].disposition == Held && Continues(d, u)
    requires u == d.(contacts := u.contacts)
    ensures Continues(d, Release(u, p))
  {
    assert forall q :: ContactOf(Release(u, p), q) == ContactOf(u, q);
    hide ContactOf;
  }

  lemma DiscardContinues(d: Directory, u: Directory, p: Person)
    requires p in d.held && d.held[p].disposition == Held && Continues(d, u)
    requires u == d.(contacts := u.contacts)
    ensures Continues(d, Discard(u, p))
  {
    assert forall q :: ContactOf(Discard(u, p), q) == ContactOf(u, q);
    hide ContactOf;
  }

  lemma {:induction false} EffectsContinue(d: Directory, effects: seq<Effect>, limits: Limits)
    requires Inbox.Sound(d, limits) && limits.each >= 1 && CommitEffects(d, effects).Some?
    ensures Continues(d, CommitEffects(d, effects).value)
  {
    hide Inbox.Sound, CommitEffect, Continues;
    if effects == [] {
      ContinuesSelf(d);
    } else {
      var before := CommitEffects(d, effects[..|effects| - 1]).value;
      EffectsContinue(d, effects[..|effects| - 1], limits);
      EffectsKeep(d, limits, effects[..|effects| - 1]);
      EffectContinues(before, effects[|effects| - 1], limits);
      ContinuesTwice(d, before, CommitEffects(d, effects).value);
    }
  }

  lemma ContinuesSelf(d: Directory)
    ensures Continues(d, d)
  {
  }

  lemma EnqueueContinues(d: Directory, limits: Limits, c: Conversation, key: Key, content: Content)
    requires Inbox.Sound(d, limits) && Enqueue(d, limits, c, key, content).Some?
    ensures Continues(d, Enqueue(d, limits, c, key, content).value)
  {
    hide Inbox.Sound, Waiting, WaitingOf, Load, Continues, Hold, Admit;
    var p := d.owner[c];
    InboxNumbered(d, limits);
    ContinuesSelf(d);
    if ContactOf(d, p) != Accepted {
      HoldContinues(d, limits, c, p, key, content);
    } else {
      AdmitContinues(d, c, p, key, content);
    }
  }

  lemma AdmitContinues(d: Directory, c: Conversation, p: Person, key: Key, content: Content)
    requires Numbered(d)
    ensures Continues(d, Admit(d, c, p, key, content))
  {
    assert forall q :: ContactOf(Admit(d, c, p, key, content), q) == ContactOf(d, q);
    hide ContactOf;
  }

  lemma HoldContinues(d: Directory, limits: Limits, c: Conversation, p: Person, key: Key, content: Content)
    requires ContactOf(d, p) != Accepted && Hold(d, limits, c, p, key, content).Some?
    ensures Continues(d, Hold(d, limits, c, p, key, content).value)
  {
    hide Load;
  }

  lemma StepContinues(s: State, op: Op, limits: Limits)
    requires SoundState(s, limits) && limits.each >= 1
    ensures Continues(s.d, Apply(s, op, limits).d)
  {
    hide Inbox.Sound, Enqueue, CommitEffects, Unsuppressed, Continues, Admissible;
    ContinuesSelf(s.d);
    match op
    case Registering(c, p) => RegisterContinues(s.d, c, p);
    case Announcing => AnnounceContinues(s.d);
    case Enqueuing(c, key, content) =>
      if Enqueue(s.d, limits, c, key, content).Some? { EnqueueContinues(s.d, limits, c, key, content); }
    case Checkpointing(effects) =>
      var published := s.d.(delivered := s.d.delivered + s.unpublished);
      if Publish(s.d, s.unpublished, effects).Some? {
        UnpublishedFits(s, limits);
        DeliverKeeps(s.d, limits, s.unpublished);
        EffectsContinue(published, effects, limits);
        DeliverContinues(s.d, s.unpublished, Publish(s.d, s.unpublished, effects).value);
      }
    case _ =>
  }

  lemma RegisterContinues(d: Directory, c: Conversation, p: Person)
    ensures Register(d, c, p).Some? ==> Continues(d, Register(d, c, p).value)
  {
  }

  lemma AnnounceContinues(d: Directory)
    ensures Continues(d, Announce(d))
  {
  }

  lemma DeliverContinues(d: Directory, entered: set<EventId>, u: Directory)
    requires Continues(d.(delivered := d.delivered + entered), u)
    ensures Continues(d, u)
  {
    assert forall p :: ContactOf(d.(delivered := d.delivered + entered), p) == ContactOf(d, p);
    hide ContactOf;
  }

  lemma {:induction false} RunAppend(s: State, a: seq<Op>, b: seq<Op>, limits: Limits)
    ensures Run(s, a + b, limits) == Run(Run(s, a, limits), b, limits)
    decreases |b|
  {
    if b == [] {
      assert a + b == a;
    } else {
      RunAppend(s, a, b[..|b| - 1], limits);
      assert (a + b)[..|a + b| - 1] == a + b[..|b| - 1];
    }
  }

  /** Over any stretch of any run. */
  lemma {:induction false} RunContinues(ops: seq<Op>, more: seq<Op>, limits: Limits)
    requires limits.each >= 1
    ensures Continues(Run(Initial(), ops, limits).d, Run(Initial(), ops + more, limits).d)
    decreases |more|
  {
    if more == [] {
      assert ops + more == ops;
      ContinuesSelf(Run(Initial(), ops, limits).d);
    } else {
      var front, last := more[..|more| - 1], more[|more| - 1];
      RunContinues(ops, front, limits);
      EveryRunIsSound(ops + front, limits);
      StepContinues(Run(Initial(), ops + front, limits), last, limits);
      assert (ops + more)[..|ops + more| - 1] == ops + front && (ops + more)[|ops + more| - 1] == last;
      ContinuesTwice(Run(Initial(), ops, limits).d, Run(Initial(), ops + front, limits).d, Run(Initial(), ops + more, limits).d);
    }
  }

  /*------------------------------------------------------------------ nothing stays behind */

  /** The runtime picks and enters what is next, `rounds` times. */
  function Drained(s: State, rounds: nat, limits: Limits): State
    decreases rounds
  {
    if rounds == 0 then s else Drained(Apply(Apply(s, Picking, limits), Entering, limits), rounds - 1, limits)
  }

  lemma SoundBounds(s: State, limits: Limits)
    requires SoundState(s, limits)
    ensures Inbox.Sound(s.d, limits) && s.saved.cursor <= s.cursor <= s.d.events
    ensures s.entered == Unsuppressed(s.d.suppressed, s.cursor)
    ensures SoundState(s.(picked := None), limits)
  {
    hide Inbox.Sound, Unsuppressed;
  }

  /** What is next is not suppressed, so nothing refuses it at the boundary. */
  lemma NextEnters(s: State, limits: Limits, id: EventId)
    requires SoundState(s, limits) && s.picked == Some(id) && id !in s.d.suppressed
    ensures Enter(s) == s.(entered := s.entered + [id], cursor := id, unpublished := s.unpublished + {id}, picked := None)
    ensures id > s.cursor
  {
    hide Inbox.Sound, Unsuppressed, Admissible;
    if id in s.d.inputs { RefusedMeansSuppressed(s, limits, id); }
  }

  lemma RoundAdvances(s: State, limits: Limits)
    requires SoundState(s, limits) && s.picked == None && limits.each >= 1
    ensures var t := Apply(Apply(s, Picking, limits), Entering, limits);
      && SoundState(t, limits) && t.picked == None && t.d == s.d && t.saved == s.saved
      && (t.cursor > s.cursor || (t == s && forall id :: s.cursor < id <= s.d.events ==> id in s.d.suppressed))
  {
    hide SoundState, Unsuppressed, Enter, NextEvent, Checkpoint, Crash;
    StepKeeps(s, Picking, limits);
    var picked := Apply(s, Picking, limits);
    StepKeeps(picked, Entering, limits);
    NextIsFirst(s.d, s.cursor);
    if picked.picked.Some? {
      NextEnters(picked, limits, picked.picked.value);
    } else {
      NothingEnters(picked);
    }
  }

  lemma NothingEnters(s: State)
    requires s.picked == None
    ensures Enter(s) == s
  {
  }

  /** As many rounds as there are events bring everything that is not suppressed into the sequence, in order. */
  lemma {:induction false} EverythingEnters(s: State, rounds: nat, limits: Limits)
    requires SoundState(s, limits) && s.picked == None && limits.each >= 1 && rounds >= s.d.events - s.cursor
    ensures var t := Drained(s, rounds, limits);
      && SoundState(t, limits) && t.d == s.d && t.saved == s.saved
      && t.entered == Unsuppressed(s.d.suppressed, s.d.events)
      && forall id :: t.cursor < id <= s.d.events ==> id in s.d.suppressed
    decreases rounds
  {
    hide SoundState, Apply, Unsuppressed;
    SoundBounds(s, limits);
    if rounds == 0 {
    } else {
      RoundAdvances(s, limits);
      var t := Apply(Apply(s, Picking, limits), Entering, limits);
      if t.cursor > s.cursor {
        EverythingEnters(t, rounds - 1, limits);
      } else {
        Skipping(s.d.suppressed, s.cursor, s.d.events);
        StaysDrained(s, rounds, limits);
      }
    }
  }

  /** A host event is the last of all events, and enters as such. */
  lemma AnnouncedEventEnters(s: State, rounds: nat, limits: Limits)
    requires SoundState(s, limits) && s.picked == None && limits.each >= 1 && rounds > s.d.events - s.cursor
    ensures Drained(Apply(s, Announcing, limits), rounds, limits).entered == Unsuppressed(s.d.suppressed, s.d.events) + [s.d.events + 1]
  {
    hide SoundState, Drained;
    var t := Apply(s, Announcing, limits);
    SoundBounds(s, limits);
    StepKeeps(s, Announcing, limits);
    EverythingEnters(t, rounds, limits);
    InboxNumbered(s.d, limits);
    hide Inbox.Sound;
    assert s.d.events + 1 !in s.d.suppressed;
  }

  lemma {:induction false} StaysDrained(s: State, rounds: nat, limits: Limits)
    requires SoundState(s, limits) && s.picked == None && limits.each >= 1
    requires Apply(Apply(s, Picking, limits), Entering, limits) == s
    ensures Drained(s, rounds, limits) == s
    decreases rounds
  {
    hide Apply;
    if rounds > 0 { StaysDrained(s, rounds - 1, limits); }
  }

  /**
   A crash, wherever it comes, loses and repeats nothing: the restarted process ends with exactly the sequence it would
   have had, and the next checkpoint leaves no input waiting.
   */
  lemma CrashLosesNothing(s: State, rounds: nat, limits: Limits)
    requires SoundState(s, limits) && limits.each >= 1 && rounds >= s.d.events
    ensures var crashed, u := Drained(Crash(s), rounds, limits), Drained(s.(picked := None), rounds, limits);
      && crashed.entered == u.entered == Unsuppressed(s.d.suppressed, s.d.events)
      && Crash(s).d == s.d && Crash(s).saved == s.saved
      && Publish(crashed.d, crashed.unpublished, []).Some?
      && Waiting(Checkpoint(crashed, []).d) == {}
  {
    hide SoundState, Unsuppressed, Drained, Publish, Checkpoint, Waiting;
    StepKeeps(s, Crashing, limits);
    SoundBounds(s, limits);
    EverythingEnters(Crash(s), rounds, limits);
    EverythingEnters(s.(picked := None), rounds, limits);
    NothingWaits(Drained(Crash(s), rounds, limits), limits);
  }

  lemma NothingWaits(s: State, limits: Limits)
    requires SoundState(s, limits) && forall id :: s.cursor < id <= s.d.events ==> id in s.d.suppressed
    ensures Publish(s.d, s.unpublished, []).Some? && Waiting(Checkpoint(s, []).d) == {}
  {
    InboxNumbered(s.d, limits);
    hide Inbox.Sound, Unsuppressed;
    var d := Checkpoint(s, []).d;
    assert d == s.d.(delivered := s.d.delivered + s.unpublished);
    forall id ensures id !in Waiting(d) {
      if id in d.inputs && id !in d.suppressed {
        assert 1 <= id <= s.cursor;
        assert id in s.d.delivered || id in s.unpublished;
      }
    }
  }
}
