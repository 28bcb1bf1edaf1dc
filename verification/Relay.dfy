/**
 Relaying one conversation's outbox (dmn/openwebui.py:154-169, dmn/openwebui_multi.py:312-334): persist,
 then advance, with a crash possible anywhere and the frontend editing the tree meanwhile.
 */
module Relay {
  import opened Wrappers
  import opened Bridge

  /**
   `cursor` is durable, `batch` is what the running process fetched, `saved` says its first message was
   persisted but the cursor not yet advanced. `log` records the order in which messages were placed.
   */
  datatype State = State(outbox: seq<Message>, chat: Chat, cursor: nat, batch: seq<Message>, saved: bool, log: seq<nat>)

  /** How many messages of the outbox the cursor covers. */
  function Covered(outbox: seq<Message>, cursor: nat): nat {
    if outbox == [] then 0
    else if outbox[|outbox| - 1].id <= cursor then |outbox| else Covered(outbox[..|outbox| - 1], cursor)
  }

  lemma {:induction false} CoveredBound(outbox: seq<Message>, cursor: nat)
    ensures Covered(outbox, cursor) <= |outbox|
  {
    if outbox != [] { CoveredBound(outbox[..|outbox| - 1], cursor); }
  }

  /** The next messages after the cursor, in order, at most `limit`. */
  function Fetch(outbox: seq<Message>, cursor: nat, limit: nat): seq<Message> {
    CoveredBound(outbox, cursor);
    outbox[Covered(outbox, cursor)..Min(|outbox|, Covered(outbox, cursor) + limit)]
  }

  datatype Op =
    | Sending(message: Message)
    | Growing(id: NodeId, node: Node)
    | Rewriting(id: NodeId, content: Content, output: bool, done: bool)
    | Selecting(id: NodeId)
    | Fetching(limit: nat)
    | Persisting(placeholders: set<NodeId>, r: Result<Attached, Refusal>)
    | Advancing
    | Dying

  /** The frontend adds nodes of its own below existing ones, rewrites only its own, and selects any node. */
  ghost predicate Enabled(s: State, op: Op) {
    match op
    case Sending(m) => m.content != 0 && m.id > 0 && (s.outbox == [] || s.outbox[|s.outbox| - 1].id < m.id)
    case Growing(id, node) =>
      && id.Frontend? && id !in s.chat.nodes && node.delivery == None
      && (node.parent.Some? ==> node.parent.value in s.chat.nodes)
    case Rewriting(id, content, output, done) => id in s.chat.nodes && s.chat.nodes[id].delivery == None
    case Selecting(id) => id in s.chat.nodes
    case Fetching(limit) => s.batch == []
    case Persisting(placeholders, r) => s.batch != [] && !s.saved && Attaches(s.chat, s.batch[0], placeholders, r)
    case Advancing => s.batch != [] && s.saved
    case Dying => true
  }

  /** A refusal ends the batch; the message stays first in line. */
  function Apply(s: State, op: Op): State
    requires Enabled(s, op)
  {
    match op
    case Sending(m) => s.(outbox := s.outbox + [m])
    case Growing(id, node) => s.(chat := s.chat.(nodes := s.chat.nodes[id := node], current := Some(id)))
    case Rewriting(id, content, output, done) =>
      s.(chat := s.chat.(nodes := s.chat.nodes[id := s.chat.nodes[id].(content := content, output := output, done := done)]))
    case Selecting(id) => s.(chat := s.chat.(current := Some(id)))
    case Fetching(limit) => s.(batch := Fetch(s.outbox, s.cursor, limit))
    case Persisting(placeholders, r) =>
      (match r
       case Err(_) => s.(batch := [])
       case Ok(a) => s.(chat := a.chat, saved := true, log := if a.changed then s.log + [s.batch[0].id] else s.log))
    case Advancing => s.(cursor := Max(s.cursor, s.batch[0].id), batch := s.batch[1..], saved := false)
    case Dying => s.(batch := [], saved := false)
  }

  /*------------------------------------------------------------------ invariants */

  ghost predicate Numbered(outbox: seq<Message>) {
    && (forall i :: 0 <= i < |outbox| ==> outbox[i].id > 0 && outbox[i].content != 0)
    && (forall i, j :: 0 <= i < j < |outbox| ==> outbox[i].id < outbox[j].id)
  }

  /** The node of message `i` of the outbox. */
  ghost predicate IsPlaced(nodes: map<NodeId, Node>, m: Message) {
    exists x :: Delivers(nodes, x, m.id) && nodes[x].content == m.content
  }

  ghost predicate OneNodeEach(nodes: map<NodeId, Node>) {
    forall x, y :: x in nodes && y in nodes && nodes[x].delivery.Some? && nodes[x].delivery == nodes[y].delivery ==> x == y
  }

  /** Exactly the first messages of the outbox are in the chat, each in one node, placed in ID order. */
  ghost predicate ExactlyOnce(s: State) {
    && |s.log| <= |s.outbox|
    && (forall i :: 0 <= i < |s.log| ==> s.log[i] == s.outbox[i].id && IsPlaced(s.chat.nodes, s.outbox[i]))
    && (forall x :: x in s.chat.nodes && s.chat.nodes[x].delivery.Some? ==> s.chat.nodes[x].delivery.value in s.log)
    && OneNodeEach(s.chat.nodes)
  }

  ghost predicate TreeSound(chat: Chat) {
    && Acyclic(chat.nodes) && (chat.current.Some? ==> chat.current.value in chat.nodes)
    && forall x :: x in chat.nodes && x.Derived? ==> chat.nodes[x].delivery == Some(x.message)
  }

  /** The cursor covers a prefix of what is placed, and lags it by at most one message. */
  ghost predicate CursorSound(s: State) {
    var k := Covered(s.outbox, s.cursor);
    && k <= |s.outbox| && k <= |s.log| <= k + 1 && s.cursor == (if k > 0 then s.outbox[k - 1].id else 0)
    && k + |s.batch| <= |s.outbox| && s.batch == s.outbox[k..k + |s.batch|]
    && (s.saved ==> s.batch != [] && |s.log| == k + 1)
  }

  ghost predicate Sound(s: State) {
    Numbered(s.outbox) && ExactlyOnce(s) && TreeSound(s.chat) && CursorSound(s)
  }

  lemma {:induction false} CoveredIs(outbox: seq<Message>, cursor: nat, k: nat)
    requires Numbered(outbox) && k <= |outbox|
    ensures Covered(outbox, cursor) == k <==>
      (k > 0 ==> outbox[k - 1].id <= cursor) && (k < |outbox| ==> outbox[k].id > cursor)
  {
    if outbox != [] && outbox[|outbox| - 1].id > cursor {
      var front := outbox[..|outbox| - 1];
      if k <= |front| {
        CoveredIs(front, cursor, k);
      } else {
        CoveredBound(front, cursor);
      }
    }
  }

  lemma SendKeeps(s: State, m: Message)
    requires Sound(s) && Enabled(s, Sending(m))
    ensures Sound(Apply(s, Sending(m)))
  {
    hide TreeSound, OneNodeEach, IsPlaced, CursorSound, Covered;
    var t := Apply(s, Sending(m));
    assert forall i :: 0 <= i < |s.outbox| ==> t.outbox[i] == s.outbox[i];
    assert Numbered(t.outbox) && ExactlyOnce(t);
    hide ExactlyOnce, Numbered;
    SendKeepsCursor(s, t, m);
  }

  lemma SendKeepsCursor(s: State, t: State, m: Message)
    requires CursorSound(s) && Numbered(s.outbox) && Numbered(t.outbox)
    requires t == s.(outbox := s.outbox + [m])
    ensures CursorSound(t)
  {
    hide Covered, TreeSound, ExactlyOnce;
    var k := Covered(s.outbox, s.cursor);
    CoveredStays(s.outbox, m, s.cursor);
    assert k > 0 ==> t.outbox[k - 1] == s.outbox[k - 1];
    hide Numbered;
    SliceBefore(s.outbox, [m], k, k + |s.batch|);
  }

  /** A new message is after everything the cursor covers. */
  lemma CoveredStays(outbox: seq<Message>, m: Message, cursor: nat)
    requires Numbered(outbox) && Numbered(outbox + [m])
    requires var k := Covered(outbox, cursor); k <= |outbox| && cursor == if k > 0 then outbox[k - 1].id else 0
    ensures Covered(outbox + [m], cursor) == Covered(outbox, cursor)
  {
    hide Covered;
    var k, longer := Covered(outbox, cursor), outbox + [m];
    CoveredIs(outbox, cursor, k);
    assert k > 0 ==> longer[k - 1] == outbox[k - 1];
    assert k < |outbox| ==> longer[k] == outbox[k];
    assert k > 0 ==> longer[k - 1].id < longer[k].id;
    CoveredIs(longer, cursor, k);
  }

  lemma SliceBefore(outbox: seq<Message>, more: seq<Message>, a: nat, b: nat)
    requires a <= b <= |outbox|
    ensures (outbox + more)[a..b] == outbox[a..b]
  {
  }

  lemma FrontendKeepsTree(s: State, op: Op)
    requires Sound(s) && Enabled(s, op) && (op.Growing? || op.Rewriting? || op.Selecting?)
    ensures TreeSound(Apply(s, op).chat)
  {
    hide ExactlyOnce, Numbered, Covered;
    var rank :| Ranked(s.chat.nodes, rank);
    var t := Apply(s, op);
    if op.Growing? {
      var height := if op.node.parent.Some? then rank[op.node.parent.value] + 1 else 0;
      assert Ranked(t.chat.nodes, rank[op.id := height]);
    } else {
      assert Ranked(t.chat.nodes, rank);
    }
  }

  lemma FrontendKeeps(s: State, op: Op)
    requires Sound(s) && Enabled(s, op) && (op.Growing? || op.Rewriting? || op.Selecting?)
    ensures Sound(Apply(s, op))
  {
    hide TreeSound, ExactlyOnce, Numbered, Covered;
    FrontendKeepsTree(s, op);
    FrontendKeepsOnce(s, op);
  }

  lemma FrontendKeepsOnce(s: State, op: Op)
    requires ExactlyOnce(s) && Enabled(s, op) && (op.Growing? || op.Rewriting? || op.Selecting?)
    ensures ExactlyOnce(Apply(s, op))
  {
    var t := Apply(s, op);
    assert SameDeliveries(s.chat.nodes, t.chat.nodes) && t.log == s.log && t.outbox == s.outbox;
    hide Apply, Enabled, SameDeliveries, IsPlaced, OneNodeEach;
    DeliveriesStayOnce(s.chat.nodes, t.chat.nodes);
    DeliveriesStayLogged(s.chat.nodes, t.chat.nodes, s.log);
    forall i | 0 <= i < |t.log| ensures IsPlaced(t.chat.nodes, t.outbox[i]) {
      DeliveryStaysPlaced(s.chat.nodes, t.chat.nodes, s.outbox[i]);
    }
  }

  /** The delivered nodes of both trees are the same nodes. */
  ghost predicate SameDeliveries(before: map<NodeId, Node>, after: map<NodeId, Node>) {
    && (forall x :: x in before && before[x].delivery.Some? ==> x in after && after[x] == before[x])
    && (forall x :: x in after && after[x].delivery.Some? ==> x in before && after[x] == before[x])
  }

  lemma DeliveriesStayOnce(before: map<NodeId, Node>, after: map<NodeId, Node>)
    requires SameDeliveries(before, after) && OneNodeEach(before)
    ensures OneNodeEach(after)
  {
  }

  lemma DeliveriesStayLogged(before: map<NodeId, Node>, after: map<NodeId, Node>, log: seq<nat>)
    requires SameDeliveries(before, after)
    requires forall x :: x in before && before[x].delivery.Some? ==> before[x].delivery.value in log
    ensures forall x :: x in after && after[x].delivery.Some? ==> after[x].delivery.value in log
  {
  }

  lemma DeliveryStaysPlaced(before: map<NodeId, Node>, after: map<NodeId, Node>, m: Message)
    requires SameDeliveries(before, after) && IsPlaced(before, m)
    ensures IsPlaced(after, m)
  {
    var x :| Delivers(before, x, m.id) && before[x].content == m.content;
    assert Delivers(after, x, m.id);
  }

  lemma FetchKeeps(s: State, limit: nat)
    requires Sound(s) && s.batch == []
    ensures Sound(Apply(s, Fetching(limit)))
  {
    hide Covered, TreeSound, IsPlaced, OneNodeEach, Numbered;
    CoveredBound(s.outbox, s.cursor);
  }

  lemma AdvanceKeeps(s: State)
    requires Sound(s) && Enabled(s, Advancing)
    ensures Sound(Apply(s, Advancing))
  {
    hide TreeSound, OneNodeEach, IsPlaced, Covered;
    var t, k := Apply(s, Advancing), Covered(s.outbox, s.cursor);
    assert s.batch[0] == s.outbox[k];
    assert t.cursor == s.outbox[k].id;
    CoveredIs(s.outbox, t.cursor, k + 1);
    hide Numbered;
    assert s.batch[1..] == s.outbox[k + 1..k + 1 + |s.batch[1..]|];
  }

  /** A delivered node carries its message's text, so it is never mistaken for an empty placeholder. */
  lemma DeliveredIsNotEmpty(s: State, x: NodeId)
    requires Numbered(s.outbox) && ExactlyOnce(s) && x in s.chat.nodes && s.chat.nodes[x].delivery.Some?
    ensures s.chat.nodes[x].content != 0
  {
    var id := s.chat.nodes[x].delivery.value;
    var i :| 0 <= i < |s.log| && s.log[i] == id;
    assert IsPlaced(s.chat.nodes, s.outbox[i]);
    var y :| Delivers(s.chat.nodes, y, s.outbox[i].id) && s.chat.nodes[y].content == s.outbox[i].content;
    assert x == y;
  }

  lemma NotYetPlaced(s: State)
    requires Sound(s) && s.batch != [] && |s.log| == Covered(s.outbox, s.cursor)
    ensures forall x :: !Delivers(s.chat.nodes, x, s.batch[0].id)
  {
    var k := Covered(s.outbox, s.cursor);
    assert s.batch[0] == s.outbox[k];
  }

  /** With a sound tree a new message is always accepted, and the projected branch is the path from the root to it. */
  lemma NewMessageIsAccepted(s: State, placeholders: set<NodeId>, r: Result<Attached, Refusal>)
    requires Sound(s) && Enabled(s, Persisting(placeholders, r)) && |s.log| == Covered(s.outbox, s.cursor)
    ensures var id := TargetOf(s.chat, s.batch[0], placeholders);
      && (Reusable(s.chat, placeholders) || id !in s.chat.nodes)
      && r.Ok? && r.value.changed && r.value.node == id && r.value.chat.current == Some(id)
      && r.value.chat.nodes == Placed(s.chat, s.batch[0], placeholders)
      && RootPath(r.value.chat.nodes, r.value.chat.branch, id)
  {
    var m, id := s.batch[0], TargetOf(s.chat, s.batch[0], placeholders);
    NotYetPlaced(s);
    assert !Reusable(s.chat, placeholders) ==> !Delivers(s.chat.nodes, id, m.id);
    PlacedStaysAcyclic(s.chat, m, placeholders);
    AcyclicLeadsUp(Placed(s.chat, m, placeholders), id);
    WalkedIsPath(Placed(s.chat, m, placeholders), id, {});
  }

  lemma PlacingKeepsNodes(s: State, placeholders: set<NodeId>)
    requires Sound(s) && s.batch != [] && |s.log| == Covered(s.outbox, s.cursor)
    requires Reusable(s.chat, placeholders) || TargetOf(s.chat, s.batch[0], placeholders) !in s.chat.nodes
    ensures var m, nodes, id := s.batch[0], Placed(s.chat, s.batch[0], placeholders), TargetOf(s.chat, s.batch[0], placeholders);
      && id in nodes && nodes[id].delivery == Some(m.id) && nodes[id].content == m.content
      && nodes.Keys == s.chat.nodes.Keys + {id} && (id in s.chat.nodes ==> s.chat.nodes[id].delivery == None)
      && forall x :: x in s.chat.nodes && x != id ==>
           nodes[x].delivery == s.chat.nodes[x].delivery && nodes[x].content == s.chat.nodes[x].content
  {
    var id := TargetOf(s.chat, s.batch[0], placeholders);
    if id in s.chat.nodes && s.chat.nodes[id].delivery.Some? { DeliveredIsNotEmpty(s, id); }
  }

  lemma PlacingIsOnce(s: State, t: State, id: NodeId, m: Message)
    requires Numbered(s.outbox) && ExactlyOnce(s) && |s.log| < |s.outbox| && m == s.outbox[|s.log|]
    requires t.outbox == s.outbox && t.log == s.log + [m.id]
    requires id in t.chat.nodes && t.chat.nodes[id].delivery == Some(m.id) && t.chat.nodes[id].content == m.content
    requires t.chat.nodes.Keys == s.chat.nodes.Keys + {id} && (id in s.chat.nodes ==> s.chat.nodes[id].delivery == None)
    requires forall x :: x in s.chat.nodes && x != id ==>
      t.chat.nodes[x].delivery == s.chat.nodes[x].delivery && t.chat.nodes[x].content == s.chat.nodes[x].content
    ensures ExactlyOnce(t)
  {
    LogIsEarlier(s, m);
    PlacedOnce(s.chat.nodes, t.chat.nodes, id, m, s.log);
    hide Numbered, OneNodeEach;
    forall i | 0 <= i < |t.log| ensures t.log[i] == t.outbox[i].id && IsPlaced(t.chat.nodes, t.outbox[i]) {
      if i < |s.log| {
        assert IsPlaced(s.chat.nodes, s.outbox[i]);
        var x :| Delivers(s.chat.nodes, x, s.outbox[i].id) && s.chat.nodes[x].content == s.outbox[i].content;
        assert Delivers(t.chat.nodes, x, s.outbox[i].id);
      } else {
        assert Delivers(t.chat.nodes, id, m.id);
      }
    }
    forall x | x in t.chat.nodes && t.chat.nodes[x].delivery.Some? ensures t.chat.nodes[x].delivery.value in t.log {
      if x == id { assert t.log[|s.log|] == m.id; }
    }
  }

  lemma LogIsEarlier(s: State, m: Message)
    requires Numbered(s.outbox) && ExactlyOnce(s) && |s.log| < |s.outbox| && m == s.outbox[|s.log|]
    ensures m.id !in s.log
  {
    hide IsPlaced, OneNodeEach;
    assert forall i :: 0 <= i < |s.log| ==> s.log[i] < m.id;
  }

  lemma PlacedOnce(before: map<NodeId, Node>, after: map<NodeId, Node>, id: NodeId, m: Message, log: seq<nat>)
    requires OneNodeEach(before) && m.id !in log
    requires forall x :: x in before && before[x].delivery.Some? ==> before[x].delivery.value in log
    requires id in after && after[id].delivery == Some(m.id) && after.Keys == before.Keys + {id}
    requires forall x :: x in before && x != id ==> after[x].delivery == before[x].delivery
    ensures OneNodeEach(after)
  {
  }

  lemma PersistOld(s: State, placeholders: set<NodeId>, r: Result<Attached, Refusal>)
    requires Sound(s) && Enabled(s, Persisting(placeholders, r)) && |s.log| == Covered(s.outbox, s.cursor) + 1
    ensures r.Ok? && r.value.chat == s.chat && !r.value.changed
  {
    assert s.batch[0] == s.outbox[Covered(s.outbox, s.cursor)];
    assert IsPlaced(s.chat.nodes, s.batch[0]);
    var x :| Delivers(s.chat.nodes, x, s.batch[0].id) && s.chat.nodes[x].content == s.batch[0].content;
  }

  lemma PersistNew(s: State, placeholders: set<NodeId>, r: Result<Attached, Refusal>)
    requires Sound(s) && Enabled(s, Persisting(placeholders, r)) && |s.log| == Covered(s.outbox, s.cursor)
    ensures r.Ok? && r.value.changed
    ensures ExactlyOnce(Apply(s, Persisting(placeholders, r))) && TreeSound(r.value.chat)
  {
    hide Attaches, Placed, RootPath, Reusable, Acyclic, IsPlaced, OneNodeEach, TreeSound;
    assert s.batch[0] == s.outbox[Covered(s.outbox, s.cursor)];
    NewMessageIsAccepted(s, placeholders, r);
    PlacingKeepsNodes(s, placeholders);
    TreeParts(s.chat);
    PlacedStaysAcyclic(s.chat, s.batch[0], placeholders);
    PlacingIsOnce(s, Apply(s, Persisting(placeholders, r)), r.value.node, s.batch[0]);
    PlacedTree(s.chat, r.value.chat, s.batch[0], placeholders);
  }

  lemma TreeParts(chat: Chat)
    requires TreeSound(chat)
    ensures Acyclic(chat.nodes) && (chat.current.Some? ==> chat.current.value in chat.nodes)
  {
  }

  lemma PlacedTree(chat: Chat, after: Chat, m: Message, placeholders: set<NodeId>)
    requires TreeSound(chat) && Acyclic(after.nodes)
    requires var id := TargetOf(chat, m, placeholders);
      && (Reusable(chat, placeholders) || id !in chat.nodes) && after.current == Some(id)
      && (id in chat.nodes ==> chat.nodes[id].delivery == None)
    requires after.nodes == Placed(chat, m, placeholders)
    ensures TreeSound(after)
  {
    hide Acyclic;
  }

  lemma PersistKeeps(s: State, placeholders: set<NodeId>, r: Result<Attached, Refusal>)
    requires Sound(s) && Enabled(s, Persisting(placeholders, r))
    ensures Sound(Apply(s, Persisting(placeholders, r)))
    ensures r.Ok?
  {
    hide Attaches, TreeSound, ExactlyOnce, Numbered, Covered;
    if |s.log| == Covered(s.outbox, s.cursor) {
      PersistNew(s, placeholders, r);
    } else {
      PersistOld(s, placeholders, r);
      var t := Apply(s, Persisting(placeholders, r));
      SameOnce(s, t);
    }
  }

  lemma SameOnce(s: State, t: State)
    requires ExactlyOnce(s) && t.outbox == s.outbox && t.log == s.log && t.chat == s.chat
    ensures ExactlyOnce(t)
  {
  }

  lemma StepKeeps(s: State, op: Op)
    requires Sound(s) && Enabled(s, op)
    ensures Sound(Apply(s, op))
  {
    hide Sound, Attaches;
    match op
    case Sending(m) => SendKeeps(s, m);
    case Fetching(limit) => FetchKeeps(s, limit);
    case Persisting(placeholders, r) => PersistKeeps(s, placeholders, r);
    case Advancing => AdvanceKeeps(s);
    case Dying => DieKeeps(s);
    case _ => FrontendKeeps(s, op);
  }

  lemma DieKeeps(s: State)
    requires Sound(s)
    ensures Sound(Apply(s, Dying))
  {
  }

  ghost predicate IsRun(states: seq<State>, ops: seq<Op>) {
    && |states| == |ops| + 1
    && states[0] == State([], Chat(map[], None, []), 0, [], false, [])
    && forall i :: 0 <= i < |ops| ==> Enabled(states[i], ops[i]) && states[i + 1] == Apply(states[i], ops[i])
  }

  /**
   With a crash possible between any two steps and the frontend growing, rewriting and switching its branches
   meanwhile: a prefix of the outbox is in the chat, every message of it in exactly one node and placed in ID
   order, the cursor never passes an unplaced message, and the tree stays acyclic.
   */
  lemma {:induction false} EveryRunIsSound(states: seq<State>, ops: seq<Op>, n: nat)
    requires IsRun(states, ops) && n <= |ops|
    ensures Sound(states[n])
    decreases n
  {
    if n == 0 {
      assert Ranked(states[0].chat.nodes, map[]);
    } else {
      EveryRunIsSound(states, ops, n - 1);
      StepKeeps(states[n - 1], ops[n - 1]);
    }
  }

  /** Attaching the same message again changes nothing, so a lost cursor update costs no duplicate. */
  lemma RepeatChangesNothing(chat: Chat, m: Message, placeholders: set<NodeId>, r: Result<Attached, Refusal>,
                             later: set<NodeId>, again: Result<Attached, Refusal>)
    requires Attaches(chat, m, placeholders, r) && r.Ok? && OneNodeEach(chat.nodes) && OneNodeEach(r.value.chat.nodes)
    requires Attaches(r.value.chat, m, later, again)
    ensures again == Ok(Attached(r.value.chat, r.value.node, false))
  {
    assert Delivers(r.value.chat.nodes, r.value.node, m.id);
  }

  /** One message: persist it, and only then let the cursor pass it. */
  method RelayOne(s: State, placeholders: set<NodeId>) returns (t: State)
    requires Sound(s) && s.batch != [] && !s.saved
    ensures Sound(t) && t.outbox == s.outbox && t.batch == s.batch[1..] && !t.saved
    ensures Covered(t.outbox, t.cursor) == Covered(s.outbox, s.cursor) + 1
  {
    hide Attaches, TreeSound, ExactlyOnce, Numbered, Covered;
    var m := s.batch[0];
    var r := AttachMessage(s.chat, m, placeholders);
    PersistKeeps(s, placeholders, r);
    t := s.(chat := r.value.chat, saved := true, log := if r.value.changed then s.log + [m.id] else s.log);
    AdvanceCovers(t);
    AdvanceKeeps(t);
    hide Sound, Covered;
    t := t.(cursor := Max(t.cursor, m.id), batch := t.batch[1..], saved := false);
  }

  lemma FetchStarts(s: State, limit: nat)
    requires Sound(s) && s.batch == []
    ensures var t := Apply(s, Fetching(limit)); Sound(t) && !t.saved
    ensures Covered(s.outbox, s.cursor) + |Fetch(s.outbox, s.cursor, limit)| == Min(|s.outbox|, Covered(s.outbox, s.cursor) + limit)
  {
    hide Covered, TreeSound, ExactlyOnce, Numbered;
    CoveredBound(s.outbox, s.cursor);
    FetchKeeps(s, limit);
  }

  /** One uninterrupted pass over everything fetched. */
  method RelayOnce(s: State, limit: nat, placeholders: set<NodeId>) returns (t: State)
    requires Sound(s) && s.batch == []
    ensures Sound(t) && t.outbox == s.outbox && t.batch == []
    ensures Covered(t.outbox, t.cursor) == Min(|s.outbox|, Covered(s.outbox, s.cursor) + limit)
  {
    hide Sound, Covered, Fetch;
    FetchStarts(s, limit);
    t := s.(batch := Fetch(s.outbox, s.cursor, limit));
    while t.batch != []
      invariant Sound(t) && t.outbox == s.outbox && !t.saved
      invariant Covered(t.outbox, t.cursor) + |t.batch| == Min(|s.outbox|, Covered(s.outbox, s.cursor) + limit)
      decreases |t.batch|
    {
      t := RelayOne(t, placeholders);
    }
  }

  lemma AdvanceCovers(s: State)
    requires Sound(s) && Enabled(s, Advancing)
    ensures Covered(s.outbox, Max(s.cursor, s.batch[0].id)) == Covered(s.outbox, s.cursor) + 1
  {
    var k := Covered(s.outbox, s.cursor);
    assert s.batch[0] == s.outbox[k];
    CoveredIs(s.outbox, s.outbox[k].id, k + 1);
  }

  /** A death before the cursor moved leaves the same message first in line, whether or not it had been placed. */
  lemma DeathResumes(s: State, limit: nat)
    requires Sound(s) && s.batch != [] && limit >= 1
    ensures var t := Apply(Apply(s, Dying), Fetching(limit));
      t.batch != [] && t.batch[0] == s.batch[0] && t == s.(batch := t.batch, saved := false)
  {
    hide Covered, TreeSound, ExactlyOnce, Numbered;
    CoveredBound(s.outbox, s.cursor);
  }
}
