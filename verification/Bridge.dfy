/**
 The outbox relay into a chat tree (dmn/bridge.py:91-146, dmn/openwebui.py:112-169,
 dmn/openwebui_multi.py:312-334, dmn/multi_bridge_ledger.py:58-60).
 */
module Bridge {
  import opened Wrappers

  /** A node made by the frontend, or one whose name is derived from an outgoing message. */
  datatype NodeId = Frontend(n: nat) | Derived(message: nat)

  /** Text; 0 is the empty text. */
  type Content = nat

  datatype Node = Node(parent: Option<NodeId>, children: seq<NodeId>, content: Content, output: bool, done: bool,
                       delivery: Option<nat>)

  /** `branch` is the projected message list. */
  datatype Chat = Chat(nodes: map<NodeId, Node>, current: Option<NodeId>, branch: seq<NodeId>)

  datatype Message = Message(id: nat, content: Content)

  datatype Refusal = Edited | BrokenSelection | Collision | BrokenAncestry

  datatype Attached = Attached(chat: Chat, node: NodeId, changed: bool)

  ghost predicate Delivers(nodes: map<NodeId, Node>, x: NodeId, id: nat) {
    x in nodes && nodes[x].delivery == Some(id)
  }

  predicate Reusable(chat: Chat, placeholders: set<NodeId>) {
    && chat.current.Some? && chat.current.value in placeholders && chat.current.value in chat.nodes
    && var prior := chat.nodes[chat.current.value]; prior.content == 0 && !prior.output && prior.done
  }

  function TargetOf(chat: Chat, m: Message, placeholders: set<NodeId>): NodeId {
    if Reusable(chat, placeholders) then chat.current.value else Derived(m.id)
  }

  /** The node map after the message is placed: in the placeholder, or as a new child of the selected node. */
  function Placed(chat: Chat, m: Message, placeholders: set<NodeId>): map<NodeId, Node>
    requires chat.current.Some? ==> chat.current.value in chat.nodes
  {
    var id := TargetOf(chat, m, placeholders);
    if Reusable(chat, placeholders) then
      chat.nodes[id := Node(chat.nodes[id].parent, [], m.content, false, true, Some(m.id))]
    else
      var grown := chat.nodes[id := Node(chat.current, [], m.content, false, true, Some(m.id))];
      if chat.current.None? then grown
      else
        var p := chat.current.value;
        if id in grown[p].children then grown
        else grown[p := grown[p].(children := grown[p].children + [id])]
  }

  /** From a node to the root, refusing cycles and missing parents. */
  function Ancestry(nodes: map<NodeId, Node>, at: Option<NodeId>, seen: set<NodeId>): Option<seq<NodeId>>
    requires seen <= nodes.Keys
    decreases |nodes.Keys - seen|
  {
    match at
    case None => Some([])
    case Some(id) =>
      if id in seen || id !in nodes then None
      else
        assert nodes.Keys - (seen + {id}) < nodes.Keys - seen;
        SubsetSize(nodes.Keys - (seen + {id}), nodes.Keys - seen);
        match Ancestry(nodes, nodes[id].parent, seen + {id})
        case None => None
        case Some(rest) => Some([id] + rest)
  }

  function Reverse<T>(s: seq<T>): seq<T> {
    if s == [] then [] else Reverse(s[1..]) + [s[0]]
  }

  /** The walk up from the selected node, as the loop performs it. */
  method Walk(nodes: map<NodeId, Node>, start: NodeId) returns (r: Option<seq<NodeId>>)
    ensures r == Ancestry(nodes, Some(start), {})
  {
    var branch, current, seen := [], Some(start), {};
    ghost var whole := Ancestry(nodes, Some(start), {});
    assert whole.Some? ==> [] + whole.value == whole.value;
    while current.Some?
      invariant seen <= nodes.Keys
      invariant whole == Join(branch, Ancestry(nodes, current, seen))
      decreases |nodes.Keys - seen|, if current.Some? then 1 else 0
    {
      var id := current.value;
      if id in seen || id !in nodes {
        return None;
      }
      SubsetSize(nodes.Keys - (seen + {id}), nodes.Keys - seen);
      assert nodes.Keys - (seen + {id}) < nodes.Keys - seen;
      JoinTwice(branch, [id], Ancestry(nodes, nodes[id].parent, seen + {id}));
      seen, branch := seen + {id}, branch + [id];
      current := nodes[id].parent;
    }
    assert branch + [] == branch;
    r := Some(branch);
  }

  ghost function Join(done: seq<NodeId>, rest: Option<seq<NodeId>>): Option<seq<NodeId>> {
    if rest.Some? then Some(done + rest.value) else None
  }

  lemma JoinTwice(a: seq<NodeId>, b: seq<NodeId>, rest: Option<seq<NodeId>>)
    ensures Join(a, Join(b, rest)) == Join(a + b, rest)
  {
    if rest.Some? { assert a + (b + rest.value) == (a + b) + rest.value; }
  }

  /** What attaching one message must answer. */
  ghost predicate Attaches(chat: Chat, m: Message, placeholders: set<NodeId>, r: Result<Attached, Refusal>) {
    if exists x :: Delivers(chat.nodes, x, m.id) then
      exists x :: Delivers(chat.nodes, x, m.id)
        && r == if chat.nodes[x].content == m.content then Ok(Attached(chat, x, false)) else Err(Edited)
    else if chat.current.Some? && chat.current.value !in chat.nodes then r == Err(BrokenSelection)
    else if TargetOf(chat, m, placeholders) in chat.nodes && !Reusable(chat, placeholders) then r == Err(Collision)
    else
      var id, nodes := TargetOf(chat, m, placeholders), Placed(chat, m, placeholders);
      match Ancestry(nodes, Some(id), {})
      case None => r == Err(BrokenAncestry)
      case Some(up) => r == Ok(Attached(Chat(nodes, Some(id), Reverse(up)), id, true))
  }

  /** Finds the node that already delivers a message, if any. */
  method FindDelivery(nodes: map<NodeId, Node>, id: nat) returns (found: Option<NodeId>)
    ensures found.Some? ==> Delivers(nodes, found.value, id)
    ensures found.None? ==> forall x :: !Delivers(nodes, x, id)
  {
    var left := nodes.Keys;
    while left != {}
      invariant left <= nodes.Keys
      invariant forall x :: x in nodes && x !in left ==> nodes[x].delivery != Some(id)
      decreases left
    {
      var x :| x in left;
      if nodes[x].delivery == Some(id) {
        return Some(x);
      }
      left := left - {x};
    }
    found := None;
  }

  method AttachMessage(chat: Chat, m: Message, placeholders: set<NodeId>) returns (r: Result<Attached, Refusal>)
    ensures Attaches(chat, m, placeholders, r)
  {
    var found := FindDelivery(chat.nodes, m.id);
    if found.Some? {
      r := if chat.nodes[found.value].content == m.content then Ok(Attached(chat, found.value, false)) else Err(Edited);
      return;
    }
    if chat.current.Some? && chat.current.value !in chat.nodes {
      return Err(BrokenSelection);
    }
    var reusable := Reusable(chat, placeholders);
    var id := if reusable then chat.current.value else Derived(m.id);
    if id in chat.nodes && !reusable {
      return Err(Collision);
    }
    var nodes := chat.nodes[id := Node(if reusable then chat.nodes[id].parent else chat.current, [], m.content, false, true, Some(m.id))];
    if !reusable && chat.current.Some? {
      var p := chat.current.value;
      if id !in nodes[p].children {
        nodes := nodes[p := nodes[p].(children := nodes[p].children + [id])];
      }
    }
    var up := Walk(nodes, id);
    if up.None? {
      return Err(BrokenAncestry);
    }
    r := Ok(Attached(Chat(nodes, Some(id), Reverse(up.value)), id, true));
  }

  /*------------------------------------------------------------------ ancestry */

  ghost predicate Ranked(nodes: map<NodeId, Node>, rank: map<NodeId, nat>) {
    && nodes.Keys <= rank.Keys
    && forall x :: x in nodes && nodes[x].parent.Some? ==>
         nodes[x].parent.value in nodes && rank[nodes[x].parent.value] < rank[x]
  }

  /** Every node leads to a root without meeting itself. */
  ghost predicate Acyclic(nodes: map<NodeId, Node>) {
    exists rank :: Ranked(nodes, rank)
  }

  /** The branch runs from a root, parent by parent, to `last`. */
  ghost predicate RootPath(nodes: map<NodeId, Node>, branch: seq<NodeId>, last: NodeId) {
    && branch != [] && branch[|branch| - 1] == last
    && (forall i :: 0 <= i < |branch| ==> branch[i] in nodes)
    && nodes[branch[0]].parent == None
    && forall i :: 0 < i < |branch| ==> nodes[branch[i]].parent == Some(branch[i - 1])
  }

  lemma {:induction false} RankedLeadsUp(nodes: map<NodeId, Node>, rank: map<NodeId, nat>, id: NodeId, seen: set<NodeId>)
    requires Ranked(nodes, rank) && id in nodes && seen <= nodes.Keys
    requires forall x :: x in seen ==> rank[x] > rank[id]
    ensures Ancestry(nodes, Some(id), seen).Some?
    decreases rank[id]
  {
    if nodes[id].parent.Some? {
      RankedLeadsUp(nodes, rank, nodes[id].parent.value, seen + {id});
    }
  }

  /** In an acyclic tree the walk always reaches a root. */
  lemma AcyclicLeadsUp(nodes: map<NodeId, Node>, id: NodeId)
    requires Acyclic(nodes) && id in nodes
    ensures Ancestry(nodes, Some(id), {}).Some?
  {
    var rank :| Ranked(nodes, rank);
    RankedLeadsUp(nodes, rank, id, {});
  }

  lemma {:induction false} WalkedIsPath(nodes: map<NodeId, Node>, id: NodeId, seen: set<NodeId>)
    requires seen <= nodes.Keys && Ancestry(nodes, Some(id), seen).Some?
    ensures RootPath(nodes, Reverse(Ancestry(nodes, Some(id), seen).value), id)
    decreases |nodes.Keys - seen|
  {
    assert nodes.Keys - (seen + {id}) < nodes.Keys - seen;
    SubsetSize(nodes.Keys - (seen + {id}), nodes.Keys - seen);
    var parent := nodes[id].parent;
    var rest := Ancestry(nodes, parent, seen + {id}).value;
    assert Ancestry(nodes, Some(id), seen).value[1..] == rest;
    if parent.Some? {
      WalkedIsPath(nodes, parent.value, seen + {id});
    }
  }

  /** Placing a message keeps the tree acyclic, whether in a placeholder or on a new node. */
  lemma PlacedStaysAcyclic(chat: Chat, m: Message, placeholders: set<NodeId>)
    requires Acyclic(chat.nodes) && (chat.current.Some? ==> chat.current.value in chat.nodes)
    requires Reusable(chat, placeholders) || TargetOf(chat, m, placeholders) !in chat.nodes
    ensures Acyclic(Placed(chat, m, placeholders))
  {
    var rank :| Ranked(chat.nodes, rank);
    var id := TargetOf(chat, m, placeholders);
    var height := if Reusable(chat, placeholders) then rank[id] else if chat.current.Some? then rank[chat.current.value] + 1 else 0;
    assert Ranked(Placed(chat, m, placeholders), rank[id := height]);
  }

  ghost predicate Lists(nodes: map<NodeId, Node>, p: NodeId, x: NodeId) {
    p in nodes && x in nodes[p].children
  }

  /** Child lists and parent names agree. */
  ghost predicate Linked(nodes: map<NodeId, Node>) {
    forall p, x :: Lists(nodes, p, x) <==> (x in nodes && nodes[x].parent == Some(p))
  }

  /** Every child listed before is still listed. */
  ghost predicate KeepsChildren(before: map<NodeId, Node>, after: map<NodeId, Node>) {
    forall p, x :: Lists(before, p, x) ==> Lists(after, p, x)
  }

  /** The message was delivered before, with another text. */
  ghost predicate Edits(chat: Chat, m: Message) {
    && (exists x :: Delivers(chat.nodes, x, m.id))
    && forall x :: Delivers(chat.nodes, x, m.id) ==> chat.nodes[x].content != m.content
  }

  /** The message was not delivered, the selection exists, and there is a placeholder or a free name. */
  ghost predicate Fresh(chat: Chat, m: Message, placeholders: set<NodeId>) {
    && (forall x :: !Delivers(chat.nodes, x, m.id)) && (chat.current.Some? ==> chat.current.value in chat.nodes)
    && (Reusable(chat, placeholders) || Derived(m.id) !in chat.nodes)
  }

  /**
   What an answer means: success leaves the message's text in a node that delivers it, anew exactly when none did before
   and then selected at the end of the projected branch; a delivery with another text is refused as an edit; and a new
   message is never refused when the tree is acyclic, its selection exists and its name is free.
   */
  lemma AnswerMeans(chat: Chat, m: Message, placeholders: set<NodeId>, r: Result<Attached, Refusal>)
    requires Attaches(chat, m, placeholders, r)
    ensures r.Ok? ==>
      var a := r.value;
      && Delivers(a.chat.nodes, a.node, m.id) && a.chat.nodes[a.node].content == m.content
      && (a.changed <==> forall x :: !Delivers(chat.nodes, x, m.id)) && (!a.changed ==> a.chat == chat)
      && (a.changed ==>
            && a.chat.current == Some(a.node) && RootPath(a.chat.nodes, a.chat.branch, a.node)
            && forall x :: x in chat.nodes && x != a.node && Some(x) != chat.current ==> x in a.chat.nodes && a.chat.nodes[x] == chat.nodes[x])
    ensures Edits(chat, m) ==> r == Err(Edited)
    ensures Fresh(chat, m, placeholders) && Acyclic(chat.nodes) ==> r.Ok?
  {
    if forall x :: !Delivers(chat.nodes, x, m.id) {
      if r.Ok? {
        MessageIsListed(chat, m, placeholders);
        WalkedIsPath(Placed(chat, m, placeholders), TargetOf(chat, m, placeholders), {});
      } else if Fresh(chat, m, placeholders) && Acyclic(chat.nodes) {
        PlacedStaysAcyclic(chat, m, placeholders);
        AcyclicLeadsUp(Placed(chat, m, placeholders), TargetOf(chat, m, placeholders));
      }
    }
  }

  /** The message is placed under the selected node, or where the placeholder stood; no other node changes. */
  lemma MessageIsListed(chat: Chat, m: Message, placeholders: set<NodeId>)
    requires chat.current.Some? ==> chat.current.value in chat.nodes
    requires Reusable(chat, placeholders) || TargetOf(chat, m, placeholders) !in chat.nodes
    ensures var nodes, id := Placed(chat, m, placeholders), TargetOf(chat, m, placeholders);
      && nodes.Keys == chat.nodes.Keys + {id}
      && nodes[id] == Node(if Reusable(chat, placeholders) then chat.nodes[id].parent else chat.current, [], m.content, false, true, Some(m.id))
      && (!Reusable(chat, placeholders) && chat.current.Some? ==>
            nodes[chat.current.value] == chat.nodes[chat.current.value].(children := nodes[chat.current.value].children)
            && (chat.nodes[chat.current.value].children == nodes[chat.current.value].children
                || chat.nodes[chat.current.value].children + [id] == nodes[chat.current.value].children)
            && Lists(nodes, chat.current.value, id))
      && (forall x :: x in chat.nodes && x != id && Some(x) != chat.current ==> nodes[x] == chat.nodes[x])
  {
    if !Reusable(chat, placeholders) && chat.current.Some? {
      var nodes, id, p := Placed(chat, m, placeholders), TargetOf(chat, m, placeholders), chat.current.value;
      if id !in chat.nodes[p].children {
        assert nodes[p].children[|chat.nodes[p].children|] == id;
      }
    }
  }

  /** No node loses a child exactly when no placeholder is reused, or the reused one is a leaf. */
  lemma NoChildLostExactly(chat: Chat, m: Message, placeholders: set<NodeId>)
    requires chat.current.Some? ==> chat.current.value in chat.nodes
    requires Reusable(chat, placeholders) || TargetOf(chat, m, placeholders) !in chat.nodes
    ensures KeepsChildren(chat.nodes, Placed(chat, m, placeholders))
       <==> (!Reusable(chat, placeholders) || chat.nodes[chat.current.value].children == [])
  {
    MessageIsListed(chat, m, placeholders);
    var nodes, id := Placed(chat, m, placeholders), TargetOf(chat, m, placeholders);
    if Reusable(chat, placeholders) {
      if chat.nodes[id].children != [] {
        assert Lists(chat.nodes, id, chat.nodes[id].children[0]) && !Lists(nodes, id, chat.nodes[id].children[0]);
      }
    } else {
      hide Placed, Reusable;
      forall p, x | Lists(chat.nodes, p, x) ensures Lists(nodes, p, x) {
        if chat.current == Some(p) { assert x in chat.nodes[p].children + [id]; }
      }
    }
  }

  /** Placing keeps child lists and parent names in agreement under exactly the same condition. */
  lemma LinksKeptExactly(chat: Chat, m: Message, placeholders: set<NodeId>)
    requires chat.current.Some? ==> chat.current.value in chat.nodes
    requires Reusable(chat, placeholders) || TargetOf(chat, m, placeholders) !in chat.nodes
    requires Linked(chat.nodes)
    ensures Linked(Placed(chat, m, placeholders))
       <==> (!Reusable(chat, placeholders) || chat.nodes[chat.current.value].children == [])
  {
    MessageIsListed(chat, m, placeholders);
    var nodes, id := Placed(chat, m, placeholders), TargetOf(chat, m, placeholders);
    if Reusable(chat, placeholders) && chat.nodes[id].children != [] {
      var b := chat.nodes[id].children[0];
      assert Lists(chat.nodes, id, b) && !Lists(nodes, id, b);
      assert nodes[b].parent == chat.nodes[b].parent;
    } else if Reusable(chat, placeholders) {
      forall p, x ensures Lists(nodes, p, x) <==> (x in nodes && nodes[x].parent == Some(p)) {
        assert Lists(nodes, p, x) <==> Lists(chat.nodes, p, x);
      }
    } else {
      hide Placed, Reusable;
      forall p, x ensures Lists(nodes, p, x) <==> (x in nodes && nodes[x].parent == Some(p)) {
        NewLinks(chat, nodes, id, p, x);
      }
    }
  }

  lemma NewLinks(chat: Chat, nodes: map<NodeId, Node>, id: NodeId, p: NodeId, x: NodeId)
    requires Linked(chat.nodes) && id !in chat.nodes && nodes.Keys == chat.nodes.Keys + {id}
    requires nodes[id].parent == chat.current && nodes[id].children == []
    requires chat.current.Some? ==>
      (chat.current.value in chat.nodes
       && nodes[chat.current.value].parent == chat.nodes[chat.current.value].parent
       && nodes[chat.current.value].children == chat.nodes[chat.current.value].children + [id])
    requires forall y :: y in chat.nodes && Some(y) != chat.current ==> nodes[y] == chat.nodes[y]
    ensures Lists(nodes, p, x) <==> (x in nodes && nodes[x].parent == Some(p))
  {
    assert Lists(chat.nodes, p, x) <==> (x in chat.nodes && chat.nodes[x].parent == Some(p));
    assert !Lists(chat.nodes, p, id);
  }

  /** A placeholder `a` with a child `b`: the message is accepted, `a` lists nothing and `b` still names `a`. */
  lemma PlaceholderLosesItsChild(a: NodeId, b: NodeId, m: Message, r: Result<Attached, Refusal>)
    requires a != b
    requires var chat := Chat(map[a := Node(None, [b], 0, false, true, None), b := Node(Some(a), [], 1, false, true, None)], Some(a), [a]);
      Attaches(chat, m, {a}, r)
    ensures r.Ok? && r.value.node == a && a in r.value.chat.nodes && b in r.value.chat.nodes
    ensures r.value.chat.nodes[a].children == [] && r.value.chat.nodes[b].parent == Some(a)
  {
    var chat := Chat(map[a := Node(None, [b], 0, false, true, None), b := Node(Some(a), [], 1, false, true, None)], Some(a), [a]);
    assert Ranked(chat.nodes, map[a := 0, b := 1]);
    PlacedStaysAcyclic(chat, m, {a});
    AcyclicLeadsUp(Placed(chat, m, {a}), a);
  }
}
