/**
 Versioned memories and read-before-replace (dmn/storage.py:152-185, 223-250, dmn/runtime.py:934,
 1087-1089, 1271-1310).
 */
module Memories {
  import opened Wrappers

  type Path = nat
  type Content = string

  /** The most characters one read returns. */
  const PAGE := 2000

  /** One archived version; no content records a removal. */
  datatype Row = Row(path: Path, revision: nat, content: Option<Content>)

  datatype Store = Store(rows: seq<Row>, live: map<Path, Content>)

  datatype Effect =
    | Write(path: Path, content: Content, expected: nat)
    | Delete(path: Path, expected: nat)
    | Move(path: Path, destination: Path, expected: nat)

  function NextRevision(rows: seq<Row>, path: Path): (r: nat)
    ensures r >= 1
  {
    if rows == [] then 1
    else
      var last, before := rows[|rows| - 1], NextRevision(rows[..|rows| - 1], path);
      if last.path == path then Max(before, last.revision + 1) else before
  }

  /** The revision of a live memory; 0 when there is none. */
  function CurrentRevision(s: Store, path: Path): nat {
    if path in s.live then NextRevision(s.rows, path) - 1 else 0
  }

  function Archive(rows: seq<Row>, path: Path, content: Option<Content>): seq<Row> {
    rows + [Row(path, NextRevision(rows, path), content)]
  }

  /** One effect inside the checkpoint transaction; None aborts it. */
  function CommitEffect(s: Store, e: Effect): Option<Store> {
    if CurrentRevision(s, e.path) != e.expected then None
    else
      match e
      case Write(path, content, _) => Some(Store(Archive(s.rows, path, Some(content)), s.live[path := content]))
      case Delete(path, _) => Some(Store(Archive(s.rows, path, None), s.live - {path}))
      case Move(path, destination, _) =>
        if path !in s.live || destination in s.live then None
        else
          Some(Store(Archive(Archive(s.rows, path, None), destination, Some(s.live[path])),
                     (s.live - {path})[destination := s.live[path]]))
  }

  /** The newest version of a path, if it has any. */
  function Newest(rows: seq<Row>, path: Path): Option<Row> {
    if rows == [] then None
    else if rows[|rows| - 1].path == path then Some(rows[|rows| - 1]) else Newest(rows[..|rows| - 1], path)
  }

  function Versions(rows: seq<Row>, path: Path): nat {
    if rows == [] then 0
    else Versions(rows[..|rows| - 1], path) + (if rows[|rows| - 1].path == path then 1 else 0)
  }

  /*------------------------------------------------------------------ the runtime's checks */

  /** What the sequence contains, as far as memories are concerned; a read shows the characters from `low` up to `high`. */
  datatype Entry = ReadOf(path: Path, revision: nat, low: nat, high: nat) | Retired | Changed(effect: Effect)

  /** Part of the checkpointed runtime state: granted reads, and the sequence. */
  datatype Mind = Mind(granted: map<Path, nat>, trace: seq<Entry>)

  datatype State = State(store: Store, saved: Mind, mind: Mind)

  predicate Permitted(s: State, e: Effect) {
    var current := CurrentRevision(s.store, e.path);
    && (e.Delete? ==> e.path in s.store.live)
    && (e.Move? ==> e.path in s.store.live && e.destination !in s.store.live)
    && e.expected == current
    && (current > 0 ==> e.path in s.mind.granted && s.mind.granted[e.path] == current)
  }

  datatype Op =
    | Reading(path: Path, offset: nat, limit: nat, complete: bool)
    | Retiring
    | Changing(effect: Effect)
    | Saving
    | Crashing

  /** The characters that enter the sequence; of a result too long for the event budget none is counted. */
  function Page(content: Content, offset: nat, limit: nat, complete: bool): (r: (nat, nat)) {
    if complete then (Min(offset, |content|), Min(offset + limit, |content|)) else (0, 0)
  }

  function Apply(s: State, op: Op): State {
    match op
    case Reading(path, offset, limit, complete) =>
      if path !in s.store.live || !(1 <= limit <= PAGE) then s
      else
        var revision := CurrentRevision(s.store, path);
        var (low, high) := Page(s.store.live[path], offset, limit, complete);
        s.(mind := Mind(s.mind.granted[path := revision], s.mind.trace + [ReadOf(path, revision, low, high)]))
    case Retiring => s.(mind := Mind(map[], s.mind.trace + [Retired]))
    case Changing(e) =>
      if !Permitted(s, e) then s
      else
        (match CommitEffect(s.store, e)
         case None => s
         case Some(store) => var mind := s.mind.(trace := s.mind.trace + [Changed(e)]); State(store, mind, mind))
    case Saving => s.(saved := s.mind)
    case Crashing => s.(mind := s.saved)
  }

  class MemoryStore {
    var rows: seq<Row>
    var live: map<Path, Content>

    ghost function Now(): Store
      reads this
    {
      Store(rows, live)
    }

    /** Revisions have no gaps, and the live memories are the last versions. */
    ghost predicate Valid()
      reads this
    {
      Numbered(rows) && LiveIsNewest(Now())
    }

    constructor ()
      ensures Valid() && Now() == Store([], map[])
    {
      rows, live := [], map[];
    }

    method ArchiveMemory(path: Path, content: Option<Content>)
      modifies this`rows
      ensures rows == Archive(old(rows), path, content)
    {
      var revision := 1;
      for i := 0 to |rows|
        invariant rows == old(rows) && revision == NextRevision(rows[..i], path)
      {
        assert rows[..i + 1][..i] == rows[..i];
        if rows[i].path == path {
          revision := Max(revision, rows[i].revision + 1);
        }
      }
      assert rows[..|rows|] == rows;
      rows := rows + [Row(path, revision, content)];
    }

    method Commit(e: Effect) returns (ok: bool)
      requires Valid()
      modifies this
      ensures Valid()
      ensures ok <==> Accepts(old(Now()), e)
      ensures if ok then Committed(old(Now()), e, Now()) else Now() == old(Now())
      ensures ok <==> CommitEffect(old(Now()), e).Some?
      ensures ok ==> Now() == CommitEffect(old(Now()), e).value
    {
      ghost var before := Now();
      CommitMeans(before, e);
      if CommitEffect(before, e).Some? {
        CommitKeeps(before, e);
      }
      hide Committed, Accepts, Numbered, LiveIsNewest;
      ok := CurrentRevision(Store(rows, live), e.path) == e.expected;
      if !ok {
        return;
      }
      match e {
        case Write(path, content, _) =>
          live := live[path := content];
          ArchiveMemory(path, Some(content));
        case Delete(path, _) =>
          live := live - {path};
          ArchiveMemory(path, None);
        case Move(path, destination, _) =>
          if path !in live || destination in live {
            return false;
          }
          var content := live[path];
          live := (live - {path})[destination := content];
          ArchiveMemory(path, None);
          ArchiveMemory(destination, Some(content));
      }
    }
  }

  /*------------------------------------------------------------------ invariants */

  /** Versions of each path are numbered 1, 2, 3, ... in the order they were archived. */
  ghost predicate Numbered(rows: seq<Row>) {
    forall i :: 0 <= i < |rows| ==> rows[i].revision == Versions(rows[..i], rows[i].path) + 1
  }

  /** The live map is the last version of each path. */
  ghost predicate LiveIsNewest(s: Store) {
    forall p ::
      && (p in s.live <==> Newest(s.rows, p).Some? && Newest(s.rows, p).value.content.Some?)
      && (p in s.live ==> s.live[p] == Newest(s.rows, p).value.content.value)
  }

  /** The version of `path` at index `i` of the sequence was read after the last retirement before `end`. */
  ghost predicate ReadAt(trace: seq<Entry>, i: nat, end: nat, path: Path, revision: nat) {
    && i < end <= |trace| && trace[i].ReadOf? && trace[i].path == path && trace[i].revision == revision
    && forall j :: i < j < end ==> trace[j] != Retired
  }

  ghost predicate ReadSince(trace: seq<Entry>, end: nat, path: Path, revision: nat) {
    exists i: nat :: ReadAt(trace, i, end, path, revision)
  }

  ghost predicate MindSound(m: Mind) {
    && (forall p :: p in m.granted ==> ReadSince(m.trace, |m.trace|, p, m.granted[p]))
    && (forall k :: 0 <= k < |m.trace| && m.trace[k].Changed? && m.trace[k].effect.expected > 0 ==>
          ReadSince(m.trace, k, m.trace[k].effect.path, m.trace[k].effect.expected))
  }

  ghost predicate Sound(s: State) {
    Numbered(s.store.rows) && LiveIsNewest(s.store) && MindSound(s.saved) && MindSound(s.mind)
  }

  lemma {:induction false} NextIsCount(rows: seq<Row>, path: Path)
    requires Numbered(rows)
    ensures NextRevision(rows, path) == Versions(rows, path) + 1
  {
    if rows != [] {
      var front := rows[..|rows| - 1];
      forall i | 0 <= i < |front| ensures front[i].revision == Versions(front[..i], front[i].path) + 1 {
        assert front[..i] == rows[..i];
      }
      NextIsCount(front, path);
    }
  }

  lemma ArchiveKeeps(rows: seq<Row>, path: Path, content: Option<Content>)
    requires Numbered(rows)
    ensures Numbered(Archive(rows, path, content)) && rows <= Archive(rows, path, content)
    ensures Newest(Archive(rows, path, content), path) == Some(Row(path, Versions(rows, path) + 1, content))
    ensures forall p :: p != path ==> Newest(Archive(rows, path, content), p) == Newest(rows, p)
  {
    NextIsCount(rows, path);
    var longer := Archive(rows, path, content);
    assert longer[..|rows|] == rows;
    forall i | 0 <= i < |longer| ensures longer[i].revision == Versions(longer[..i], longer[i].path) + 1 {
      if i < |rows| { assert longer[..i] == rows[..i]; }
    }
  }

  lemma FrontNumbered(rows: seq<Row>)
    requires Numbered(rows) && rows != []
    ensures Numbered(rows[..|rows| - 1])
  {
    var front := rows[..|rows| - 1];
    forall i | 0 <= i < |front| ensures front[i].revision == Versions(front[..i], front[i].path) + 1 {
      assert front[..i] == rows[..i];
    }
  }

  /** The version with a given number is where the count of earlier versions says. */
  lemma {:induction false} RevisionBelow(rows: seq<Row>, i: nat)
    requires Numbered(rows) && i < |rows|
    ensures 1 <= rows[i].revision <= Versions(rows, rows[i].path)
    ensures i < |rows| - 1 ==> rows[i].revision <= Versions(rows[..|rows| - 1], rows[i].path)
    decreases |rows|
  {
    if i < |rows| - 1 {
      FrontNumbered(rows);
      RevisionBelow(rows[..|rows| - 1], i);
    } else {
      assert rows[..i] == rows[..|rows| - 1];
    }
  }

  lemma {:induction false} RevisionExists(rows: seq<Row>, path: Path, r: nat) returns (i: nat)
    requires Numbered(rows) && 1 <= r <= Versions(rows, path)
    ensures i < |rows| && rows[i].path == path && rows[i].revision == r
  {
    var n := |rows| - 1;
    if r <= Versions(rows[..n], path) {
      FrontNumbered(rows);
      i := RevisionExists(rows[..n], path, r);
    } else {
      i := n;
    }
  }

  /** A memory's revisions have no gaps and no repeats: later versions carry larger numbers, and 1..n all exist. */
  lemma {:induction false} RevisionsAscend(rows: seq<Row>, i: nat, j: nat)
    requires Numbered(rows) && i < j < |rows| && rows[i].path == rows[j].path
    ensures rows[i].revision < rows[j].revision
    decreases |rows|
  {
    if j < |rows| - 1 {
      FrontNumbered(rows);
      RevisionsAscend(rows[..|rows| - 1], i, j);
    } else {
      RevisionBelow(rows, i);
      assert rows[..j] == rows[..|rows| - 1];
    }
  }

  lemma CommitKeeps(s: Store, e: Effect)
    requires Numbered(s.rows) && LiveIsNewest(s) && CommitEffect(s, e).Some?
    ensures var t := CommitEffect(s, e).value; Numbered(t.rows) && LiveIsNewest(t) && s.rows <= t.rows
  {
    match e
    case Write(path, content, _) => ArchiveLive(s, path, Some(content));
    case Delete(path, _) => ArchiveLive(s, path, None);
    case Move(path, destination, _) =>
      ArchiveLive(s, path, None);
      ArchiveLive(Store(Archive(s.rows, path, None), s.live - {path}), destination, Some(s.live[path]));
  }

  lemma ArchiveLive(s: Store, path: Path, content: Option<Content>)
    requires Numbered(s.rows) && LiveIsNewest(s)
    ensures var t := Store(Archive(s.rows, path, content), if content.Some? then s.live[path := content.value] else s.live - {path});
      Numbered(t.rows) && LiveIsNewest(t) && s.rows <= t.rows
  {
    ArchiveKeeps(s.rows, path, content);
    hide Archive, Numbered, Newest;
  }

  /** A historical read: the content archived under this number, if it was not a removal. */
  function ReadRevision(rows: seq<Row>, path: Path, revision: nat): Option<Content> {
    if rows == [] then None
    else
      var last := rows[|rows| - 1];
      if last.path == path && last.revision == revision then last.content else ReadRevision(rows[..|rows| - 1], path, revision)
  }

  lemma {:induction false} NewestHasTopNumber(rows: seq<Row>, path: Path)
    requires Numbered(rows)
    ensures Newest(rows, path).Some? <==> Versions(rows, path) > 0
    ensures Newest(rows, path).Some? ==>
      && Newest(rows, path).value.revision == Versions(rows, path)
      && ReadRevision(rows, path, Versions(rows, path)) == Newest(rows, path).value.content
  {
    if rows != [] && rows[|rows| - 1].path != path {
      FrontNumbered(rows);
      NewestHasTopNumber(rows[..|rows| - 1], path);
    }
  }

  lemma {:induction false} OldReadsStay(rows: seq<Row>, more: seq<Row>, path: Path, revision: nat)
    requires Numbered(rows + more) && 1 <= revision <= Versions(rows, path)
    ensures ReadRevision(rows + more, path, revision) == ReadRevision(rows, path, revision)
    decreases |more|
  {
    var all := rows + more;
    if more == [] {
      assert all == rows;
    } else {
      var front := more[..|more| - 1];
      assert all[..|all| - 1] == rows + front;
      FrontNumbered(all);
      OldReadsStay(rows, front, path, revision);
      VersionsGrow(rows, front, path);
    }
  }

  lemma {:induction false} VersionsGrow(rows: seq<Row>, more: seq<Row>, path: Path)
    ensures Versions(rows, path) <= Versions(rows + more, path)
    decreases |more|
  {
    if more == [] {
      assert rows + more == rows;
    } else {
      VersionsGrow(rows, more[..|more| - 1], path);
      assert (rows + more)[..|rows + more| - 1] == rows + more[..|more| - 1];
    }
  }

  /*------------------------------------------------------------------ what a change means */

  /** The change names the revision the memory has; a move needs a memory to move and a free place for it. */
  ghost predicate Accepts(s: Store, e: Effect) {
    && e.expected == (if e.path in s.live then Versions(s.rows, e.path) else 0)
    && (e.Move? ==> e.path in s.live && e.destination !in s.live)
  }

  /** The path holds this content, which is also readable under the path's next revision. */
  ghost predicate NowHolds(s: Store, t: Store, path: Path, content: Content) {
    && path in t.live && t.live[path] == content
    && CurrentRevision(t, path) == Versions(t.rows, path) == Versions(s.rows, path) + 1
    && ReadRevision(t.rows, path, Versions(t.rows, path)) == Some(content)
  }

  /** The path holds nothing, and its next revision records the removal. */
  ghost predicate NowGone(s: Store, t: Store, path: Path) {
    && path !in t.live
    && Versions(t.rows, path) == Versions(s.rows, path) + 1
    && ReadRevision(t.rows, path, Versions(t.rows, path)) == None
  }

  ghost predicate OthersStay(s: Store, t: Store, changed: set<Path>) {
    forall p :: p !in changed ==>
      && (p in t.live <==> p in s.live) && (p in s.live ==> t.live[p] == s.live[p])
      && Versions(t.rows, p) == Versions(s.rows, p)
  }

  ghost predicate Committed(s: Store, e: Effect, t: Store) {
    match e
    case Write(path, content, _) => NowHolds(s, t, path, content) && OthersStay(s, t, {path})
    case Delete(path, _) => NowGone(s, t, path) && OthersStay(s, t, {path})
    case Move(path, destination, _) =>
      && path in s.live && NowHolds(s, t, destination, s.live[path]) && NowGone(s, t, path)
      && OthersStay(s, t, {path, destination})
  }

  lemma VersionsAfter(rows: seq<Row>, path: Path, content: Option<Content>, p: Path)
    requires Numbered(rows)
    ensures var longer := Archive(rows, path, content);
      && Numbered(longer)
      && Versions(longer, p) == Versions(rows, p) + (if p == path then 1 else 0)
      && (p == path ==> ReadRevision(longer, p, Versions(longer, p)) == content)
      && (p != path ==> ReadRevision(longer, p, Versions(longer, p)) == ReadRevision(rows, p, Versions(rows, p)))
  {
    ArchiveKeeps(rows, path, content);
    NextIsCount(rows, path);
    assert Archive(rows, path, content)[..|rows|] == rows;
  }

  /** The revision a checkpoint compares is the number of versions, or 0 when nothing is there. */
  lemma CurrentIsCount(s: Store, path: Path)
    requires Numbered(s.rows)
    ensures CurrentRevision(s, path) == if path in s.live then Versions(s.rows, path) else 0
  {
    NextIsCount(s.rows, path);
  }

  /**
   A checkpoint makes a change exactly when it names the revision the memory has, and then what was written is what
   is stored and archived, what was deleted is gone, what was moved is only where it went, and nothing else changes.
   */
  lemma CommitMeans(s: Store, e: Effect)
    requires Numbered(s.rows)
    ensures CommitEffect(s, e).Some? <==> Accepts(s, e)
    ensures CommitEffect(s, e).Some? ==> Committed(s, e, CommitEffect(s, e).value)
  {
    CurrentIsCount(s, e.path);
    if CommitEffect(s, e).Some? {
      var t := CommitEffect(s, e).value;
      match e
      case Write(path, content, _) => OneArchived(s, t, path, Some(content));
      case Delete(path, _) => OneArchived(s, t, path, None);
      case Move(path, destination, _) => MoveMeans(s, t, path, destination);
    }
  }

  lemma OneArchived(s: Store, t: Store, path: Path, content: Option<Content>)
    requires Numbered(s.rows) && t.rows == Archive(s.rows, path, content)
    requires t.live == if content.Some? then s.live[path := content.value] else s.live - {path}
    ensures if content.Some? then NowHolds(s, t, path, content.value) else NowGone(s, t, path)
    ensures OthersStay(s, t, {path})
  {
    VersionsAfter(s.rows, path, content, path);
    CurrentIsCount(t, path);
    forall p | p != path ensures Versions(t.rows, p) == Versions(s.rows, p) {
      VersionsAfter(s.rows, path, content, p);
    }
  }

  lemma MoveMeans(s: Store, t: Store, path: Path, destination: Path)
    requires Numbered(s.rows) && path in s.live && destination !in s.live
    requires t.rows == Archive(Archive(s.rows, path, None), destination, Some(s.live[path]))
    requires t.live == (s.live - {path})[destination := s.live[path]]
    ensures NowHolds(s, t, destination, s.live[path]) && NowGone(s, t, path) && OthersStay(s, t, {path, destination})
  {
    var between := Archive(s.rows, path, None);
    forall p ensures Numbered(between) && Numbered(t.rows)
        && Versions(t.rows, p) == Versions(s.rows, p) + (if p == path || p == destination then 1 else 0) {
      VersionsAfter(s.rows, path, None, p);
      VersionsAfter(between, destination, Some(s.live[path]), p);
    }
    VersionsAfter(s.rows, path, None, path);
    VersionsAfter(between, destination, Some(s.live[path]), path);
    VersionsAfter(between, destination, Some(s.live[path]), destination);
    CurrentIsCount(t, destination);
  }

  /** What a memory held before a change stays readable under the revision it had. */
  lemma ReplacedContentIsReadable(s: Store, e: Effect, path: Path)
    requires Numbered(s.rows) && LiveIsNewest(s) && CommitEffect(s, e).Some? && path in s.live
    ensures CurrentRevision(s, path) > 0
    ensures ReadRevision(CommitEffect(s, e).value.rows, path, CurrentRevision(s, path)) == Some(s.live[path])
  {
    var t := CommitEffect(s, e).value;
    CommitKeeps(s, e);
    NextIsCount(s.rows, path);
    NewestHasTopNumber(s.rows, path);
    assert t.rows == s.rows + t.rows[|s.rows|..];
    OldReadsStay(s.rows, t.rows[|s.rows|..], path, Versions(s.rows, path));
  }

  /** Moving a memory away and back restores every live memory. */
  lemma MoveBackRestores(s: Store, path: Path, destination: Path)
    requires Numbered(s.rows) && LiveIsNewest(s) && CommitEffect(s, Move(path, destination, CurrentRevision(s, path))).Some?
    ensures var t := CommitEffect(s, Move(path, destination, CurrentRevision(s, path))).value;
      var back := CommitEffect(t, Move(destination, path, CurrentRevision(t, destination)));
      back.Some? && back.value.live == s.live
  {
  }

  lemma ReadsPersist(m: Mind, e: Entry)
    requires MindSound(m) && e != Retired
    requires e.Changed? && e.effect.expected > 0 ==> ReadSince(m.trace, |m.trace|, e.effect.path, e.effect.expected)
    ensures MindSound(m.(trace := m.trace + [e]))
  {
    var trace := m.trace + [e];
    forall p | p in m.granted ensures ReadSince(trace, |trace|, p, m.granted[p]) {
      var i: nat :| ReadAt(m.trace, i, |m.trace|, p, m.granted[p]);
      assert ReadAt(trace, i, |trace|, p, m.granted[p]);
    }
    forall k | 0 <= k < |trace| && trace[k].Changed? && trace[k].effect.expected > 0
      ensures ReadSince(trace, k, trace[k].effect.path, trace[k].effect.expected) {
      EarlierRead(m.trace, e, k, trace[k].effect.path, trace[k].effect.expected);
    }
  }

  lemma EarlierRead(trace: seq<Entry>, e: Entry, k: nat, path: Path, revision: nat)
    requires k <= |trace| && ReadSince(trace, k, path, revision)
    ensures ReadSince(trace + [e], k, path, revision)
  {
    var i: nat :| ReadAt(trace, i, k, path, revision);
    assert ReadAt(trace + [e], i, k, path, revision);
  }

  lemma ReadKeeps(m: Mind, path: Path, revision: nat, low: nat, high: nat)
    requires MindSound(m)
    ensures MindSound(Mind(m.granted[path := revision], m.trace + [ReadOf(path, revision, low, high)]))
  {
    ReadsPersist(m, ReadOf(path, revision, low, high));
    var trace := m.trace + [ReadOf(path, revision, low, high)];
    assert ReadAt(trace, |m.trace|, |trace|, path, revision);
  }

  lemma RetireKeeps(m: Mind)
    requires MindSound(m)
    ensures MindSound(Mind(map[], m.trace + [Retired]))
  {
    var trace := m.trace + [Retired];
    forall k | 0 <= k < |trace| && trace[k].Changed? && trace[k].effect.expected > 0
      ensures ReadSince(trace, k, trace[k].effect.path, trace[k].effect.expected) {
      EarlierRead(m.trace, Retired, k, trace[k].effect.path, trace[k].effect.expected);
    }
  }

  lemma StepKeeps(s: State, op: Op)
    requires Sound(s)
    ensures Sound(Apply(s, op)) && s.store.rows <= Apply(s, op).store.rows
  {
    hide MindSound, Numbered, LiveIsNewest, CommitEffect;
    match op
    case Reading(path, offset, limit, complete) =>
      if path in s.store.live && 1 <= limit <= PAGE {
        var (low, high) := Page(s.store.live[path], offset, limit, complete);
        ReadKeeps(s.mind, path, CurrentRevision(s.store, path), low, high);
      }
    case Retiring => RetireKeeps(s.mind);
    case Changing(e) =>
      if Permitted(s, e) && CommitEffect(s.store, e).Some? {
        CommitKeeps(s.store, e);
        GrantWasRead(s, e);
        ReadsPersist(s.mind, Changed(e));
      }
    case _ =>
  }

  lemma GrantWasRead(s: State, e: Effect)
    requires MindSound(s.mind) && Permitted(s, e)
    ensures e.expected > 0 ==> ReadSince(s.mind.trace, |s.mind.trace|, e.path, e.expected)
  {
  }

  function Run(s: State, ops: seq<Op>): State {
    if ops == [] then s else Apply(Run(s, ops[..|ops| - 1]), ops[|ops| - 1])
  }

  function Initial(): State {
    State(Store([], map[]), Mind(map[], []), Mind(map[], []))
  }

  /**
   In every run: versions are numbered without gaps, the live map is the last version of each path, and in the
   sequence every change of a live memory follows a read of exactly that revision since the latest retirement.
   */
  lemma {:induction false} EveryRunIsSound(ops: seq<Op>)
    ensures Sound(Run(Initial(), ops))
  {
    if ops != [] {
      EveryRunIsSound(ops[..|ops| - 1]);
      StepKeeps(Run(Initial(), ops[..|ops| - 1]), ops[|ops| - 1]);
    }
  }

  /*------------------------------------------------------------------ what the mind's changes do */

  /** The revision the change names was read: no memory is replaced that the mind does not know. */
  ghost predicate Known(s: State, e: Effect) {
    e.path in s.store.live ==> e.path in s.mind.granted && s.mind.granted[e.path] == Versions(s.store.rows, e.path)
  }

  /** A change takes effect exactly when the store accepts it and it is of a known memory; it is then saved at once. */
  lemma ChangeTakesEffect(s: State, e: Effect)
    requires Sound(s)
    ensures var t, made := Apply(s, Changing(e)), Accepts(s.store, e) && Known(s, e) && (e.Delete? ==> e.path in s.store.live);
      if made then
        Committed(s.store, e, t.store) && t.mind == Mind(s.mind.granted, s.mind.trace + [Changed(e)]) && t.saved == t.mind
      else t == s
  {
    CurrentIsCount(s.store, e.path);
    NewestHasTopNumber(s.store.rows, e.path);
    assert e.path in s.store.live ==> Versions(s.store.rows, e.path) > 0;
    CommitMeans(s.store, e);
    hide Numbered, LiveIsNewest, MindSound, Committed;
  }

  /** Until the next save or change, a crash takes the mind back to the last one, whatever was read or retired since. */
  lemma {:induction false} CrashGoesBack(s: State, ops: seq<Op>)
    requires s.mind == s.saved && forall i :: 0 <= i < |ops| ==> !ops[i].Saving? && !ops[i].Changing?
    ensures Run(s, ops).store == s.store && Run(s, ops).saved == s.saved
    ensures Apply(Run(s, ops), Crashing) == s && Apply(Apply(Run(s, ops), Saving), Crashing).mind == Run(s, ops).mind
  {
    if ops != [] {
      CrashGoesBack(s, ops[..|ops| - 1]);
    }
  }

  /*------------------------------------------------------------------ what a grant says of the content */

  predicate Shown(low: nat, i: nat, high: nat) {
    low <= i < high
  }

  function Positions(low: nat, high: nat): set<nat> {
    set i: nat | low <= i < high && Shown(low, i, high)
  }

  /** The characters of this revision that entered the sequence since the latest retirement. */
  function Seen(trace: seq<Entry>, path: Path, revision: nat): set<nat> {
    if trace == [] then {}
    else
      var last, before := trace[|trace| - 1], Seen(trace[..|trace| - 1], path, revision);
      match last
      case Retired => {}
      case ReadOf(p, r, low, high) => if p == path && r == revision then before + Positions(low, high) else before
      case Changed(_) => before
  }

  lemma SeenAfter(m: Mind, e: Entry, path: Path, revision: nat)
    ensures Seen(m.trace + [e], path, revision) ==
      match e
      case Retired => {}
      case ReadOf(p, r, low, high) =>
        if p == path && r == revision then Seen(m.trace, path, revision) + Positions(low, high) else Seen(m.trace, path, revision)
      case Changed(_) => Seen(m.trace, path, revision)
  {
    assert (m.trace + [e])[..|m.trace|] == m.trace;
  }

  /**
   Every successful read grants the replacement. It means that the whole content has been in the sequence
   exactly when what this page did not deliver had been read before.
   */
  lemma GrantMeansContentExactly(s: State, path: Path, offset: nat, limit: nat, complete: bool)
    requires path in s.store.live && 1 <= limit <= PAGE
    ensures var t, revision, content := Apply(s, Reading(path, offset, limit, complete)), CurrentRevision(s.store, path), s.store.live[path];
      && path in t.mind.granted && t.mind.granted[path] == revision
      && (Positions(0, |content|) <= Seen(t.mind.trace, path, revision) <==>
            (Positions(0, |content|) <= Seen(s.mind.trace, path, revision)
             || (complete && forall i: nat :: i < |content| && !(offset <= i < offset + limit) ==> i in Seen(s.mind.trace, path, revision))))
  {
    var content, revision := s.store.live[path], CurrentRevision(s.store, path);
    var (low, high) := Page(content, offset, limit, complete);
    SeenAfter(s.mind, ReadOf(path, revision, low, high), path, revision);
    hide Seen;
    var seen := Seen(s.mind.trace, path, revision);
    if Positions(0, |content|) <= seen + Positions(low, high) && !(Positions(0, |content|) <= seen) {
      forall i: nat | i < |content| && !(offset <= i < offset + limit) ensures i in seen {
        assert i in Positions(0, |content|);
      }
    }
  }

  /** A page past the end grants the replacement of a memory of which nothing has entered since the retirement. */
  lemma UnreadReplacementIsPermitted(s: State, path: Path, content: Content)
    requires Sound(s) && path in s.store.live
    ensures var t := Apply(Apply(s, Retiring), Reading(path, |s.store.live[path]|, 1, true));
      && Seen(t.mind.trace, path, CurrentRevision(s.store, path)) == {}
      && Permitted(t, Write(path, content, CurrentRevision(s.store, path)))
  {
    var revision, length := CurrentRevision(s.store, path), |s.store.live[path]|;
    var retired := Apply(s, Retiring);
    SeenAfter(s.mind, Retired, path, revision);
    SeenAfter(retired.mind, ReadOf(path, revision, length, length), path, revision);
    hide Seen;
    assert Positions(length, length) == {};
  }

  /** No step of a run, a crash included, alters or removes an archived version. */
  lemma {:induction false} VersionsArePermanent(ops: seq<Op>, k: nat)
    requires k <= |ops|
    ensures Run(Initial(), ops[..k]).store.rows <= Run(Initial(), ops).store.rows
    decreases |ops|
  {
    if k == |ops| {
      assert ops[..k] == ops;
    } else {
      var front := ops[..|ops| - 1];
      VersionsArePermanent(front, k);
      assert front[..k] == ops[..k];
      EveryRunIsSound(front);
      StepKeeps(Run(Initial(), front), ops[|ops| - 1]);
    }
  }
}
