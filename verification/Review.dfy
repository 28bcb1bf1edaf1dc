/** Review of compiled plans, page by page (dmn/sleep_plans.py:240-283, 303-322, 341-352, dmn/runtime.py:1071-1076). */
module Review {
  import opened Wrappers

  type Plan = nat

  /** A page of plan text that entered the sequence complete. */
  datatype Page = Page(plan: Plan, offset: nat, next: nat)

  /** Credited offsets and the pages delivered so far; both are part of the checkpoint. */
  datatype Mind = Mind(credited: map<Plan, nat>, delivered: seq<Page>)

  datatype State = State(saved: Mind, mind: Mind, approved: set<Plan>)

  function Credited(m: Mind, p: Plan): nat {
    if p in m.credited then m.credited[p] else 0
  }

  /** The page limit after halving until the result fits its event. */
  function FittingLimit(limit: nat, fits: nat -> bool): Option<nat> {
    if limit < 1 then None
    else if fits(limit) then Some(limit) else FittingLimit(limit / 2, fits)
  }

  method FitPage(limit: nat, fits: nat -> bool) returns (r: Option<nat>)
    requires limit >= 1
    ensures r == FittingLimit(limit, fits)
    ensures r.Some? ==> 1 <= r.value <= limit && fits(r.value)
  {
    var left := limit;
    while true
      invariant 1 <= left <= limit && FittingLimit(left, fits) == FittingLimit(limit, fits)
      decreases left
    {
      if fits(left) {
        return Some(left);
      }
      left := left / 2;
      if left < 1 {
        return None;
      }
    }
  }

  /** Credit moves to the page's end only when the page begins at or before it and reaches it. */
  function Credit(reviewed: nat, offset: nat, next: nat): nat {
    if offset <= reviewed <= next then next else reviewed
  }

  /** Plan texts are immutable; `length` gives their sizes. */
  datatype Op =
    | Reading(plan: Plan, offset: Option<nat>, limit: nat, complete: bool, current: bool)
    | Approving(plan: Plan)
    | Saving
    | Restoring(kept: set<Plan>)

  predicate Enabled(op: Op) {
    op.Reading? ==> op.limit >= 1
  }

  function OffsetOf(m: Mind, op: Op): nat
    requires op.Reading?
  {
    if op.offset.Some? then op.offset.value else if op.current then Credited(m, op.plan) else 0
  }

  function Read(m: Mind, op: Op, length: Plan -> nat): Mind
    requires op.Reading?
  {
    if !op.complete then m
    else
      var offset := OffsetOf(m, op);
      var next := Min(length(op.plan), offset + op.limit);
      var delivered := m.delivered + [Page(op.plan, offset, next)];
      var reviewed := Credited(m, op.plan);
      if !op.current || Credit(reviewed, offset, next) == reviewed then m.(delivered := delivered)
      else Mind(m.credited[op.plan := Credit(reviewed, offset, next)], delivered)
  }

  /** A receipt survives a restart only for a plan that is still current, and within its text. */
  function Restore(m: Mind, current: set<Plan>, length: Plan -> nat): Mind {
    m.(credited := map p | p in m.credited && p in current && 0 < m.credited[p] <= length(p) :: m.credited[p])
  }

  function Apply(s: State, op: Op, length: Plan -> nat): State {
    match op
    case Reading(_, _, _, _, _) => s.(mind := Read(s.mind, op, length))
    case Approving(p) =>
      if Credited(s.mind, p) < length(p) then s else State(s.mind, s.mind, s.approved + {p})
    case Saving => s.(saved := s.mind)
    case Restoring(kept) => var m := Restore(s.saved, kept, length); State(m, m, s.approved)
  }

  /*------------------------------------------------------------------ what credit means */

  /** Character `c` of the plan was on a page that was delivered complete. */
  ghost predicate WasDelivered(delivered: seq<Page>, p: Plan, c: nat) {
    exists i :: 0 <= i < |delivered| && delivered[i].plan == p && delivered[i].offset <= c < delivered[i].next
  }

  ghost predicate Covered(delivered: seq<Page>, p: Plan, upTo: nat) {
    forall c: nat :: c < upTo ==> WasDelivered(delivered, p, c)
  }

  ghost predicate MindSound(m: Mind, length: Plan -> nat) {
    forall p :: p in m.credited ==> m.credited[p] <= length(p) && Covered(m.delivered, p, m.credited[p])
  }

  ghost predicate Sound(s: State, length: Plan -> nat) {
    && MindSound(s.saved, length) && MindSound(s.mind, length) && s.saved.delivered <= s.mind.delivered
    && forall p :: p in s.approved ==> Covered(s.saved.delivered, p, length(p))
  }

  lemma CoveredGrows(delivered: seq<Page>, more: seq<Page>, p: Plan, upTo: nat)
    requires Covered(delivered, p, upTo) && delivered <= more
    ensures Covered(more, p, upTo)
  {
    forall c: nat | c < upTo ensures WasDelivered(more, p, c) {
      assert WasDelivered(delivered, p, c);
      var i :| 0 <= i < |delivered| && delivered[i].plan == p && delivered[i].offset <= c < delivered[i].next;
      assert more[i] == delivered[i];
    }
  }

  lemma PageCovers(delivered: seq<Page>, page: Page, reviewed: nat)
    requires Covered(delivered, page.plan, reviewed) && page.offset <= reviewed <= page.next
    ensures Covered(delivered + [page], page.plan, page.next)
  {
    var more := delivered + [page];
    CoveredGrows(delivered, more, page.plan, reviewed);
    forall c: nat | c < page.next ensures WasDelivered(more, page.plan, c) {
      if c >= reviewed { assert more[|delivered|] == page; }
    }
  }

  lemma ReadKeeps(m: Mind, op: Op, length: Plan -> nat)
    requires MindSound(m, length) && op.Reading? && Enabled(op)
    ensures MindSound(Read(m, op, length), length) && m.delivered <= Read(m, op, length).delivered
  {
    var t := Read(m, op, length);
    if op.complete {
      var page := t.delivered[|m.delivered|];
      var reviewed := Credited(m, op.plan);
      forall p | p in t.credited ensures t.credited[p] <= length(p) && Covered(t.delivered, p, t.credited[p]) {
        if p in m.credited { CoveredGrows(m.delivered, t.delivered, p, m.credited[p]); }
        if p == op.plan && t.credited[p] != reviewed { PageCovers(m.delivered, page, reviewed); }
      }
    }
  }

  lemma StepKeeps(s: State, op: Op, length: Plan -> nat)
    requires Sound(s, length) && Enabled(op)
    ensures Sound(Apply(s, op, length), length)
  {
    var t := Apply(s, op, length);
    if op.Reading? { ReadKeeps(s.mind, op, length); }
    forall p | p in t.approved ensures Covered(t.saved.delivered, p, length(p)) {
      if p in s.approved { CoveredGrows(s.saved.delivered, t.saved.delivered, p, length(p)); }
    }
  }

  function Run(s: State, ops: seq<Op>, length: Plan -> nat): State {
    if ops == [] then s else Apply(Run(s, ops[..|ops| - 1], length), ops[|ops| - 1], length)
  }

  function Initial(): State {
    State(Mind(map[], []), Mind(map[], []), {})
  }

  /**
   Under any order of page reads, skips, page shrinking, saves and rollbacks: the credited offset is the end of a
   fully delivered prefix, and an approved plan had every character delivered complete.
   */
  lemma {:induction false} EveryRunIsSound(ops: seq<Op>, length: Plan -> nat)
    requires forall i :: 0 <= i < |ops| ==> Enabled(ops[i])
    ensures Sound(Run(Initial(), ops, length), length)
  {
    if ops != [] {
      EveryRunIsSound(ops[..|ops| - 1], length);
      StepKeeps(Run(Initial(), ops[..|ops| - 1], length), ops[|ops| - 1], length);
    }
  }

  /** Reading without an offset resumes at the credit and always advances it, until the end. */
  lemma DefaultReadAdvances(m: Mind, op: Op, length: Plan -> nat)
    requires op.Reading? && Enabled(op) && op.offset == None && op.complete && op.current
    requires Credited(m, op.plan) <= length(op.plan)
    ensures Credited(Read(m, op, length), op.plan) == Min(length(op.plan), Credited(m, op.plan) + op.limit)
  {
  }

  function ReadAll(m: Mind, ops: seq<Op>, length: Plan -> nat): Mind
    requires forall i :: 0 <= i < |ops| ==> ops[i].Reading?
    decreases |ops|
  {
    if ops == [] then m else ReadAll(Read(m, ops[0], length), ops[1..], length)
  }

  /** So complete default reads, however much each page was shrunk, reach the end within as many reads as characters. */
  lemma {:induction false} DefaultReadsReachTheEnd(m: Mind, ops: seq<Op>, p: Plan, length: Plan -> nat)
    requires forall i :: 0 <= i < |ops| ==>
      ops[i].Reading? && Enabled(ops[i]) && ops[i].plan == p && ops[i].offset == None && ops[i].complete && ops[i].current
    requires Credited(m, p) <= length(p) && |ops| >= length(p) - Credited(m, p)
    ensures Credited(ReadAll(m, ops, length), p) == length(p)
    decreases |ops|
  {
    if ops != [] {
      DefaultReadAdvances(m, ops[0], length);
      DefaultReadsReachTheEnd(Read(m, ops[0], length), ops[1..], p, length);
    }
  }

  /** A page gives credit exactly when it entered complete, the plan is current, and it meets what was read before. */
  predicate Counts(m: Mind, op: Op, length: Plan -> nat)
    requires op.Reading?
  {
    && op.complete && op.current
    && (op.offset.Some? ==> op.offset.value <= Credited(m, op.plan) <= Min(length(op.plan), op.offset.value + op.limit))
  }

  /** A page that counts takes the credit to its end; no other page, and no other plan's, changes it. */
  lemma CreditFollowsPages(m: Mind, op: Op, length: Plan -> nat, p: Plan)
    requires op.Reading? && Enabled(op) && Credited(m, op.plan) <= length(op.plan)
    ensures var start := if op.offset.Some? then op.offset.value else Credited(m, op.plan);
      Credited(Read(m, op, length), p) ==
        if p == op.plan && Counts(m, op, length) then Min(length(p), start + op.limit) else Credited(m, p)
  {
  }

  /**
   From any sound state a plan is approved exactly when all of it was credited, and the approval is then in the
   checkpoint with the credit it rests on; a refused one changes nothing.
   */
  lemma ApprovedExactly(s: State, p: Plan, length: Plan -> nat)
    requires Sound(s, length)
    ensures var t := Apply(s, Approving(p), length);
      if Credited(s.mind, p) == length(p) then t == State(s.mind, s.mind, s.approved + {p}) else t == s
  {
  }

  /**
   Reading to the end is enough: after as many complete reads at the default offset as there are characters left, the
   approval succeeds, also when the process restarts in between with the credit saved and the plan still current.
   */
  lemma ReadPlanIsApproved(s: State, ops: seq<Op>, p: Plan, restarted: bool, kept: set<Plan>, length: Plan -> nat)
    requires Sound(s, length) && p in kept
    requires forall i :: 0 <= i < |ops| ==>
      ops[i].Reading? && Enabled(ops[i]) && ops[i].plan == p && ops[i].offset == None && ops[i].complete && ops[i].current
    requires |ops| >= length(p) - Credited(s.mind, p)
    ensures var m := ReadAll(s.mind, ops, length);
      var saved := Apply(s.(mind := m), Saving, length);
      var resumed := if restarted then Apply(saved, Restoring(kept), length) else saved;
      p in Apply(resumed, Approving(p), length).approved
  {
    assert Credited(s.mind, p) <= length(p);
    DefaultReadsReachTheEnd(s.mind, ops, p, length);
  }
}
