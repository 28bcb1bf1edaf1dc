/**
 The deep-sleep transition engine (dmn/deep_sleep.py:32-41, 122-201, 204-387,
 dmn/sleep_plans.py:379-402): durable phases, two wake slots, and a process that may die between
 any two steps.
 */
module DeepSleep {
  import opened Wrappers

  /** A compiled plan; its preferences are part of its immutable text. */
  datatype Plan = Plan(id: nat, adopt: bool, wakePrevious: bool, training: bool)

  datatype Status = AwaitingReview | Approved | Declined | Deferred | Executing | Completed

  datatype Phase = Saved | Training | Candidate | Rebuilding | OldStateReview | FailurePolicy | WakeCommitted | Stopped

  datatype Outcome = Adopted | Reviewed | Failed

  datatype Slot = Adopt | Previous

  /** A wake slot on disk: nothing, some files, or a complete checkpoint with its report. */
  datatype Files = Empty | Partial | Complete(outcome: Outcome)

  /** Checkpoint names: ordinary ones are fresh; a wake's name is derived from its run and slot. */
  datatype Name = Ordinary(n: nat) | Wake(run: nat, slot: Slot)

  /** `failed` records that the run entered its failure policy; `launches` counts calls of the candidate worker. */
  datatype Run = Run(plan: Plan, source: Name, phase: Phase, receipt: bool, candidate: bool, slots: map<Slot, Files>,
                     wake: Option<Slot>, report: Option<Outcome>, failed: bool, launches: nat)

  datatype Store = Store(checkpoints: seq<Name>, runs: seq<Run>, status: map<Plan, Status>)

  /** Where the transition's process is; `Absent` when none is running. */
  datatype At =
    | Absent
    | Opened
    | Trying
    | Launching
    | Returned
    | Resuming
    | Holding
    | Entered
    | Woken(slot: Slot)
    | Publishing
    | Raising
    | Applying
    | WokenPrevious
    | Stopping

  datatype State = State(store: Store, at: At)

  predicate Finished(r: Run) {
    r.phase == WakeCommitted || r.phase == Stopped
  }

  function Last(s: Store): Run
    requires s.runs != []
  {
    s.runs[|s.runs| - 1]
  }

  function Latest(s: Store): Option<Name> {
    if s.checkpoints == [] then None else Some(s.checkpoints[|s.checkpoints| - 1])
  }

  function WithLast(s: Store, r: Run): Store
    requires s.runs != []
  {
    s.(runs := s.runs[|s.runs| - 1 := r])
  }

  /** An unfinished run gates ordinary startup; a stopped one does so for ever. */
  predicate Pending(s: Store) {
    exists i :: 0 <= i < |s.runs| && s.runs[i].phase != WakeCommitted
  }

  /*------------------------------------------------------------------ ordinary operation */

  function Save(s: Store, n: nat): Store {
    s.(checkpoints := s.checkpoints + [Ordinary(n)])
  }

  function Compile(s: Store, p: Plan): Store {
    if p in s.status then s else s.(status := s.status[p := AwaitingReview])
  }

  function Decide(s: Store, p: Plan, status: Status): Option<Store> {
    if p in s.status && s.status[p] != Executing && s.status[p] != Completed
    then Some(s.(status := s.status[p := status])) else None
  }

  /** Deep sleep begins in the checkpoint transaction that saves its source. */
  function Begin(s: Store, p: Plan, n: nat): Option<Store> {
    if Pending(s) || p !in s.status || s.status[p] != Approved then None
    else
      var r := Run(p, Ordinary(n), Saved, false, false, map[Adopt := Empty, Previous := Empty], None, None, false, 0);
      Some(Save(s, n).(runs := s.runs + [r], status := s.status[p := Executing]))
  }

  /*------------------------------------------------------------------ the transition */

  function OutcomeOf(p: Plan): Outcome {
    if p.adopt then Adopted else Reviewed
  }

  function SlotOf(p: Plan): Slot {
    if p.adopt then Adopt else Previous
  }

  /** The wake is published on the source it was prepared for, in one transaction. */
  function Publish(s: Store, r: Run, slot: Slot, outcome: Outcome): Option<Store>
    requires s.runs != []
  {
    if Latest(s) != Some(r.source) then None
    else
      Some(WithLast(s, r.(phase := WakeCommitted, wake := Some(slot), report := Some(outcome)))
           .(checkpoints := s.checkpoints + [Wake(|s.runs| - 1, slot)], status := s.status[r.plan := Completed]))
  }

  /** A slot that already holds a complete checkpoint is reused only for the same outcome. */
  predicate Usable(r: Run, slot: Slot, outcome: Outcome) {
    slot in r.slots && (r.slots[slot].Complete? ==> r.slots[slot].outcome == outcome)
  }

  /**
   One step of the process: `ok` says whether the checks, worker, validation, wake or write it performs
   succeed. Exceptions lead to the failure policy, or out of it to `Stopped`; when the writing of the
   failure itself fails the process ends and the row stays as it was.
   */
  function Step(s: State, ok: bool): State {
    if s.store.runs == [] then s
    else
      var r := Last(s.store);
      match s.at
      case Absent => if Finished(r) || !ok then s else s.(at := Opened)
      case Opened => s.(at := if r.phase == FailurePolicy then Applying else Trying)
      case Trying =>
        if !ok then s.(at := Raising)
        else if r.phase == Saved then State(WithLast(s.store, r.(phase := Training)), Launching)
        else s.(at := if r.phase == Training then Resuming else Holding)
      case Launching =>
        State(WithLast(s.store, r.(launches := r.launches + 1)), if ok then Returned else Raising)
      case Returned => if !ok then s.(at := Raising) else State(WithLast(s.store, r.(receipt := true)), Resuming)
      case Resuming =>
        if !ok || (!r.receipt && !r.plan.training) then s.(at := Raising)
        else if !r.receipt then State(WithLast(s.store, r.(receipt := true)), Resuming)
        else State(WithLast(s.store, r.(phase := Candidate, candidate := true)), Holding)
      case Holding =>
        if !ok || r.phase !in {Candidate, Rebuilding, OldStateReview} then s.(at := Raising)
        else if r.phase == Candidate then
          State(WithLast(s.store, r.(phase := if r.plan.adopt then Rebuilding else OldStateReview)), Entered)
        else s.(at := Entered)
      case Entered =>
        if r.wake.Some? then s.(at := Publishing)
        else WakeInto(s, r, SlotOf(r.plan), OutcomeOf(r.plan), ok, Woken(SlotOf(r.plan)), Raising)
      case Woken(slot) =>
        if !ok then s.(at := Raising)
        else State(WithLast(s.store, r.(wake := Some(slot), report := Some(OutcomeOf(r.plan)))), Publishing)
      case Publishing =>
        if !ok || r.wake.None? || r.report.None? then s.(at := Raising)
        else PublishOr(s, r, r.wake.value, r.report.value, Raising)
      case Raising =>
        if !ok then s.(at := Absent)
        else State(WithLast(s.store, r.(phase := FailurePolicy, report := Some(Failed), failed := true)), Applying)
      case Applying =>
        if !r.plan.wakePrevious then s.(at := Stopping)
        else WakeInto(s, r, Previous, Failed, ok, WokenPrevious, Stopping)
      case WokenPrevious => if !ok then s.(at := Stopping) else PublishOr(s, r, Previous, Failed, Stopping)
      case Stopping =>
        if !ok then s.(at := Absent)
        else State(WithLast(s.store, r.(phase := Stopped, report := Some(Failed))), Absent)
  }

  /** Fills a wake slot, or fails and leaves what files it wrote. */
  function WakeInto(s: State, r: Run, slot: Slot, outcome: Outcome, ok: bool, success: At, failure: At): State
    requires s.store.runs != []
  {
    if !Usable(r, slot, outcome) then s.(at := failure)
    else if !ok then State(WithLast(s.store, Spoil(r, slot)), failure)
    else State(WithLast(s.store, r.(slots := r.slots[slot := Complete(outcome)])), success)
  }

  function Spoil(r: Run, slot: Slot): Run {
    if slot in r.slots && r.slots[slot].Complete? then r else r.(slots := r.slots[slot := Partial])
  }

  function PublishOr(s: State, r: Run, slot: Slot, outcome: Outcome, failure: At): State
    requires s.store.runs != []
  {
    var published := Publish(s.store, r, slot, outcome);
    if published.Some? then State(published.value, Absent) else s.(at := failure)
  }

  /** The process dies; what it was writing may remain as partial files. */
  function Die(s: State, written: Option<Slot>): State {
    if s.store.runs != [] && written.Some? && s.at in {Entered, Applying}
    then State(WithLast(s.store, Spoil(Last(s.store), written.value)), Absent)
    else s.(at := Absent)
  }

  datatype Op =
    | Saving(n: nat)
    | Compiling(plan: Plan)
    | Deciding(plan: Plan, status: Status)
    | Beginning(plan: Plan, n: nat)
    | Stepping(ok: bool)
    | Dying(written: Option<Slot>)

  /** Ordinary operation needs a runtime, which no pending run allows; fresh checkpoint names are new. */
  ghost predicate Enabled(s: State, op: Op) {
    match op
    case Saving(n) => s.at == Absent && !Pending(s.store) && Ordinary(n) !in s.store.checkpoints
    case Compiling(p) => s.at == Absent && !Pending(s.store)
    case Deciding(p, status) => s.at == Absent && !Pending(s.store) && status in {Approved, Declined, Deferred}
    case Beginning(p, n) => s.at == Absent && Ordinary(n) !in s.store.checkpoints
    case Stepping(ok) => true
    case Dying(written) => true
  }

  function Apply(s: State, op: Op): State {
    match op
    case Saving(n) => s.(store := Save(s.store, n))
    case Compiling(p) => s.(store := Compile(s.store, p))
    case Deciding(p, status) => (match Decide(s.store, p, status) case None => s case Some(t) => s.(store := t))
    case Beginning(p, n) => (match Begin(s.store, p, n) case None => s case Some(t) => s.(store := t))
    case Stepping(ok) => Step(s, ok)
    case Dying(written) => Die(s, written)
  }

  /*------------------------------------------------------------------ invariants */

  ghost predicate Holds(r: Run, slot: Slot, outcome: Outcome) {
    slot in r.slots && r.slots[slot] == Complete(outcome)
  }

  ghost predicate RunIsSound(r: Run) {
    && r.launches <= 1 && (r.phase == Saved ==> r.launches == 0)
    && Adopt in r.slots && Previous in r.slots
    && (r.slots[Adopt].Complete? ==> r.slots[Adopt].outcome == Adopted)
    && (r.slots[Previous].Complete? ==> r.slots[Previous].outcome != Adopted)
    && (r.failed ==> r.phase in {FailurePolicy, WakeCommitted, Stopped})
    && (r.phase in {FailurePolicy, Stopped} ==> r.failed)
    && (r.phase in {Candidate, Rebuilding, OldStateReview} ==> r.receipt && r.candidate)
    && (r.phase in {Saved, Training, Candidate} ==> r.wake.None?)
    && (r.phase == Rebuilding ==> r.plan.adopt) && (r.phase == OldStateReview ==> !r.plan.adopt)
    && (r.phase in {Rebuilding, OldStateReview} && r.wake.Some? ==>
          r.wake == Some(SlotOf(r.plan)) && r.report == Some(OutcomeOf(r.plan))
          && r.slots[SlotOf(r.plan)] == Complete(OutcomeOf(r.plan)))
    && (r.phase == WakeCommitted ==> WakeIsSound(r))
  }

  /** What a published wake is: the slot's files report its outcome; after a failure it is the untouched original. */
  ghost predicate WakeIsSound(r: Run) {
    && r.wake.Some? && r.wake.value in r.slots && r.report.Some?
    && r.slots[r.wake.value] == Complete(r.report.value)
    && (r.failed ==> r.wake == Some(Previous) && r.report == Some(Failed) && r.plan.wakePrevious)
    && (!r.failed ==> r.wake == Some(SlotOf(r.plan)) && r.report == Some(OutcomeOf(r.plan)) && r.candidate)
  }

  /** The process agrees with the durable phase. */
  ghost predicate AtIsSound(s: State) {
    s.at == Absent || (s.store.runs != [] && (
      var r := Last(s.store);
      && !Finished(r)
      && match s.at
         case Opened => true
         case Trying => r.phase != FailurePolicy
         case Launching => r.phase == Training && r.launches == 0
         case Returned => r.phase == Training
         case Resuming => r.phase == Training
         case Holding => r.phase in {Candidate, Rebuilding, OldStateReview}
         case Entered => r.phase in {Rebuilding, OldStateReview}
         case Woken(slot) => r.phase in {Rebuilding, OldStateReview} && r.wake.None? && slot == SlotOf(r.plan)
                             && Holds(r, slot, OutcomeOf(r.plan))
         case Publishing => r.phase in {Rebuilding, OldStateReview} && r.wake.Some?
         case Raising => r.phase != FailurePolicy
         case Applying => r.phase == FailurePolicy
         case WokenPrevious => r.phase == FailurePolicy && r.plan.wakePrevious && Holds(r, Previous, Failed)
         case Stopping => r.phase == FailurePolicy
         case Absent => true))
  }

  /** Only the last run may be unfinished, and then its source is the latest checkpoint. */
  ghost predicate OneAtATime(s: Store) {
    && (forall i :: 0 <= i < |s.runs| - 1 ==> s.runs[i].phase == WakeCommitted)
    && (s.runs != [] && Last(s).phase != WakeCommitted ==> Latest(s) == Some(Last(s).source))
  }

  ghost predicate RunsAreSound(s: Store) {
    forall i :: 0 <= i < |s.runs| ==> RunIsSound(s.runs[i])
  }

  /** Each plan has at most one run, and its status says where that run is. */
  ghost predicate PlansOnce(s: Store) {
    && (forall i, j :: 0 <= i < j < |s.runs| ==> s.runs[i].plan != s.runs[j].plan)
    && (forall i :: 0 <= i < |s.runs| ==>
          s.runs[i].plan in s.status
          && s.status[s.runs[i].plan] == if s.runs[i].phase == WakeCommitted then Completed else Executing)
  }

  ghost predicate WakePlaced(s: Store, j: nat)
    requires j < |s.checkpoints| && s.checkpoints[j].Wake?
  {
    && 0 < j && s.checkpoints[j].run < |s.runs|
    && var r := s.runs[s.checkpoints[j].run];
       r.phase == WakeCommitted && r.wake == Some(s.checkpoints[j].slot) && s.checkpoints[j - 1] == r.source
  }

  /** A run's wake is published once, exactly when it is committed, directly on its source. */
  ghost predicate WakesPlaced(s: Store) {
    && (forall j, k :: 0 <= j < k < |s.checkpoints| ==> s.checkpoints[j] != s.checkpoints[k])
    && (forall j :: 0 <= j < |s.checkpoints| && s.checkpoints[j].Wake? ==> WakePlaced(s, j))
    && (forall i :: 0 <= i < |s.runs| && s.runs[i].phase == WakeCommitted ==>
          s.runs[i].wake.Some? && Wake(i, s.runs[i].wake.value) in s.checkpoints)
  }

  ghost predicate Sound(s: State) {
    && OneAtATime(s.store) && RunsAreSound(s.store) && AtIsSound(s)
    && PlansOnce(s.store) && WakesPlaced(s.store)
  }

  /*------------------------------------------------------------------ every step keeps them */

  lemma EarlierWakes(s: Store)
    requires WakesPlaced(s) && s.runs != [] && Last(s).phase != WakeCommitted
    ensures forall j :: 0 <= j < |s.checkpoints| && s.checkpoints[j].Wake? ==> s.checkpoints[j].run < |s.runs| - 1
  {
    forall j | 0 <= j < |s.checkpoints| && s.checkpoints[j].Wake? ensures s.checkpoints[j].run < |s.runs| - 1 {
      assert WakePlaced(s, j);
    }
  }

  /** A step that only rewrites the unfinished run's row. */
  lemma RowKeeps(s: State, r: Run, at: At)
    requires Sound(s) && s.store.runs != [] && Last(s.store).phase != WakeCommitted
    requires r.plan == Last(s.store).plan && r.source == Last(s.store).source && r.phase != WakeCommitted
    requires RunIsSound(r)
    ensures var t := WithLast(s.store, r);
      OneAtATime(t) && RunsAreSound(t) && PlansOnce(t) && WakesPlaced(t) && Last(t) == r
  {
    hide RunIsSound, RunsAreSound, OneAtATime, PlansOnce, WakesPlaced, AtIsSound;
    RowRuns(s.store, r);
    RowPlans(s.store, r);
    RowPlaces(s.store, r);
  }

  lemma RowRuns(s: Store, r: Run)
    requires OneAtATime(s) && RunsAreSound(s) && s.runs != [] && RunIsSound(r)
    requires Last(s).phase != WakeCommitted && r.source == Last(s).source
    ensures OneAtATime(WithLast(s, r)) && RunsAreSound(WithLast(s, r))
  {
    hide RunIsSound;
    var t := WithLast(s, r);
    forall i | 0 <= i < |t.runs| ensures RunIsSound(t.runs[i]) {
      if i < |t.runs| - 1 { assert t.runs[i] == s.runs[i]; }
    }
  }

  lemma RowPlans(s: Store, r: Run)
    requires PlansOnce(s) && s.runs != [] && r.plan == Last(s).plan && r.phase != WakeCommitted && Last(s).phase != WakeCommitted
    ensures PlansOnce(WithLast(s, r))
  {
    var t := WithLast(s, r);
    assert forall i :: 0 <= i < |t.runs| ==> t.runs[i].plan == s.runs[i].plan;
  }

  lemma RowPlaces(s: Store, r: Run)
    requires WakesPlaced(s) && s.runs != [] && Last(s).phase != WakeCommitted && r.phase != WakeCommitted
    ensures WakesPlaced(WithLast(s, r))
  {
    var t := WithLast(s, r);
    EarlierWakes(s);
    assert forall i :: 0 <= i < |t.runs| - 1 ==> t.runs[i] == s.runs[i];
    forall j | 0 <= j < |t.checkpoints| && t.checkpoints[j].Wake? ensures WakePlaced(t, j) {
      assert WakePlaced(s, j);
    }
  }

  lemma PublishPlaces(s: Store, t: Store, slot: Slot, outcome: Outcome)
    requires WakesPlaced(s) && s.runs != [] && Last(s).phase != WakeCommitted && Latest(s) == Some(Last(s).source)
    requires Publish(s, Last(s), slot, outcome) == Some(t)
    ensures WakesPlaced(t)
  {
    var last, n := |s.runs| - 1, |s.checkpoints|;
    EarlierWakes(s);
    assert forall i :: 0 <= i < last ==> t.runs[i] == s.runs[i];
    assert forall j :: 0 <= j < n ==> t.checkpoints[j] == s.checkpoints[j];
    forall j | 0 <= j < |t.checkpoints| && t.checkpoints[j].Wake? ensures WakePlaced(t, j) {
      if j < n { assert WakePlaced(s, j); }
    }
    forall j, k | 0 <= j < k < |t.checkpoints| ensures t.checkpoints[j] != t.checkpoints[k] {
      if k == n { assert t.checkpoints[j] == s.checkpoints[j]; }
    }
    forall i | 0 <= i < |t.runs| && t.runs[i].phase == WakeCommitted
      ensures t.runs[i].wake.Some? && Wake(i, t.runs[i].wake.value) in t.checkpoints {
      if i == last { assert t.checkpoints[n] == Wake(last, slot); }
    }
  }

  lemma PublishKeeps(s: State, slot: Slot, outcome: Outcome)
    requires Sound(s) && s.store.runs != [] && Last(s.store).phase != WakeCommitted
    requires WakeIsSound(Last(s.store).(phase := WakeCommitted, wake := Some(slot), report := Some(outcome)))
    ensures Publish(s.store, Last(s.store), slot, outcome).Some?
    ensures Sound(State(Publish(s.store, Last(s.store), slot, outcome).value, Absent))
  {
    SoundParts(s);
    PublishRuns(s.store, slot, outcome);
    var t := Publish(s.store, Last(s.store), slot, outcome).value;
    PublishPlans(s.store, t, slot, outcome);
    PublishPlaces(s.store, t, slot, outcome);
    hide WakesPlaced, PlansOnce, RunsAreSound, RunIsSound, OneAtATime, Publish;
  }

  lemma PublishRuns(s: Store, slot: Slot, outcome: Outcome)
    requires OneAtATime(s) && RunsAreSound(s) && s.runs != [] && Last(s).phase != WakeCommitted
    requires WakeIsSound(Last(s).(phase := WakeCommitted, wake := Some(slot), report := Some(outcome)))
    ensures Latest(s) == Some(Last(s).source) && Publish(s, Last(s), slot, outcome).Some?
    ensures var t := Publish(s, Last(s), slot, outcome).value; OneAtATime(t) && RunsAreSound(t)
  {
    var r, t := Last(s), Publish(s, Last(s), slot, outcome).value;
    assert RunIsSound(r);
    assert RunIsSound(t.runs[|s.runs| - 1]);
    hide RunIsSound, WakeIsSound;
    forall i | 0 <= i < |t.runs| ensures RunIsSound(t.runs[i]) {
      if i < |s.runs| - 1 { assert t.runs[i] == s.runs[i]; }
    }
  }

  lemma PublishPlans(s: Store, t: Store, slot: Slot, outcome: Outcome)
    requires PlansOnce(s) && s.runs != [] && Publish(s, Last(s), slot, outcome) == Some(t)
    ensures PlansOnce(t)
  {
    assert forall i :: 0 <= i < |s.runs| ==> t.runs[i].plan == s.runs[i].plan;
    assert forall i :: 0 <= i < |s.runs| - 1 ==> t.runs[i] == s.runs[i] && s.runs[i].plan != Last(s).plan;
  }

  /** Steps that only rewrite the unfinished run's row. */
  lemma StepRow(s: State, ok: bool)
    requires s.store.runs != [] && AtIsSound(s) && s.at !in {Absent, Publishing, WokenPrevious}
    ensures Step(s, ok).store.runs != []
    ensures var r, t := Last(s.store), Last(Step(s, ok).store);
      Step(s, ok).store == WithLast(s.store, t) && t.plan == r.plan && t.source == r.source && t.phase != WakeCommitted
  {
    assert WithLast(s.store, Last(s.store)) == s.store;
  }

  predicate Working(at: At) {
    at in {Opened, Trying, Launching, Returned, Resuming, Holding}
  }

  predicate Failing(at: At) {
    at in {Raising, Applying, Stopping}
  }

  lemma WorkingRowIsSound(s: State, ok: bool)
    requires s.store.runs != [] && RunIsSound(Last(s.store)) && AtIsSound(s) && Working(s.at)
    ensures Step(s, ok).store.runs != [] && RunIsSound(Last(Step(s, ok).store))
  {
  }

  lemma WakingRowIsSound(s: State, ok: bool)
    requires s.store.runs != [] && RunIsSound(Last(s.store)) && AtIsSound(s) && (s.at == Entered || s.at.Woken?)
    ensures Step(s, ok).store.runs != [] && RunIsSound(Last(Step(s, ok).store))
  {
  }

  lemma FailingRowIsSound(s: State, ok: bool)
    requires s.store.runs != [] && RunIsSound(Last(s.store)) && AtIsSound(s) && Failing(s.at)
    ensures Step(s, ok).store.runs != [] && RunIsSound(Last(Step(s, ok).store))
  {
  }

  lemma StepRowIsSound(s: State, ok: bool)
    requires s.store.runs != [] && RunIsSound(Last(s.store)) && AtIsSound(s) && s.at !in {Absent, Publishing, WokenPrevious}
    ensures Step(s, ok).store.runs != [] && RunIsSound(Last(Step(s, ok).store))
  {
    hide Step, RunIsSound, AtIsSound;
    if Working(s.at) {
      WorkingRowIsSound(s, ok);
    } else if Failing(s.at) {
      FailingRowIsSound(s, ok);
    } else {
      WakingRowIsSound(s, ok);
    }
  }

  lemma WorkingAtIsSound(s: State, ok: bool)
    requires s.store.runs != [] && RunIsSound(Last(s.store)) && AtIsSound(s) && Working(s.at)
    ensures AtIsSound(Step(s, ok))
  {
  }

  lemma LaterAtIsSound(s: State, ok: bool)
    requires s.store.runs != [] && RunIsSound(Last(s.store)) && AtIsSound(s) && (s.at == Entered || s.at.Woken? || Failing(s.at))
    ensures AtIsSound(Step(s, ok))
  {
  }

  lemma StepAtIsSound(s: State, ok: bool)
    requires s.store.runs != [] && RunIsSound(Last(s.store)) && AtIsSound(s) && s.at !in {Absent, Publishing, WokenPrevious}
    ensures AtIsSound(Step(s, ok))
  {
    hide Step, RunIsSound, AtIsSound;
    if Working(s.at) {
      WorkingAtIsSound(s, ok);
    } else {
      LaterAtIsSound(s, ok);
    }
  }

  lemma SoundParts(s: State)
    requires Sound(s)
    ensures OneAtATime(s.store) && RunsAreSound(s.store) && AtIsSound(s) && PlansOnce(s.store) && WakesPlaced(s.store)
    ensures s.store.runs != [] ==> RunIsSound(Last(s.store))
    ensures s.at != Absent ==> s.store.runs != [] && !Finished(Last(s.store))
  {
  }

  lemma StepKeeps(s: State, ok: bool)
    requires Sound(s)
    ensures Sound(Step(s, ok))
  {
    SoundParts(s);
    if s.at == Absent || s.store.runs == [] {
      StartKeeps(s, ok);
    } else if s.at == Publishing {
      PublishingKeeps(s, ok);
    } else if s.at == WokenPrevious {
      WokenKeeps(s, ok);
    } else {
      hide Step, RunIsSound, RunsAreSound, AtIsSound, OneAtATime, PlansOnce, WakesPlaced;
      StepRow(s, ok);
      StepRowIsSound(s, ok);
      StepAtIsSound(s, ok);
      RowKeeps(s, Last(Step(s, ok).store), Step(s, ok).at);
    }
  }

  lemma StartKeeps(s: State, ok: bool)
    requires Sound(s) && (s.at == Absent || s.store.runs == [])
    ensures Sound(Step(s, ok))
  {
    hide RunsAreSound, OneAtATime, PlansOnce, WakesPlaced;
  }

  lemma PublishingKeeps(s: State, ok: bool)
    requires Sound(s) && s.at == Publishing
    ensures Sound(Step(s, ok))
  {
    var r := Last(s.store);
    assert RunIsSound(r);
    if ok { PublishKeeps(s, r.wake.value, r.report.value); }
  }

  lemma WokenKeeps(s: State, ok: bool)
    requires Sound(s) && s.at == WokenPrevious
    ensures Sound(Step(s, ok))
  {
    assert RunIsSound(Last(s.store));
    if ok { PublishKeeps(s, Previous, Failed); }
  }

  lemma DieKeeps(s: State, written: Option<Slot>)
    requires Sound(s)
    ensures Sound(Die(s, written))
  {
    if s.store.runs != [] && written.Some? && s.at in {Entered, Applying} {
      var r := Last(s.store);
      assert RunIsSound(r);
      RowKeeps(s, Spoil(r, written.value), Absent);
    }
  }

  lemma SaveKeeps(s: State, n: nat)
    requires Sound(s) && s.at == Absent && !Pending(s.store) && Ordinary(n) !in s.store.checkpoints
    ensures Sound(s.(store := Save(s.store, n)))
  {
    var t := Save(s.store, n);
    assert forall j :: 0 <= j < |s.store.checkpoints| ==> t.checkpoints[j] == s.store.checkpoints[j];
    forall j | 0 <= j < |t.checkpoints| && t.checkpoints[j].Wake? ensures WakePlaced(t, j) {
      assert WakePlaced(s.store, j);
    }
    assert s.store.runs != [] ==> s.store.runs[|s.store.runs| - 1].phase == WakeCommitted;
  }

  lemma StatusKeeps(s: State, p: Plan, status: Status)
    requires Sound(s) && status !in {Executing, Completed}
    requires p in s.store.status ==> s.store.status[p] !in {Executing, Completed}
    ensures Sound(s.(store := s.store.(status := s.store.status[p := status])))
  {
    var t := s.store.(status := s.store.status[p := status]);
    forall j | 0 <= j < |t.checkpoints| && t.checkpoints[j].Wake? ensures WakePlaced(t, j) {
      assert WakePlaced(s.store, j);
    }
  }

  lemma BeginKeeps(s: State, p: Plan, n: nat)
    requires Sound(s) && s.at == Absent && Ordinary(n) !in s.store.checkpoints && Begin(s.store, p, n).Some?
    ensures Sound(s.(store := Begin(s.store, p, n).value))
  {
    hide RunsAreSound, OneAtATime, PlansOnce, WakesPlaced, Begin;
    var t := Begin(s.store, p, n).value;
    BeginAppends(s.store, p, n);
    BeginPlans(s.store, t, p, n);
    BeginRuns(s.store, t, p, n);
    SaveKeeps(s, n);
    BeginPlaces(Save(s.store, n), t, p, n);
  }

  lemma BeginAppends(s: Store, p: Plan, n: nat)
    requires Begin(s, p, n).Some?
    ensures var t := Begin(s, p, n).value;
      && t.checkpoints == Save(s, n).checkpoints && |t.runs| == |s.runs| + 1 && t.runs[..|s.runs|] == s.runs
      && t.runs[|s.runs|].phase != WakeCommitted && RunIsSound(t.runs[|s.runs|])
  {
  }

  lemma BeginRuns(s: Store, t: Store, p: Plan, n: nat)
    requires RunsAreSound(s) && |t.runs| == |s.runs| + 1 && t.runs[..|s.runs|] == s.runs && RunIsSound(t.runs[|s.runs|])
    ensures RunsAreSound(t)
  {
    hide RunIsSound;
    forall i | 0 <= i < |t.runs| ensures RunIsSound(t.runs[i]) {
      if i < |s.runs| { assert t.runs[i] == t.runs[..|s.runs|][i] && RunIsSound(s.runs[i]); }
    }
  }

  /** A run begins exactly for an approved plan while every earlier run is finished; its source is saved with it and the plan is used up. */
  lemma BeginExactly(s: Store, p: Plan, n: nat)
    ensures Begin(s, p, n).Some? <==>
      (p in s.status && s.status[p] == Approved && forall i :: 0 <= i < |s.runs| ==> s.runs[i].phase == WakeCommitted)
    ensures Begin(s, p, n).Some? ==>
      var t := Begin(s, p, n).value;
      && t.checkpoints == s.checkpoints + [Ordinary(n)] && t.runs == s.runs + [Begun(p, n)]
      && t.status.Keys == s.status.Keys && forall q :: q in s.status ==> t.status[q] == if q == p then Executing else s.status[q]
  {
  }

  /** Compiling puts a new plan up for review and leaves every known one as it is. */
  lemma CompileExactly(s: Store, p: Plan)
    ensures var t := Compile(s, p);
      && t == s.(status := t.status) && t.status.Keys == s.status.Keys + {p}
      && (p !in s.status ==> t.status[p] == AwaitingReview)
      && forall q :: q in s.status ==> t.status[q] == s.status[q]
  {
  }

  /** A review decides any plan that has not begun, and nothing else. */
  lemma DecideExactly(s: Store, p: Plan, status: Status)
    ensures Decide(s, p, status).Some? <==> p in s.status && s.status[p] !in {Executing, Completed}
    ensures Decide(s, p, status).Some? ==>
      var t := Decide(s, p, status).value;
      && t.checkpoints == s.checkpoints && t.runs == s.runs && t.status.Keys == s.status.Keys
      && forall q :: q in s.status ==> t.status[q] == if q == p then status else s.status[q]
  {
  }

  lemma BeginPlans(s: Store, t: Store, p: Plan, n: nat)
    requires PlansOnce(s) && Begin(s, p, n) == Some(t)
    ensures PlansOnce(t) && OneAtATime(t)
  {
    assert forall i :: 0 <= i < |s.runs| ==> t.runs[i] == s.runs[i];
    assert forall i :: 0 <= i < |s.runs| ==> s.runs[i].plan != p && s.runs[i].phase == WakeCommitted;
  }

  lemma BeginPlaces(saved: Store, t: Store, p: Plan, n: nat)
    requires WakesPlaced(saved) && t.checkpoints == saved.checkpoints
    requires |t.runs| == |saved.runs| + 1 && t.runs[..|saved.runs|] == saved.runs && t.runs[|saved.runs|].phase != WakeCommitted
    ensures WakesPlaced(t)
  {
    assert forall i :: 0 <= i < |saved.runs| ==> t.runs[i] == t.runs[..|saved.runs|][i];
    forall j | 0 <= j < |t.checkpoints| && t.checkpoints[j].Wake? ensures WakePlaced(t, j) {
      assert WakePlaced(saved, j);
    }
  }

  lemma ApplyKeeps(s: State, op: Op)
    requires Sound(s) && Enabled(s, op)
    ensures Sound(Apply(s, op))
  {
    hide Sound, Step, Die;
    match op
    case Saving(n) => SaveKeeps(s, n);
    case Compiling(p) => if p !in s.store.status { StatusKeeps(s, p, AwaitingReview); }
    case Deciding(p, status) => if Decide(s.store, p, status).Some? { StatusKeeps(s, p, status); }
    case Beginning(p, n) => if Begin(s.store, p, n).Some? { BeginKeeps(s, p, n); }
    case Stepping(ok) => StepKeeps(s, ok);
    case Dying(written) => DieKeeps(s, written);
  }

  function Initial(): State {
    State(Store([], [], map[]), Absent)
  }

  ghost predicate IsRun(states: seq<State>, ops: seq<Op>) {
    && |states| == |ops| + 1 && states[0] == Initial()
    && forall i :: 0 <= i < |ops| ==> Enabled(states[i], ops[i]) && states[i + 1] == Apply(states[i], ops[i])
  }

  /**
   For every placement of deaths and restarts: candidate work is launched at most once per run, at most
   one wake checkpoint is published per run and it stands directly on the source, a run that failed wakes
   only under the original state, at most one run is unfinished and each plan has at most one run.
   */
  lemma {:induction false} EveryRunIsSound(states: seq<State>, ops: seq<Op>, n: nat)
    requires IsRun(states, ops) && n <= |ops|
    ensures Sound(states[n])
    decreases n
  {
    if n > 0 {
      EveryRunIsSound(states, ops, n - 1);
      ApplyKeeps(states[n - 1], ops[n - 1]);
    }
  }

  /*------------------------------------------------------------------ forward only */

  function Rank(p: Phase): nat {
    match p
    case Saved => 0
    case Training => 1
    case Candidate => 2
    case Rebuilding => 3
    case OldStateReview => 3
    case FailurePolicy => 4
    case WakeCommitted => 5
    case Stopped => 5
  }

  ghost predicate Advances(before: Run, after: Run) {
    && after.plan == before.plan && after.source == before.source
    && Rank(before.phase) <= Rank(after.phase) && before.launches <= after.launches
    && (before.failed ==> after.failed) && (before.receipt ==> after.receipt)
    && (Finished(before) ==> after == before)
  }

  ghost predicate Continues(before: Store, after: Store) {
    && before.checkpoints <= after.checkpoints && |before.runs| <= |after.runs|
    && (forall i :: 0 <= i < |before.runs| ==> Advances(before.runs[i], after.runs[i]))
  }

  lemma WorkingAdvances(s: State, ok: bool)
    requires s.store.runs != [] && AtIsSound(s) && Working(s.at)
    ensures Step(s, ok).store.runs != [] && Advances(Last(s.store), Last(Step(s, ok).store))
  {
  }

  lemma WakingAdvances(s: State, ok: bool)
    requires s.store.runs != [] && AtIsSound(s) && (s.at == Entered || s.at.Woken?)
    ensures Step(s, ok).store.runs != [] && Advances(Last(s.store), Last(Step(s, ok).store))
  {
  }

  lemma FailingAdvances(s: State, ok: bool)
    requires s.store.runs != [] && AtIsSound(s) && Failing(s.at)
    ensures Step(s, ok).store.runs != [] && Advances(Last(s.store), Last(Step(s, ok).store))
  {
  }

  lemma PublicationAdvances(s: State, ok: bool)
    requires s.store.runs != [] && AtIsSound(s) && s.at in {Publishing, WokenPrevious}
    ensures Step(s, ok).store.runs != [] && Advances(Last(s.store), Last(Step(s, ok).store))
  {
  }

  lemma StepAdvances(s: State, ok: bool)
    requires s.store.runs != [] && AtIsSound(s) && s.at != Absent
    ensures Step(s, ok).store.runs != [] && Advances(Last(s.store), Last(Step(s, ok).store))
  {
    hide Step, AtIsSound, Advances;
    if Working(s.at) {
      WorkingAdvances(s, ok);
    } else if Failing(s.at) {
      FailingAdvances(s, ok);
    } else if s.at in {Publishing, WokenPrevious} {
      PublicationAdvances(s, ok);
    } else {
      WakingAdvances(s, ok);
    }
  }

  lemma StepTouchesLast(s: State, ok: bool)
    requires s.store.runs != [] && AtIsSound(s) && s.at != Absent
    ensures |Step(s, ok).store.runs| == |s.store.runs|
    ensures Step(s, ok).store.runs == s.store.runs[|s.store.runs| - 1 := Last(Step(s, ok).store)]
    ensures s.store.checkpoints <= Step(s, ok).store.checkpoints
  {
  }

  lemma UpdateContinues(a: Store, b: Store, r: Run)
    requires a.runs != [] && b.runs == a.runs[|a.runs| - 1 := r] && a.checkpoints <= b.checkpoints && Advances(Last(a), r)
    ensures Continues(a, b)
  {
    hide Advances;
    AdvancesSelf(a);
  }

  lemma AdvancesSelf(s: Store)
    ensures forall i :: 0 <= i < |s.runs| ==> Advances(s.runs[i], s.runs[i])
  {
  }

  lemma StepContinues(s: State, ok: bool)
    requires Sound(s)
    ensures Continues(s.store, Step(s, ok).store)
  {
    SoundParts(s);
    hide Sound, RunsAreSound, OneAtATime, PlansOnce, WakesPlaced, RunIsSound, AtIsSound, Advances, Continues;
    if s.at == Absent || s.store.runs == [] {
      ContinuesSelf(s.store);
    } else {
      hide Step;
      StepAdvances(s, ok);
      StepTouchesLast(s, ok);
      UpdateContinues(s.store, Step(s, ok).store, Last(Step(s, ok).store));
    }
  }

  /** The candidate worker is launched in exactly one step, and its launch is counted there. */
  lemma LaunchIsCounted(s: State, ok: bool)
    requires s.store.runs != [] && AtIsSound(s)
    ensures Step(s, ok).store.runs != []
    ensures Last(Step(s, ok).store).launches == Last(s.store).launches + if s.at == Launching then 1 else 0
  {
  }

  lemma ApplyContinues(s: State, op: Op)
    requires Sound(s) && Enabled(s, op)
    ensures Continues(s.store, Apply(s, op).store)
  {
    hide Sound, Step, Die;
    match op
    case Stepping(ok) => StepContinues(s, ok);
    case Dying(written) => DieContinues(s, written);
    case _ =>
  }

  lemma DieContinues(s: State, written: Option<Slot>)
    requires Sound(s)
    ensures Continues(s.store, Die(s, written).store)
  {
    SoundParts(s);
    hide RunIsSound, RunsAreSound, OneAtATime, PlansOnce, WakesPlaced;
  }

  lemma {:induction false} RunContinues(states: seq<State>, ops: seq<Op>, i: nat, j: nat)
    requires IsRun(states, ops) && i <= j <= |ops|
    ensures Continues(states[i].store, states[j].store)
    decreases j
  {
    hide Sound, Continues, Apply;
    if i == j {
      ContinuesSelf(states[i].store);
    } else {
      RunContinues(states, ops, i, j - 1);
      EveryRunIsSound(states, ops, j - 1);
      ApplyContinues(states[j - 1], ops[j - 1]);
      ContinuesTwice(states[i].store, states[j - 1].store, states[j].store);
    }
  }

  lemma ContinuesSelf(s: Store)
    ensures Continues(s, s)
  {
  }

  lemma ContinuesTwice(a: Store, b: Store, c: Store)
    requires Continues(a, b) && Continues(b, c)
    ensures Continues(a, c)
  {
    forall i | 0 <= i < |a.runs| ensures Advances(a.runs[i], c.runs[i]) {
      assert Advances(a.runs[i], b.runs[i]) && Advances(b.runs[i], c.runs[i]);
    }
  }

  /*------------------------------------------------------------------ a process that is not killed finishes */

  function Distance(s: State): nat {
    match s.at
    case Absent => 0
    case Opened => 20
    case Trying => 19
    case Launching => 18
    case Returned => 17
    case Resuming => if s.store.runs != [] && Last(s.store).receipt then 15 else 16
    case Holding => 14
    case Entered => 12
    case Woken(slot) => 11
    case Publishing => 10
    case Raising => 9
    case Applying => 5
    case WokenPrevious => 4
    case Stopping => 3
  }

  /** The process runs on until it ends or the outcomes are used up. */
  function Proceed(s: State, oks: seq<bool>): State
    decreases |oks|
  {
    if s.at == Absent || oks == [] then s else Proceed(Step(s, oks[0]), oks[1..])
  }

  lemma RowApproaches(s: State, ok: bool)
    requires s.store.runs != [] && AtIsSound(s) && s.at !in {Absent, Publishing, WokenPrevious}
    ensures Distance(Step(s, ok)) < Distance(s)
  {
  }

  lemma PublicationApproaches(s: State, ok: bool)
    requires Sound(s) && s.at in {Publishing, WokenPrevious}
    ensures Distance(Step(s, ok)) < Distance(s)
  {
    SoundParts(s);
    hide Sound, RunsAreSound, OneAtATime, PlansOnce, WakesPlaced;
  }

  lemma StepEnds(s: State, ok: bool)
    requires s.store.runs != [] && AtIsSound(s) && s.at != Absent && Step(s, ok).at == Absent
    ensures Step(s, ok).store.runs != [] && (Finished(Last(Step(s, ok).store)) <==> (ok || s.at !in {Raising, Stopping}))
  {
  }

  lemma StepApproaches(s: State, ok: bool)
    requires Sound(s) && s.at != Absent
    ensures Distance(Step(s, ok)) < Distance(s)
    ensures Step(s, ok).at == Absent ==>
      (Step(s, ok).store.runs != [] && (Finished(Last(Step(s, ok).store)) <==> (ok || s.at !in {Raising, Stopping})))
  {
    SoundParts(s);
    hide Sound, RunsAreSound, OneAtATime, PlansOnce, WakesPlaced, RunIsSound, AtIsSound, Step, Distance;
    if s.at in {Publishing, WokenPrevious} {
      PublicationApproaches(s, ok);
    } else {
      RowApproaches(s, ok);
    }
    if Step(s, ok).at == Absent { StepEnds(s, ok); }
  }

  /** The last step of the process: where it was taken, and whether it succeeded. */
  function LastStep(s: State, oks: seq<bool>): (r: (At, bool))
    requires oks != []
    decreases |oks|
  {
    if |oks| == 1 || Step(s, oks[0]).at == Absent then (s.at, oks[0]) else LastStep(Step(s, oks[0]), oks[1..])
  }

  /**
   Whatever succeeds or fails on the way, a resumed transition ends; and it ends at `WakeCommitted` or
   `Stopped` exactly when its last step was not the failed writing of the failure itself.
   */
  lemma {:induction false} ProcessFinishes(s: State, oks: seq<bool>)
    requires Sound(s) && s.at != Absent && oks != [] && |oks| >= Distance(s)
    ensures var t, last := Proceed(s, oks), LastStep(s, oks);
      && t.at == Absent && t.store.runs != []
      && (Finished(Last(t.store)) <==> (last.1 || last.0 !in {Raising, Stopping}))
    decreases |oks|
  {
    StepApproaches(s, oks[0]);
    StepKeeps(s, oks[0]);
    ProceedOnce(s, oks);
    if Step(s, oks[0]).at != Absent { ProcessFinishes(Step(s, oks[0]), oks[1..]); }
  }

  /*------------------------------------------------------------------ when a sleep wakes as planned */

  /** The process is on the way to the planned wake; nothing has failed. */
  predicate OnRoad(at: At, phase: Phase) {
    at in {Trying, Launching, Returned, Resuming, Holding, Entered, Publishing} || at.Woken? || (at == Opened && phase != FailurePolicy)
  }

  function FromEntered(r: Run): seq<bool> {
    if r.wake.Some? then [false, true] else [true, true, true]
  }

  function FromHolding(r: Run): seq<bool> {
    [true] + FromEntered(r)
  }

  /** Validation of the candidate, after its recovery if the receipt is missing. */
  function FromResuming(r: Run): seq<bool> {
    (if r.receipt then [true] else [true, true]) + FromHolding(r)
  }

  function FromTrying(r: Run): seq<bool> {
    [true] + if r.phase == Saved then [true, true, true] + FromHolding(r)
             else if r.phase == Training then FromResuming(r) else FromHolding(r)
  }

  /** For each step up to the publication, whether its success is needed. */
  function Road(at: At, r: Run): seq<bool> {
    match at
    case Opened => [false] + FromTrying(r)
    case Trying => FromTrying(r)
    case Launching => [true, true, true] + FromHolding(r)
    case Returned => [true, true] + FromHolding(r)
    case Resuming => FromResuming(r)
    case Holding => FromHolding(r)
    case Entered => FromEntered(r)
    case Woken(_) => [true, true]
    case _ => [true]
  }

  /** A receipt exists, is still to be written, or can be recovered; and the wake's slot is filled or free for it. */
  predicate Passable(at: At, r: Run) {
    && (r.phase == Training && at in {Opened, Trying, Resuming} ==> r.receipt || r.plan.training)
    && (r.wake.None? && !at.Woken? ==> Usable(r, SlotOf(r.plan), OutcomeOf(r.plan)))
  }

  predicate AllNeeded(oks: seq<bool>, road: seq<bool>) {
    |road| <= |oks| && forall i :: 0 <= i < |road| && road[i] ==> oks[i]
  }

  predicate WokeAsPlanned(r: Run) {
    r.phase == WakeCommitted && !r.failed
  }

  lemma AllNeededNext(oks: seq<bool>, road: seq<bool>)
    requires road != [] && oks != []
    ensures AllNeeded(oks, road) <==> (road[0] ==> oks[0]) && AllNeeded(oks[1..], road[1..])
  {
    if AllNeeded(oks, road) {
      forall i | 0 <= i < |road[1..]| && road[1..][i] ensures oks[1..][i] { assert road[i + 1]; }
    }
    if (road[0] ==> oks[0]) && AllNeeded(oks[1..], road[1..]) {
      forall i | 0 <= i < |road| && road[i] ensures oks[i] {
        if i > 0 { assert road[1..][i - 1]; }
      }
    }
  }

  /** One step on the road: on, off it, or the wake is published. */
  ghost predicate RoadGoesOn(s: State, t: State)
    requires s.store.runs != [] && Road(s.at, Last(s.store)) != []
  {
    && t.store.runs != [] && OnRoad(t.at, Last(t.store).phase)
    && Road(t.at, Last(t.store)) == Road(s.at, Last(s.store))[1..] && Passable(t.at, Last(t.store)) == Passable(s.at, Last(s.store))
  }

  lemma StartGoesOn(s: State, ok: bool)
    requires s.store.runs != [] && RunIsSound(Last(s.store)) && AtIsSound(s) && s.at in {Opened, Trying} && OnRoad(s.at, Last(s.store).phase)
    ensures var r, t := Last(s.store), Step(s, ok);
      && |Road(s.at, r)| > 1
      && (Road(s.at, r)[0] && !ok ==> t.at == Raising)
      && ((Road(s.at, r)[0] ==> ok) ==> RoadGoesOn(s, t) || (!Passable(s.at, r) && t.at == Raising))
  {
  }

  lemma CandidateGoesOn(s: State, ok: bool)
    requires s.store.runs != [] && RunIsSound(Last(s.store)) && AtIsSound(s) && s.at in {Launching, Returned, Resuming, Holding} && OnRoad(s.at, Last(s.store).phase)
    ensures var r, t := Last(s.store), Step(s, ok);
      && |Road(s.at, r)| > 1
      && (Road(s.at, r)[0] && !ok ==> t.at == Raising)
      && ((Road(s.at, r)[0] ==> ok) ==> RoadGoesOn(s, t) || (!Passable(s.at, r) && t.at == Raising))
  {
  }

  lemma WorkingGoesOn(s: State, ok: bool)
    requires s.store.runs != [] && RunIsSound(Last(s.store)) && AtIsSound(s) && Working(s.at) && OnRoad(s.at, Last(s.store).phase)
    ensures var r, t := Last(s.store), Step(s, ok);
      && |Road(s.at, r)| > 1
      && (Road(s.at, r)[0] && !ok ==> t.at == Raising)
      && ((Road(s.at, r)[0] ==> ok) ==> RoadGoesOn(s, t) || (!Passable(s.at, r) && t.at == Raising))
  {
    hide Step, RunIsSound, AtIsSound, Road, Passable, RoadGoesOn;
    if s.at in {Opened, Trying} {
      StartGoesOn(s, ok);
    } else {
      CandidateGoesOn(s, ok);
    }
  }

  lemma WakingGoesOn(s: State, ok: bool)
    requires s.store.runs != [] && RunIsSound(Last(s.store)) && AtIsSound(s) && (s.at == Entered || s.at.Woken?)
    ensures var r, t := Last(s.store), Step(s, ok);
      && |Road(s.at, r)| > 1
      && (Road(s.at, r)[0] && !ok ==> t.at == Raising)
      && ((Road(s.at, r)[0] ==> ok) ==> RoadGoesOn(s, t) || (!Passable(s.at, r) && t.at == Raising))
  {
  }

  lemma PublishingEnds(s: State, ok: bool)
    requires Sound(s) && s.at == Publishing
    ensures var r, t := Last(s.store), Step(s, ok);
      && Road(s.at, r) == [true] && Passable(s.at, r) && t.store.runs != []
      && if ok then t.at == Absent && WokeAsPlanned(Last(t.store)) else t.at == Raising
  {
    SoundParts(s);
    if ok { PublishKeeps(s, Last(s.store).wake.value, Last(s.store).report.value); }
  }

  /** Once something has failed, the run never wakes as planned. */
  lemma {:induction false} FailedNeverWakesAsPlanned(s: State, oks: seq<bool>)
    requires s.store.runs != [] && AtIsSound(s) && (s.at == Raising || ((Failing(s.at) || s.at == WokenPrevious) && Last(s.store).failed))
    requires s.at == Raising ==> Last(s.store).phase != WakeCommitted
    ensures Proceed(s, oks).store.runs != [] && !WokeAsPlanned(Last(Proceed(s, oks).store))
    decreases |oks|
  {
    if oks != [] {
      ProceedOnce(s, oks);
      var t := Step(s, oks[0]);
      FailingGoesOn(s, oks[0]);
      hide Step, AtIsSound;
      if t.at == Absent {
        assert Proceed(t, oks[1..]) == t;
      } else {
        FailedNeverWakesAsPlanned(t, oks[1..]);
      }
    }
  }

  lemma FailingGoesOn(s: State, ok: bool)
    requires s.store.runs != [] && AtIsSound(s) && (s.at == Raising || ((Failing(s.at) || s.at == WokenPrevious) && Last(s.store).failed))
    ensures var t := Step(s, ok);
      && t.store.runs != [] && AtIsSound(t) && !WokeAsPlanned(Last(t.store))
      && (t.at == Absent || ((Failing(t.at) || t.at == WokenPrevious) && t.at != Raising && Last(t.store).failed))
  {
  }

  lemma {:induction false} RoadDecides(s: State, oks: seq<bool>)
    requires Sound(s) && s.at != Absent && s.store.runs != [] && OnRoad(s.at, Last(s.store).phase) && |oks| >= Distance(s)
    ensures Proceed(s, oks).store.runs != []
    ensures WokeAsPlanned(Last(Proceed(s, oks).store)) <==> Passable(s.at, Last(s.store)) && AllNeeded(oks, Road(s.at, Last(s.store)))
    decreases |oks|
  {
    SoundParts(s);
    hide Sound, RunsAreSound, OneAtATime, PlansOnce, WakesPlaced, RunIsSound, AtIsSound, Step, Passable, AllNeeded, Road, Distance;
    DistanceIsPositive(s);
    var ok, rest, t := oks[0], oks[1..], Step(s, oks[0]);
    ProceedOnce(s, oks);
    StepKeeps(s, ok);
    StepApproaches(s, ok);
    if s.at == Publishing {
      PublishingEnds(s, ok);
      AllNeededNext(oks, Road(s.at, Last(s.store)));
      NothingNeeded(rest, Road(s.at, Last(s.store))[1..]);
    } else {
      if Working(s.at) { WorkingGoesOn(s, ok); } else { WakingGoesOn(s, ok); }
      AllNeededNext(oks, Road(s.at, Last(s.store)));
      SoundParts(t);
    }
    if t.at == Raising {
      SoundParts(t);
      FailedNeverWakesAsPlanned(t, rest);
    } else if t.at != Absent {
      RoadDecides(t, rest);
    }
  }

  lemma NothingNeeded(oks: seq<bool>, road: seq<bool>)
    requires road == []
    ensures AllNeeded(oks, road)
  {
  }

  lemma DistanceIsPositive(s: State)
    requires s.at != Absent
    ensures Distance(s) >= 1
  {
  }

  /** The other runs and the plan stay, and a committed wake is one new checkpoint. */
  ghost predicate Publishes(before: Store, after: Store) {
    var n := |before.runs| - 1;
    && n >= 0 && |after.runs| == n + 1 && after.runs[..n] == before.runs[..n]
    && after.runs[n].plan == before.runs[n].plan && after.runs[n].source == before.runs[n].source
    && if after.runs[n].phase == WakeCommitted
       then after.runs[n].wake.Some? && after.checkpoints == before.checkpoints + [Wake(n, after.runs[n].wake.value)]
       else after.checkpoints == before.checkpoints
  }

  lemma {:induction false} ProceedPublishes(s: State, oks: seq<bool>)
    requires Sound(s) && s.at != Absent
    ensures Sound(Proceed(s, oks)) && Publishes(s.store, Proceed(s, oks).store)
    decreases |oks|
  {
    hide Sound, RunsAreSound, OneAtATime, PlansOnce, WakesPlaced, RunIsSound, AtIsSound, Step, Publishes;
    SoundParts(s);
    if oks == [] {
      NothingPublished(s.store);
    } else {
      ProceedOnce(s, oks);
      var t := Step(s, oks[0]);
      StepKeeps(s, oks[0]);
      StepPublishes(s, oks[0]);
      if t.at == Absent {
        assert Proceed(t, oks[1..]) == t;
      } else {
        SoundParts(t);
        ProceedPublishes(t, oks[1..]);
        assert Proceed(s, oks) == Proceed(t, oks[1..]);
        PublishesThen(s.store, t.store, Proceed(t, oks[1..]).store);
      }
    }
  }

  lemma NothingPublished(s: Store)
    requires s.runs != [] && Last(s).phase != WakeCommitted
    ensures Publishes(s, s)
  {
  }

  lemma PublishesThen(a: Store, b: Store, c: Store)
    requires Publishes(a, b) && Publishes(b, c) && b.runs[|b.runs| - 1].phase != WakeCommitted
    ensures Publishes(a, c)
  {
  }

  lemma StepPublishes(s: State, ok: bool)
    requires Sound(s) && s.at != Absent
    ensures Publishes(s.store, Step(s, ok).store)
  {
    SoundParts(s);
    hide Sound, RunsAreSound, OneAtATime, PlansOnce, WakesPlaced, RunIsSound;
    if s.at in {Publishing, WokenPrevious} {
      PublicationPublishes(s, ok);
    } else {
      StepRow(s, ok);
      hide Step;
    }
  }

  lemma PublicationPublishes(s: State, ok: bool)
    requires s.store.runs != [] && AtIsSound(s) && s.at in {Publishing, WokenPrevious}
    ensures Publishes(s.store, Step(s, ok).store)
  {
  }

  /**
   A resumed sleep wakes as planned exactly when a receipt exists or can be had, the wake's slot can be used
   and every step that can fail succeeds; then the plan's own slot is published with the plan's outcome, as
   the one new checkpoint, directly on the source.
   */
  lemma SleepWakesExactly(s: State, oks: seq<bool>)
    requires Sound(s) && s.at == Opened && |oks| >= 21
    requires s.store.runs != [] ==> Last(s.store).phase != FailurePolicy
    ensures var r, t := Last(s.store), Proceed(s, oks).store;
      && t.runs != []
      && (WokeAsPlanned(Last(t)) <==> Passable(Opened, r) && AllNeeded(oks, Road(Opened, r)))
      && (WokeAsPlanned(Last(t)) ==>
            && Last(t).plan == r.plan && Last(t).source == r.source
            && Last(t).wake == Some(SlotOf(r.plan)) && Last(t).report == Some(OutcomeOf(r.plan))
            && Holds(Last(t), SlotOf(r.plan), OutcomeOf(r.plan)) && Last(t).candidate
            && t.checkpoints == s.store.checkpoints + [Wake(|s.store.runs| - 1, SlotOf(r.plan))]
            && r.plan in t.status && t.status[r.plan] == Completed)
  {
    SoundParts(s);
    RoadDecides(s, oks);
    ProceedPublishes(s, oks);
    SoundParts(Proceed(s, oks));
    hide Sound, RunsAreSound, OneAtATime, WakesPlaced, AtIsSound, Proceed, Passable, AllNeeded, Road;
  }

  /**
   A death at any point costs nothing but a new start: the process that is opened next finds the same run, and if all of
   its steps succeed the run wakes as planned exactly when its candidate can be had and its slot is not taken.
   */
  lemma DeathIsResumed(s: State, written: Option<Slot>, oks: seq<bool>)
    requires Sound(s) && s.store.runs != [] && !Finished(Last(s.store)) && Last(s.store).phase != FailurePolicy
    requires |oks| >= 21 && forall i :: 0 <= i < |oks| ==> oks[i]
    ensures var t := Step(Die(s, written), true);
      && t.at == Opened && Sound(t) && t.store.runs != []
      && Last(t.store) == Last(s.store).(slots := Last(t.store).slots)
      && Proceed(t, oks).store.runs != []
      && (WokeAsPlanned(Last(Proceed(t, oks).store)) <==> Passable(Opened, Last(s.store)))
  {
    hide Sound, Proceed, Step, Die, Passable, RunIsSound, Road, WokeAsPlanned, Holds, OutcomeOf, SlotOf;
    LastIsSound(s);
    DieKeeps(s, written);
    StepKeeps(Die(s, written), true);
    var t := Step(Die(s, written), true);
    DeathSpoils(s, written);
    SleepWakesExactly(t, oks);
    RoadIsShort(Last(t.store));
  }

  lemma LastIsSound(s: State)
    requires Sound(s) && s.store.runs != []
    ensures RunIsSound(Last(s.store))
  {
    hide RunIsSound;
  }

  lemma DeathSpoils(s: State, written: Option<Slot>)
    requires s.store.runs != [] && !Finished(Last(s.store))
    ensures var t := Step(Die(s, written), true);
      && t.at == Opened && t.store.runs != []
      && Last(t.store) == Last(s.store).(slots := Last(t.store).slots)
      && (RunIsSound(Last(s.store)) ==> (Passable(Opened, Last(t.store)) <==> Passable(Opened, Last(s.store))))
  {
  }

  lemma RoadIsShort(r: Run)
    ensures |Road(Opened, r)| <= 21
  {
  }

  /** How a failure ends once the copy of the original state is decided. */
  function FailureEnds(copied: bool, oks: seq<bool>): Phase
    requires |oks| >= 3
  {
    if copied && oks[1] then WakeCommitted
    else if oks[if copied then 2 else 1] then Stopped else FailurePolicy
  }

  /**
   Exactly when a failure still wakes the previous state: the plan asks for it, the previous slot is not
   taken by a review wake, and both the copy and the publication succeed. Otherwise it stops, unless that
   cannot be written either.
   */
  lemma FailureWakesExactly(s: State, oks: seq<bool>)
    requires Sound(s) && s.at == Applying && |oks| >= 5
    ensures var r, t := Last(s.store), Proceed(s, oks);
      && t.store.runs != [] && t.at == Absent
      && Last(t.store).phase == FailureEnds(r.plan.wakePrevious && r.slots[Previous] != Complete(Reviewed) && oks[0], oks)
  {
    hide Sound, RunsAreSound, OneAtATime, PlansOnce, WakesPlaced, RunIsSound, Step, Proceed;
    var s1 := Step(s, oks[0]);
    SoundParts(s);
    StepKeeps(s, oks[0]);
    ProceedOnce(s, oks);
    CopyDecides(s, oks[0]);
    hide AtIsSound;
    if s1.at == WokenPrevious {
      WokenEnds(s1, oks[1..]);
    } else {
      StoppingEnds(s1, oks[1..]);
    }
  }

  lemma CopyDecides(s: State, ok: bool)
    requires s.store.runs != [] && RunIsSound(Last(s.store)) && s.at == Applying && Last(s.store).phase == FailurePolicy
    ensures var r, t := Last(s.store), Step(s, ok);
      && t.store.runs != [] && Last(t.store).phase == FailurePolicy
      && t.at == if r.plan.wakePrevious && r.slots[Previous] != Complete(Reviewed) && ok then WokenPrevious else Stopping
  {
  }

  lemma StoppingEnds(s: State, oks: seq<bool>)
    requires s.at == Stopping && s.store.runs != [] && oks != []
    ensures var t := Proceed(s, oks);
      t.at == Absent && t.store.runs != [] && Last(t.store).phase == if oks[0] then Stopped else Last(s.store).phase
  {
    ProceedOnce(s, oks);
  }

  lemma WokenEnds(s: State, oks: seq<bool>)
    requires Sound(s) && s.at == WokenPrevious && |oks| >= 2
    ensures var t := Proceed(s, oks);
      && t.at == Absent && t.store.runs != []
      && Last(t.store).phase == if oks[0] then WakeCommitted else if oks[1] then Stopped else FailurePolicy
  {
    assert RunIsSound(Last(s.store));
    ProceedOnce(s, oks);
    if oks[0] {
      PublishKeeps(s, Previous, Failed);
    } else {
      StoppingEnds(Step(s, oks[0]), oks[1..]);
    }
  }

  /*------------------------------------------------------------------ a failure that cannot wake */

  /** A store with one run and nothing else. */
  function Alone(r: Run, at: At): State {
    State(Store([r.source], [r], map[r.plan := Executing]), at)
  }

  /** One more operation at the end of a run. */
  lemma Extend(states: seq<State>, ops: seq<Op>, op: Op) returns (longer: seq<State>, more: seq<Op>)
    requires IsRun(states, ops) && Enabled(states[|ops|], op)
    ensures IsRun(longer, more) && longer[|more|] == Apply(states[|ops|], op)
  {
    hide Apply, Enabled, Initial;
    longer, more := states + [Apply(states[|ops|], op)], ops + [op];
  }

  lemma ExtendStep(states: seq<State>, ops: seq<Op>, s: State, ok: bool, t: State) returns (longer: seq<State>, more: seq<Op>)
    requires IsRun(states, ops) && states[|ops|] == s && Step(s, ok) == t
    ensures IsRun(longer, more) && longer[|more|] == t
  {
    hide Step, IsRun;
    longer, more := Extend(states, ops, Stepping(ok));
  }

  function Begun(p: Plan, n: nat): Run {
    Run(p, Ordinary(n), Saved, false, false, map[Adopt := Empty, Previous := Empty], None, None, false, 0)
  }

  lemma RunBegins(p: Plan, n: nat) returns (states: seq<State>, ops: seq<Op>)
    ensures IsRun(states, ops) && states[|ops|] == Alone(Begun(p, n), Absent)
  {
    states, ops := [Initial()], [];
    states, ops := Extend(states, ops, Compiling(p));
    states, ops := Extend(states, ops, Deciding(p, Approved));
    hide IsRun;
    states, ops := Extend(states, ops, Beginning(p, n));
  }

  lemma CandidateReady(states: seq<State>, ops: seq<Op>, r: Run) returns (longer: seq<State>, more: seq<Op>, t: Run)
    requires IsRun(states, ops) && states[|ops|] == Alone(r, Absent) && r.phase == Saved
    ensures t == r.(phase := Candidate, launches := r.launches + 1, receipt := true, candidate := true)
    ensures IsRun(longer, more) && longer[|more|] == Alone(t, Holding)
  {
    hide IsRun;
    var launched := r.(phase := Training);
    var returned := launched.(launches := r.launches + 1);
    var received := returned.(receipt := true);
    t := received.(phase := Candidate, candidate := true);
    longer, more := ExtendStep(states, ops, Alone(r, Absent), true, Alone(r, Opened));
    longer, more := ExtendStep(longer, more, Alone(r, Opened), true, Alone(r, Trying));
    longer, more := ExtendStep(longer, more, Alone(r, Trying), true, Alone(launched, Launching));
    longer, more := ExtendStep(longer, more, Alone(launched, Launching), true, Alone(returned, Returned));
    longer, more := ExtendStep(longer, more, Alone(returned, Returned), true, Alone(received, Resuming));
    longer, more := ExtendStep(longer, more, Alone(received, Resuming), true, Alone(t, Holding));
  }

  lemma ReviewFails(states: seq<State>, ops: seq<Op>, r: Run) returns (longer: seq<State>, more: seq<Op>, t: Run)
    requires IsRun(states, ops) && states[|ops|] == Alone(r, Holding) && r.phase == Candidate && !r.plan.adopt
    requires r.wake.None? && r.slots == map[Adopt := Empty, Previous := Empty]
    ensures IsRun(longer, more) && longer[|more|] == Alone(t, Applying)
    ensures t.plan == r.plan && Previous in t.slots && t.slots[Previous] == Complete(Reviewed)
  {
    hide IsRun;
    var held := r.(phase := OldStateReview);
    var woken := held.(slots := held.slots[Previous := Complete(Reviewed)]);
    var ready := woken.(wake := Some(Previous), report := Some(Reviewed));
    t := ready.(phase := FailurePolicy, report := Some(Failed), failed := true);
    longer, more := ExtendStep(states, ops, Alone(r, Holding), true, Alone(held, Entered));
    longer, more := ExtendStep(longer, more, Alone(held, Entered), true, Alone(woken, Woken(Previous)));
    longer, more := ExtendStep(longer, more, Alone(woken, Woken(Previous)), true, Alone(ready, Publishing));
    longer, more := ExtendStep(longer, more, Alone(ready, Publishing), false, Alone(ready, Raising));
    longer, more := ExtendStep(longer, more, Alone(ready, Raising), true, Alone(t, Applying));
  }

  /**
   A plan reviewed under the original state that asks to wake the previous one after a failure: its
   publication fails once the review wake is in its slot, and then it stops although everything after the
   failure would have succeeded.
   */
  lemma ReviewWakeBlocksPrevious(p: Plan, n: nat, oks: seq<bool>) returns (states: seq<State>, ops: seq<Op>)
    requires !p.adopt && p.wakePrevious && |oks| >= 5 && oks[0] && oks[1]
    ensures IsRun(states, ops) && states[|ops|].at == Applying
    ensures states[|ops|].store.runs != [] && Last(states[|ops|].store).plan == p
    ensures var t := Proceed(states[|ops|], oks); t.at == Absent && t.store.runs != [] && Last(t.store).phase == Stopped
  {
    hide IsRun, Proceed, Sound;
    var r: Run;
    states, ops := RunBegins(p, n);
    states, ops, r := CandidateReady(states, ops, Begun(p, n));
    states, ops, r := ReviewFails(states, ops, r);
    ReachedIsSound(states, ops);
    FailureWakesExactly(states[|ops|], oks);
  }

  lemma ReachedIsSound(states: seq<State>, ops: seq<Op>)
    requires IsRun(states, ops)
    ensures |states| == |ops| + 1 && Sound(states[|ops|])
  {
    EveryRunIsSound(states, ops, |ops|);
  }

  /*------------------------------------------------------------------ the transition as it is written */

  lemma ProceedOnce(s: State, oks: seq<bool>)
    requires s.at != Absent && oks != []
    ensures Proceed(s, oks) == Proceed(Step(s, oks[0]), oks[1..])
    ensures Step(s, oks[0]).at == Absent ==> Proceed(s, oks) == Step(s, oks[0])
  {
  }

  /** Copies the original state into the previous slot and publishes it, or stops. */
  method ApplyFailurePolicy(store: Store, oks: seq<bool>) returns (after: Store)
    requires store.runs != [] && |oks| >= 5
    ensures State(after, Absent) == Proceed(State(store, Applying), oks)
  {
    hide Proceed;
    after := store;
    var run, rest := Last(store), oks[1..];
    ProceedOnce(State(store, Applying), oks);
    if run.plan.wakePrevious && Usable(run, Previous, Failed) {
      if oks[0] {
        run := run.(slots := run.slots[Previous := Complete(Failed)]);
        after := WithLast(after, run);
        ProceedOnce(State(after, WokenPrevious), rest);
        var published := Publish(after, run, Previous, Failed);
        if rest[0] && published.Some? {
          after := published.value;
          return;
        }
        rest := rest[1..];
      } else {
        after := WithLast(after, Spoil(run, Previous));
      }
    }
    after := Stop(after, rest);
  }

  /** Records that the run has stopped, unless even that cannot be written. */
  method Stop(store: Store, oks: seq<bool>) returns (after: Store)
    requires store.runs != [] && |oks| >= 2
    ensures State(after, Absent) == Proceed(State(store, Stopping), oks)
  {
    ProceedOnce(State(store, Stopping), oks);
    after := if oks[0] then WithLast(store, Last(store).(phase := Stopped, report := Some(Failed))) else store;
  }

  /** The exception handler: record the failure, then apply the plan's choice. */
  method Fail(store: Store, oks: seq<bool>) returns (after: Store)
    requires store.runs != [] && |oks| >= 9
    ensures State(after, Absent) == Proceed(State(store, Raising), oks)
  {
    hide Proceed;
    ProceedOnce(State(store, Raising), oks);
    if !oks[0] {
      return store;
    }
    after := WithLast(store, Last(store).(phase := FailurePolicy, report := Some(Failed), failed := true));
    after := ApplyFailurePolicy(after, oks[1..]);
  }

  /** Wakes into the plan's slot if that is still to do, and publishes it. */
  method WakeAndPublish(store: Store, oks: seq<bool>) returns (after: Store)
    requires store.runs != [] && |oks| >= 13
    ensures State(after, Absent) == Proceed(State(store, Entered), oks)
  {
    hide Proceed;
    after := store;
    var run := Last(store);
    var rest := oks[1..];
    ProceedOnce(State(after, Entered), oks);
    if run.wake.None? {
      var slot, outcome := SlotOf(run.plan), OutcomeOf(run.plan);
      if !Usable(run, slot, outcome) {
        after := Fail(after, rest);
        return;
      }
      if !oks[0] {
        after := Fail(WithLast(after, Spoil(run, slot)), rest);
        return;
      }
      run := run.(slots := run.slots[slot := Complete(outcome)]);
      after := WithLast(after, run);
      ProceedOnce(State(after, Woken(slot)), rest);
      if !rest[0] {
        after := Fail(after, rest[1..]);
        return;
      }
      run := run.(wake := Some(slot), report := Some(outcome));
      after := WithLast(after, run);
      rest := rest[1..];
    }
    after := PublishWake(after, rest);
  }

  /** Publishes the wake that the row names, or fails. */
  method PublishWake(store: Store, oks: seq<bool>) returns (after: Store)
    requires store.runs != [] && Last(store).wake.Some? && |oks| >= 10
    ensures State(after, Absent) == Proceed(State(store, Publishing), oks)
  {
    hide Proceed;
    var run := Last(store);
    ProceedOnce(State(store, Publishing), oks);
    if oks[0] && run.report.Some? {
      var published := Publish(store, run, run.wake.value, run.report.value);
      if published.Some? {
        after := published.value;
        return;
      }
    }
    after := Fail(store, oks[1..]);
  }

  /** One resumed transition: the phases in order, each committed before the work that follows it. */
  method RunFixtureSleep(store: Store, oks: seq<bool>) returns (after: Store)
    requires store.runs != [] && !Finished(Last(store)) && |oks| >= 21
    ensures State(after, Absent) == Proceed(State(store, Opened), oks)
  {
    hide Proceed;
    after := store;
    var run := Last(store);
    ProceedOnce(State(after, Opened), oks);
    var rest := oks[1..];
    if run.phase == FailurePolicy {
      after := ApplyFailurePolicy(after, rest);
      return;
    }
    ProceedOnce(State(after, Trying), rest);
    if !rest[0] {
      after := Fail(after, rest[1..]);
      return;
    }
    rest := rest[1..];
    if run.phase == Saved {
      run := run.(phase := Training);
      after := WithLast(after, run);
      ProceedOnce(State(after, Launching), rest);
      run := run.(launches := run.launches + 1);
      after := WithLast(after, run);
      if !rest[0] {
        after := Fail(after, rest[1..]);
        return;
      }
      rest := rest[1..];
      ProceedOnce(State(after, Returned), rest);
      if !rest[0] {
        after := Fail(after, rest[1..]);
        return;
      }
      run := run.(receipt := true);
      after := WithLast(after, run);
      rest := rest[1..];
    }
    after := FromReceipt(after, rest);
  }

  method FromReceipt(store: Store, oks: seq<bool>) returns (after: Store)
    requires store.runs != [] && |oks| >= 17 && Last(store).phase != Saved
    ensures State(after, Absent) == Proceed(State(store, if Last(store).phase == Training then Resuming else Holding), oks)
  {
    hide Proceed;
    after := store;
    var run, rest := Last(store), oks;
    if run.phase == Training {
      if run.plan.training && !run.receipt {
        ProceedOnce(State(after, Resuming), rest);
        if !rest[0] {
          after := Fail(after, rest[1..]);
          return;
        }
        run := run.(receipt := true);
        after := WithLast(after, run);
        rest := rest[1..];
      }
      ProceedOnce(State(after, Resuming), rest);
      if !rest[0] || !run.receipt {
        after := Fail(after, rest[1..]);
        return;
      }
      run := run.(phase := Candidate, candidate := true);
      after := WithLast(after, run);
      rest := rest[1..];
    }
    after := FromCandidate(after, rest);
  }

  method FromCandidate(store: Store, oks: seq<bool>) returns (after: Store)
    requires store.runs != [] && |oks| >= 15
    ensures State(after, Absent) == Proceed(State(store, Holding), oks)
  {
    hide Proceed;
    after := store;
    var run, rest := Last(store), oks;
    ProceedOnce(State(after, Holding), rest);
    if !rest[0] {
      after := Fail(after, rest[1..]);
      return;
    }
    if run.phase == Candidate {
      run := run.(phase := if run.plan.adopt then Rebuilding else OldStateReview);
      after := WithLast(after, run);
    }
    if run.phase != Rebuilding && run.phase != OldStateReview {
      after := Fail(after, rest[1..]);
      return;
    }
    after := WakeAndPublish(after, rest[1..]);
  }
}
