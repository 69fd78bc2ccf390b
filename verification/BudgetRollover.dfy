/**
 Autonomous budget rollover as a machine over shared state and a receipt journal.  Schedulers and
 consumers race: every locked update is one atomic step, every receipt is written outside the lock, and
 a process may stop between any two of them.
 */
module BudgetRollover {
  import opened Basics

  datatype Cause = MaxTime | MaxIterations

  datatype ExitReason = Rollover | Cancelled | Other

  datatype Kind = Scheduled | Consumed

  /** A receipt; its id is made of the kind and the intent. */
  datatype Receipt = Receipt(kind: Kind, intent: nat, epoch: nat, wakeup: int, iteration: int)

  datatype State = State(
    active: bool, cancelRequested: bool, exit: ExitReason,
    iteration: int, maxIterations: int, iterationWindow: int, maxMinutes: int, timeWindow: int,
    epoch: nat, consumedEpoch: nat, intent: Option<nat>, consumedIntent: Option<nat>,
    notBefore: Option<int>, deadline: Option<int>,
    scheduledPending: Option<Receipt>, consumedPending: Option<Receipt>)

  /** The state, the journal, and what happened so far: intent ids drawn, intents scheduled with a
      recorder, receipts made durable in a pending field, intents consumed in order, and the first
      configured time limit with the number of time rollovers. */
  datatype World = World(
    state: State, journal: seq<Receipt>,
    used: set<nat>, recorded: set<nat>, issued: set<Receipt>, consumed: seq<nat>,
    firstMinutes: int, timeRollovers: nat)

  function Fresh(iteration: int, maxIterations: int, maxMinutes: int): World {
    World(State(true, false, Other, iteration, maxIterations, 0, maxMinutes, 0, 0, 0, None, None, None, None, None, None),
          [], {}, {}, {}, [], 0, 0)
  }

  predicate IsCancelled(s: State) {
    s.cancelRequested || s.exit.Cancelled?
  }

  function Delay(epoch: nat): int {
    Min(30000, 250 * Pow2(Min(Max(0, epoch - 1), 7)))
  }

  const GRACE := 60000
  const TIME_CAP := 10080

  function NextMinutes(prior: int, configured: int): int {
    Min(TIME_CAP, Max(1, 2 * (if prior > 0 then prior else configured)))
  }

  // ---------------------------------------------------------------- steps

  /** One atomic step.  A consumption carries where in the run its process read the state, and the intent
      whose scheduled receipt that process had written by then, if it wrote one. */
  datatype Event =
    | Schedule(id: nat, cause: Cause, now: int, recorder: bool)
    | Emit(receipt: Receipt)
    | Clear(receipt: Receipt)
    | Consume(id: nat, epoch: nat, recorder: bool, at: nat, wrote: Option<nat>)
    | Cancel
    | Others(active: bool, exit: ExitReason, iteration: int, maxIterations: int, maxMinutes: int)

  /** The guard under which scheduling changes the state at all. */
  predicate Schedulable(s: State) {
    s.active && !IsCancelled(s) && s.intent.None? && !s.exit.Rollover?
  }

  function ScheduledReceipt(s: State, id: nat, now: int): Receipt {
    Receipt(Scheduled, id, s.epoch + 1, now + Delay(s.epoch + 1), s.iteration)
  }

  function Budgets(s: State, cause: Cause): State {
    match cause
    case MaxIterations =>
      if s.maxIterations > 0 then
        var window := if s.iterationWindow > 0 then s.iterationWindow else s.maxIterations;
        s.(iterationWindow := window, maxIterations := s.iteration + window)
      else s
    case MaxTime =>
      var minutes := NextMinutes(s.timeWindow, s.maxMinutes);
      s.(timeWindow := minutes, maxMinutes := minutes)
  }

  function ScheduleState(s: State, id: nat, cause: Cause, now: int, recorder: bool): State {
    if !Schedulable(s) then s
    else
      var wakeup := now + Delay(s.epoch + 1);
      Budgets(s, cause).(exit := Rollover, epoch := s.epoch + 1, intent := Some(id),
                         notBefore := Some(wakeup), deadline := Some(wakeup + GRACE),
                         scheduledPending := if recorder then Some(ScheduledReceipt(s, id, now)) else None)
  }

  function ConsumedReceipt(id: nat, epoch: nat): Receipt {
    Receipt(Consumed, id, epoch, 0, 0)
  }

  predicate Consumable(s: State, id: nat, epoch: nat) {
    s.intent == Some(id) && s.epoch == epoch && s.active && !IsCancelled(s)
  }

  function ConsumeState(s: State, id: nat, epoch: nat, recorder: bool): State {
    if !Consumable(s, id, epoch) then s
    else s.(consumedEpoch := epoch, consumedIntent := Some(id), intent := None, notBefore := None, deadline := None,
            consumedPending := if recorder then Some(ConsumedReceipt(id, epoch)) else None)
  }

  /** Receipts are compared by kind, intent and epoch. */
  predicate Matches(pending: Option<Receipt>, r: Receipt) {
    pending.Some? && pending.value.kind == r.kind && pending.value.intent == r.intent && pending.value.epoch == r.epoch
  }

  function ClearState(s: State, r: Receipt): State {
    if r.kind.Scheduled? then
      if Matches(s.scheduledPending, r) then s.(scheduledPending := None) else s
    else
      if Matches(s.consumedPending, r) then s.(consumedPending := None) else s
  }

  function Apply(w: World, e: Event): World {
    var s := w.state;
    match e
    case Schedule(id, cause, now, recorder) =>
      if !Schedulable(s) then w.(used := w.used + {id})
      else
        World(ScheduleState(s, id, cause, now, recorder), w.journal, w.used + {id},
              w.recorded + if recorder then {id} else {},
              w.issued + if recorder then {ScheduledReceipt(s, id, now)} else {}, w.consumed,
              if cause.MaxTime? && w.timeRollovers == 0 then s.maxMinutes else w.firstMinutes,
              w.timeRollovers + if cause.MaxTime? then 1 else 0)
    case Emit(r) => w.(journal := w.journal + [r])
    case Clear(r) => w.(state := ClearState(s, r))
    case Consume(id, epoch, recorder, _, _) =>
      if !Consumable(s, id, epoch) then w
      else w.(state := ConsumeState(s, id, epoch, recorder), consumed := w.consumed + [id],
              issued := w.issued + if recorder then {ConsumedReceipt(id, epoch)} else {})
    case Cancel => w.(state := s.(cancelRequested := true, active := false, exit := Cancelled))
    case Others(active, exit, iteration, maxIterations, maxMinutes) =>
      w.(state := s.(active := active, exit := exit, iteration := iteration,
                     maxIterations := maxIterations, maxMinutes := maxMinutes))
  }

  /** What a process must know before it takes the step: an intent id is new, a receipt was read from a
      pending field or made for it, and it is cleared only after it was written. */
  predicate Allowed(w: World, e: Event) {
    match e
    case Schedule(id, _, _, _) => id !in w.used
    case Emit(r) => r in w.issued
    case Clear(r) => r in w.journal
    case _ => true
  }

  function Run(w: World, events: seq<Event>): World {
    if events == [] then w else Apply(Run(w, events[..|events| - 1]), events[|events| - 1])
  }

  predicate AllAllowed(w: World, events: seq<Event>) {
    events != [] ==>
      var init := events[..|events| - 1];
      AllAllowed(w, init) && Allowed(Run(w, init), events[|events| - 1])
  }

  lemma RunSnoc(w: World, events: seq<Event>, e: Event)
    ensures Run(w, events + [e]) == Apply(Run(w, events), e)
    ensures AllAllowed(w, events + [e]) <==> AllAllowed(w, events) && Allowed(Run(w, events), e)
  {
    assert (events + [e])[..|events|] == events;
  }

  // ---------------------------------------------------------------- what a consumer has read

  predicate HasReceipt(journal: seq<Receipt>, kind: Kind, id: nat) {
    exists r :: r in journal && r.kind == kind && r.intent == id
  }

  /** A consumption comes from an earlier state with its intent outstanding, read by a process that had
      written the receipt it says it wrote. */
  predicate ReadOk(w: World, before: seq<Event>, e: Event) {
    e.Consume? ==>
      && e.at <= |before|
      && var v := Run(w, before[..e.at]);
         && v.state.intent == Some(e.id) && v.state.epoch == e.epoch
         && (e.wrote.Some? ==> HasReceipt(v.journal, Scheduled, e.wrote.value))
  }

  predicate AllRead(w: World, events: seq<Event>) {
    events != [] ==>
      var init := events[..|events| - 1];
      AllRead(w, init) && ReadOk(w, init, events[|events| - 1])
  }

  lemma ReadSnoc(w: World, events: seq<Event>, e: Event)
    ensures AllRead(w, events + [e]) <==> AllRead(w, events) && ReadOk(w, events, e)
  {
    assert (events + [e])[..|events|] == events;
  }

  /** What no step takes back. */
  predicate Grows(w: World, v: World) {
    w.issued <= v.issued && forall r :: r in w.journal ==> r in v.journal
  }

  lemma StepGrows(w: World, e: Event)
    ensures Grows(w, Apply(w, e))
  {
  }

  // ---------------------------------------------------------------- accounting

  /** One epoch is open exactly while an intent is outstanding, and each consumed epoch had its own intent. */
  predicate Accounted(w: World) {
    var s := w.state;
    && s.epoch == s.consumedEpoch + (if s.intent.Some? then 1 else 0)
    && (s.intent.Some? ==> s.intent.value in w.used && s.intent.value !in w.consumed)
    && Distinct(w.consumed) && ToSet(w.consumed) <= w.used
    && |w.consumed| == s.consumedEpoch
    && s.consumedIntent == (if w.consumed == [] then None else Some(w.consumed[|w.consumed| - 1]))
    && w.recorded <= w.used
  }

  predicate IssuedFor(w: World, r: Receipt) {
    && r.intent in w.used
    && (r.kind.Scheduled? ==> r.intent in w.recorded)
    && (r.kind.Consumed? ==> r.intent in w.consumed)
  }

  /** Receipts of one kind for one intent are the same receipt. */
  predicate SameId(r: Receipt, q: Receipt) {
    r.kind == q.kind && r.intent == q.intent ==> r == q
  }

  predicate Receipted(w: World) {
    var s := w.state;
    && (forall r {:trigger IssuedFor(w, r)} :: r in w.issued ==> IssuedFor(w, r))
    && (forall r, q {:trigger SameId(r, q)} :: r in w.issued && q in w.issued ==> SameId(r, q))
    && (forall r :: r in w.journal ==> r in w.issued)
    && (s.scheduledPending.Some? ==> s.scheduledPending.value in w.issued && s.scheduledPending.value.kind.Scheduled?)
    && (s.consumedPending.Some? ==> s.consumedPending.value in w.issued && s.consumedPending.value.kind.Consumed?)
  }

  /** The scheduled receipt of an outstanding intent is pending or written, and no other one is pending. */
  predicate ScheduledKnown(w: World) {
    var s := w.state;
    s.intent.Some? ==>
      if s.scheduledPending.Some? then s.scheduledPending.value.intent == s.intent.value
      else s.intent.value in w.recorded ==> HasReceipt(w.journal, Scheduled, s.intent.value)
  }

  /** The time window doubles with every time rollover, up to a week. */
  predicate TimeDoubles(w: World) {
    w.firstMinutes >= 1 || w.timeRollovers == 0 ==>
      w.state.timeWindow == if w.timeRollovers == 0 then 0 else Min(TIME_CAP, Pow2(w.timeRollovers) * w.firstMinutes)
  }

  predicate Inv(w: World) {
    Accounted(w) && Receipted(w) && ScheduledKnown(w) && TimeDoubles(w)
  }

  lemma StepAccounts(w: World, e: Event)
    requires Accounted(w) && Allowed(w, e)
    ensures Accounted(Apply(w, e))
  {
    if e.Consume? {
      DistinctSnoc(w.consumed, e.id);
    }
  }

  lemma StepReceipts(w: World, e: Event)
    requires Accounted(w) && Receipted(w) && Allowed(w, e)
    ensures Receipted(Apply(w, e))
  {
    var v := Apply(w, e);
    forall r | r in v.issued ensures IssuedFor(v, r) {
      if r in w.issued { assert IssuedFor(w, r); }
    }
    forall r, q | r in v.issued && q in v.issued ensures SameId(r, q) {
      if r in w.issued { assert IssuedFor(w, r); }
      if q in w.issued { assert IssuedFor(w, q); }
      if r in w.issued && q in w.issued { assert SameId(r, q); }
    }
  }

  lemma StepKnowsScheduled(w: World, e: Event)
    requires Accounted(w) && Receipted(w) && ScheduledKnown(w) && Allowed(w, e)
    ensures ScheduledKnown(Apply(w, e))
  {
    var v := Apply(w, e);
    if v.state.intent.Some? && v.state.intent.value in v.recorded {
      var i := v.state.intent.value;
      if e.Emit? && HasReceipt(w.journal, Scheduled, i) {
        var r :| r in w.journal && r.kind == Scheduled && r.intent == i;
        assert r in v.journal;
      }
    }
  }

  lemma DoublingSaturates(k: nat, w: int)
    requires w >= 1
    ensures Pow2(k) >= 1 && Pow2(k) * w >= 1
    ensures NextMinutes(Min(TIME_CAP, Pow2(k) * w), 0) == Min(TIME_CAP, Pow2(k + 1) * w)
  {
    if k > 0 {
      DoublingSaturates(k - 1, w);
    }
    assert Pow2(k + 1) * w == 2 * (Pow2(k) * w);
  }

  lemma StepDoubles(w: World, e: Event)
    requires TimeDoubles(w)
    ensures TimeDoubles(Apply(w, e))
  {
    if e.Schedule? && e.cause.MaxTime? && Schedulable(w.state) {
      if w.timeRollovers > 0 && w.firstMinutes >= 1 {
        DoublingSaturates(w.timeRollovers, w.firstMinutes);
      } else if w.timeRollovers == 0 {
        assert Pow2(1) == 2 * Pow2(0);
      }
    }
  }

  lemma StepKeepsInv(w: World, e: Event)
    requires Inv(w) && Allowed(w, e)
    ensures Inv(Apply(w, e))
  {
    StepAccounts(w, e);
    StepReceipts(w, e);
    StepKnowsScheduled(w, e);
    StepDoubles(w, e);
  }

  /** Over every run of racing processes the accounts balance, each intent is consumed at most once,
      and duplicate receipts are the same receipt. */
  lemma {:induction false} RunKeepsInv(w: World, events: seq<Event>)
    requires Inv(w) && AllAllowed(w, events)
    ensures Inv(Run(w, events))
  {
    if events != [] {
      RunKeepsInv(w, events[..|events| - 1]);
      StepKeepsInv(Run(w, events[..|events| - 1]), events[|events| - 1]);
    }
  }

  lemma FreshInv(iteration: int, maxIterations: int, maxMinutes: int)
    ensures Inv(Fresh(iteration, maxIterations, maxMinutes))
  {
  }

  lemma {:induction false} DrawnStaysUsed(w: World, events: seq<Event>, k: nat)
    requires k < |events| && events[k].Schedule?
    ensures events[k].id in Run(w, events).used
  {
    if k < |events| - 1 {
      DrawnStaysUsed(w, events[..|events| - 1], k);
    }
  }

  /** An intent id belongs to one scheduling step only. */
  lemma {:induction false} ScheduledOnce(w: World, events: seq<Event>, i: nat, j: nat)
    requires AllAllowed(w, events) && i < |events| && j < |events|
    requires events[i].Schedule? && events[j].Schedule? && events[i].id == events[j].id
    ensures i == j
  {
    var n := |events| - 1;
    assert Allowed(Run(w, events[..n]), events[n]);
    if i < n && j < n {
      ScheduledOnce(w, events[..n], i, j);
    } else if i != j {
      DrawnStaysUsed(w, events[..n], Min(i, j));
    }
  }

  /** What the accounts say of every run from a fresh session. */
  lemma RolloverAccounts(iteration: int, maxIterations: int, maxMinutes: int, events: seq<Event>)
    requires AllAllowed(Fresh(iteration, maxIterations, maxMinutes), events)
    ensures var v := Run(Fresh(iteration, maxIterations, maxMinutes), events);
            && v.state.epoch - v.state.consumedEpoch == (if v.state.intent.Some? then 1 else 0)
            && Distinct(v.consumed) && |v.consumed| == v.state.consumedEpoch
            && (forall i, j :: 0 <= i < |v.journal| && 0 <= j < |v.journal| ==> SameId(v.journal[i], v.journal[j]))
            && (v.timeRollovers > 0 && v.firstMinutes >= 1 ==>
                  v.state.timeWindow == Min(10080, Pow2(v.timeRollovers) * v.firstMinutes))
  {
    FreshInv(iteration, maxIterations, maxMinutes);
    RunKeepsInv(Fresh(iteration, maxIterations, maxMinutes), events);
  }

  // ---------------------------------------------------------------- delays

  /** The delay starts at a quarter second and doubles with every epoch, up to half a minute. */
  lemma DelayDoubles(epoch: nat)
    requires epoch >= 1
    ensures Delay(1) == 250 && Delay(epoch + 1) == Min(30000, 2 * Delay(epoch))
    ensures Delay(epoch) == Min(30000, 250 * Pow2(epoch - 1))
  {
    SevenDoublings(epoch - 1);
    SevenDoublings(epoch);
  }

  /** How many steps of the run opened an epoch. */
  function Rollovers(w: World, events: seq<Event>): nat {
    if events == [] then 0
    else
      var init := events[..|events| - 1];
      Rollovers(w, init) + if events[|events| - 1].Schedule? && Schedulable(Run(w, init).state) then 1 else 0
  }

  lemma {:induction false} EpochCounts(w: World, events: seq<Event>)
    ensures Run(w, events).state.epoch == w.state.epoch + Rollovers(w, events)
  {
    if events != [] {
      EpochCounts(w, events[..|events| - 1]);
    }
  }

  /** The state after a rollover of cause `cause` at time `now`, the one that opens epoch `epoch`: it waits a
      quarter second doubled once for every epoch before, up to half a minute, its deadline is a minute after
      that, and its receipt tells the same. */
  predicate Opened(s: State, t: State, id: nat, cause: Cause, now: int, recorder: bool, epoch: nat)
    requires epoch >= 1
  {
    var wakeup := now + Min(30000, 250 * Pow2(epoch - 1));
    && t.epoch == epoch && t.intent == Some(id) && t.exit.Rollover?
    && t.notBefore == Some(wakeup) && t.deadline == Some(wakeup + 60000)
    && t.scheduledPending == (if recorder then Some(Receipt(Scheduled, id, epoch, wakeup, s.iteration)) else None)
    && t.active == s.active && t.iteration == s.iteration && t.consumedEpoch == s.consumedEpoch
    && t.consumedIntent == s.consumedIntent && t.consumedPending == s.consumedPending
    && (if cause.MaxTime? then t.maxIterations == s.maxIterations && t.iterationWindow == s.iterationWindow
        else t.maxMinutes == s.maxMinutes && t.timeWindow == s.timeWindow)
  }

  lemma ScheduleOpens(s: State, id: nat, cause: Cause, now: int, recorder: bool)
    requires Schedulable(s)
    ensures Opened(s, ScheduleState(s, id, cause, now, recorder), id, cause, now, recorder, s.epoch + 1)
  {
    DelayDoubles(s.epoch + 1);
  }

  /** The rollover that follows `n` others of a session without earlier ones opens epoch `n + 1`. */
  lemma {:induction false} NthRollover(w: World, events: seq<Event>, e: Event)
    requires w.state.epoch == 0 && e.Schedule? && Schedulable(Run(w, events).state)
    ensures Opened(Run(w, events).state, Run(w, events + [e]).state, e.id, e.cause, e.now, e.recorder, Rollovers(w, events) + 1)
  {
    EpochCounts(w, events);
    RunSnoc(w, events, e);
    StepOpens(Run(w, events), e);
  }

  lemma StepOpens(w: World, e: Event)
    requires e.Schedule? && Schedulable(w.state)
    ensures Opened(w.state, Apply(w, e).state, e.id, e.cause, e.now, e.recorder, w.state.epoch + 1)
  {
    ScheduleOpens(w.state, e.id, e.cause, e.now, e.recorder);
  }

  // ---------------------------------------------------------------- cancellation

  predicate SameAccounts(s: State, t: State) {
    && s.epoch == t.epoch && s.consumedEpoch == t.consumedEpoch
    && s.intent == t.intent && s.consumedIntent == t.consumedIntent
    && s.timeWindow == t.timeWindow && s.iterationWindow == t.iterationWindow
    && s.notBefore == t.notBefore && s.deadline == t.deadline
    && (t.scheduledPending == s.scheduledPending || t.scheduledPending.None?)
    && (t.consumedPending == s.consumedPending || t.consumedPending.None?)
  }

  lemma CancelledStepFrozen(w: World, e: Event)
    requires w.state.cancelRequested
    ensures Apply(w, e).state.cancelRequested && SameAccounts(w.state, Apply(w, e).state)
    ensures Apply(w, e).consumed == w.consumed
    ensures e.Cancel? ==> !Apply(w, e).state.active && Apply(w, e).state.exit.Cancelled?
  {
  }

  /** After a cancellation request no step of any process changes the accounts; a pending receipt can
      only be cleared. */
  lemma {:induction false} CancelledAccountsFrozen(w: World, events: seq<Event>)
    requires w.state.cancelRequested
    ensures Run(w, events).state.cancelRequested && SameAccounts(w.state, Run(w, events).state)
    ensures Run(w, events).consumed == w.consumed
  {
    if events != [] {
      CancelledAccountsFrozen(w, events[..|events| - 1]);
      CancelledStepFrozen(Run(w, events[..|events| - 1]), events[|events| - 1]);
    }
  }

  /** A session that ended as cancelled opens and closes no epoch either. */
  lemma CancelledExitBlocks(w: World, e: Event)
    requires w.state.exit.Cancelled? && (e.Schedule? || e.Consume?)
    ensures Apply(w, e).state == w.state && Apply(w, e).consumed == w.consumed && Apply(w, e).issued == w.issued
  {
  }

  // ---------------------------------------------------------------- budgets granted

  /** The first iteration limit that a rollover of the run found configured, or else `current`. */
  function FirstLimit(w: World, events: seq<Event>, current: int): int {
    if events == [] then current
    else
      var init, e := events[..|events| - 1], events[|events| - 1];
      var s := Run(w, init).state;
      FirstLimit(w, init, if e.Schedule? && e.cause.MaxIterations? && Schedulable(s) && s.maxIterations > 0 then s.maxIterations else current)
  }

  lemma {:induction false} WindowIsFirstLimit(iteration: int, maxIterations: int, maxMinutes: int, events: seq<Event>, current: int)
    ensures var w := Fresh(iteration, maxIterations, maxMinutes);
            FirstLimit(w, events, current) == (if Run(w, events).state.iterationWindow > 0 then Run(w, events).state.iterationWindow else current)
    ensures Run(Fresh(iteration, maxIterations, maxMinutes), events).state.iterationWindow >= 0
  {
    if events != [] {
      var w, init, e := Fresh(iteration, maxIterations, maxMinutes), events[..|events| - 1], events[|events| - 1];
      var s := Run(w, init).state;
      WindowIsFirstLimit(iteration, maxIterations, maxMinutes, init,
                         if e.Schedule? && e.cause.MaxIterations? && Schedulable(s) && s.maxIterations > 0 then s.maxIterations else current);
    }
  }

  /** In a run from a fresh session every rollover for iterations grants the first limit configured, from the
      current iteration on; without a limit it grants nothing.  A rollover for time grants a minute at least
      and a week at most. */
  lemma {:induction false} RolloverGrants(iteration: int, maxIterations: int, maxMinutes: int, events: seq<Event>, e: Event)
    requires var v := Run(Fresh(iteration, maxIterations, maxMinutes), events); e.Schedule? && Schedulable(v.state)
    ensures var w := Fresh(iteration, maxIterations, maxMinutes);
            var s, t := Run(w, events).state, Run(w, events + [e]).state;
            if e.cause.MaxIterations? then
              t.maxIterations == if s.maxIterations > 0 then s.iteration + FirstLimit(w, events, s.maxIterations) else s.maxIterations
            else
              && t.maxMinutes == t.timeWindow && 1 <= t.maxMinutes <= 10080
              && (s.timeWindow <= 0 ==> t.maxMinutes == Min(10080, Max(1, 2 * s.maxMinutes)))
  {
    var w := Fresh(iteration, maxIterations, maxMinutes);
    WindowIsFirstLimit(iteration, maxIterations, maxMinutes, events, Run(w, events).state.maxIterations);
    RunSnoc(w, events, e);
  }

  /** Once granted, the iteration window never changes. */
  lemma {:induction false} WindowFixed(w: World, events: seq<Event>)
    requires w.state.iterationWindow > 0
    ensures Run(w, events).state.iterationWindow == w.state.iterationWindow
  {
    if events != [] {
      WindowFixed(w, events[..|events| - 1]);
    }
  }

  /** Every iteration rollover grants exactly the limit configured at the first one, counted from the
      current iteration, whatever the limit has become meanwhile. */
  lemma GrantsFirstWindow(w: World, first: Event, events: seq<Event>, later: Event)
    requires first.Schedule? && first.cause.MaxIterations? && Schedulable(w.state)
    requires w.state.iterationWindow == 0 && w.state.maxIterations > 0
    requires later.Schedule? && later.cause.MaxIterations?
    requires var v := Run(Apply(w, first), events).state; Schedulable(v) && v.maxIterations > 0
    ensures var v := Run(Apply(w, first), events);
            Apply(v, later).state.maxIterations == v.state.iteration + w.state.maxIterations
    ensures Apply(w, first).state.maxIterations == w.state.iteration + w.state.maxIterations
  {
    WindowFixed(Apply(w, first), events);
  }
}
