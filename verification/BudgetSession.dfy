/**
 The processes that schedule and consume budget rollovers.  Each locked update is one step of the
 machine of `BudgetRollover`; reads and receipt writes happen between updates, with steps of other
 processes in between.  A process that stops early just takes no further step.
 */
module BudgetSession {
  import opened Basics
  import opened BudgetRollover
  import opened BudgetOrder

  datatype ScheduleOutcome = NotScheduled | Refused | RolledOver(id: nat, epoch: nat, delay: int, receiptWritten: bool)

  datatype ConsumeOutcome = Nothing | ConsumedNow | Resumed | WriteFailed | CorruptIntent

  lemma {:induction false} SomeUnused(s: set<nat>)
    ensures exists n: nat :: n !in s
  {
    if s == {} {
      assert 0 !in s;
    } else {
      var top := Largest(s);
      assert top + 1 !in s;
    }
  }

  ghost function Largest(s: set<nat>): (m: nat)
    requires s != {}
    ensures m in s && forall x :: x in s ==> x <= m
  {
    var x :| x in s;
    var rest := s - {x};
    assert forall y :: y in s ==> y == x || y in rest;
    if rest == {} then x
    else
      var m := Largest(rest);
      if x > m then x else m
  }

  /** How a consumer comes to the read it consumes from: its first read, with no scheduled receipt
      pending, or another one after it wrote the receipt that was pending at the first. */
  ghost predicate ReadFrom(w: World, trace: seq<Event>, first: nat, at: nat, wrote: Option<nat>, recorder: bool)
    requires first <= |trace|
  {
    var pending := Run(w, trace[..first]).state.scheduledPending;
    match wrote
    case None => at == first && pending.None?
    case Some(i) =>
      && recorder && pending.Some? && pending.value.intent == i
      && exists k :: first <= k < at <= |trace| && trace[k] == Emit(pending.value)
  }

  /** A consumer that is left alone takes the intent that is outstanding: the session is active and not cancelled,
      no consumed receipt is left over, and a scheduled receipt that is pending can be written. */
  predicate Takes(s: State, recorder: bool, disk: bool) {
    && s.intent.Some? && s.active && !IsCancelled(s) && s.consumedPending.None?
    && (s.scheduledPending.Some? ==> recorder && disk)
  }

  /** What it then reports: a consumption with its receipt written, a receipt left over that was written, or a
      receipt that could not be. */
  predicate Served(s: State, recorder: bool, disk: bool, r: ConsumeOutcome) {
    && (r == ConsumedNow <==> Takes(s, recorder, disk) && (recorder ==> disk))
    && (r == Resumed <==> !IsCancelled(s) && s.consumedPending.Some? && recorder && disk)
    && (r == WriteFailed <==>
          !IsCancelled(s) && recorder && !disk && (s.scheduledPending.Some? || s.consumedPending.Some? || Takes(s, recorder, disk)))
  }

  /** A consuming step at `own` whose process read the state as `ReadFrom` says; guarded, it is clean. */
  ghost predicate Consumption(w: World, trace: seq<Event>, first: nat, own: nat, recorder: bool)
    requires first <= own < |trace|
  {
    var e := trace[own];
    && e.Consume? && e.recorder == recorder && first <= e.at <= own
    && ReadFrom(w, trace, first, e.at, e.wrote, recorder)
    && (GuardOk(w, trace[..own], e) ==> Clean(Run(w, trace[..own]), e))
  }

  lemma ReadFromLater(w: World, trace: seq<Event>, later: seq<Event>, first: nat, at: nat, wrote: Option<nat>, recorder: bool)
    requires first <= |trace| && trace <= later && ReadFrom(w, trace, first, at, wrote, recorder)
    ensures ReadFrom(w, later, first, at, wrote, recorder)
  {
    assert later[..first] == trace[..first];
    if wrote.Some? {
      var pending := Run(w, trace[..first]).state.scheduledPending;
      var k :| first <= k < at <= |trace| && trace[k] == Emit(pending.value);
      assert later[k] == Emit(pending.value);
    }
  }

  lemma ConsumptionLater(w: World, trace: seq<Event>, later: seq<Event>, first: nat, own: nat, recorder: bool)
    requires first <= own < |trace| && trace <= later && Consumption(w, trace, first, own, recorder)
    ensures Consumption(w, later, first, own, recorder)
  {
    assert later[..own] == trace[..own];
    ReadFromLater(w, trace, later, first, trace[own].at, trace[own].wrote, recorder);
  }

  /** Step `k` opened the epoch, with the delay that follows from it. */
  ghost predicate OpenedAt(w: World, trace: seq<Event>, k: nat, e: Event, epoch: nat, delay: int)
    requires k < |trace|
  {
    var s := Run(w, trace[..k]).state;
    trace[k] == e && Schedulable(s) && epoch == s.epoch + 1 && delay == Min(30000, 250 * Pow2(epoch - 1))
  }

  lemma OpenedAtLater(w: World, trace: seq<Event>, later: seq<Event>, k: nat, e: Event, epoch: nat, delay: int)
    requires k < |trace| && trace <= later && OpenedAt(w, trace, k, e, epoch, delay)
    ensures OpenedAt(w, later, k, e, epoch, delay)
  {
    assert later[..k] == trace[..k];
  }

  class Session {
    var world: World
    const origin: World
    var trace: seq<Event>

    constructor (w: World)
      requires Inv(w)
      ensures Valid() && world == w && trace == []
    {
      world, origin, trace := w, w, [];
    }

    ghost predicate Valid()
      reads this
    {
      Inv(origin) && AllAllowed(origin, trace) && AllRead(origin, trace) && world == Run(origin, trace) && Inv(world)
    }

    method Record(e: Event)
      requires Inv(origin) && AllAllowed(origin, trace) && AllRead(origin, trace) && Inv(Run(origin, trace))
      requires Allowed(Run(origin, trace), e) && ReadOk(origin, trace, e) && world == Apply(Run(origin, trace), e)
      modifies this`trace
      ensures Valid() && trace == old(trace) + [e]
    {
      StepKeepsInv(Run(origin, trace), e);
      RunSnoc(origin, trace, e);
      ReadSnoc(origin, trace, e);
      trace := trace + [e];
    }

    /** Other processes take any number of steps, unless this one is left alone. */
    method Interfere(alone: bool)
      requires Valid()
      modifies this
      ensures Valid() && old(trace) <= trace && Grows(old(world), world)
      ensures alone ==> world == old(world) && trace == old(trace)
    {
      if alone { return; }
      var n: nat :| 0 <= n;
      for i := 0 to n
        invariant Valid() && old(trace) <= trace && Grows(old(world), world)
      {
        var e: Event := *;
        if Allowed(world, e) && ReadOk(origin, trace, e) {
          StepGrows(world, e);
          world := Apply(world, e);
          Record(e);
        }
      }
    }

    /** Writes a receipt and then clears it where it is still pending; `disk` says whether the write succeeds. */
    method EmitPending(r: Receipt, alone: bool, disk: bool) returns (ok: bool)
      requires Valid() && r in world.issued
      modifies this
      ensures Valid() && old(trace) <= trace && Grows(old(world), world)
      ensures ok ==> r in world.journal && exists k :: |old(trace)| <= k < |trace| && trace[k] == Emit(r)
      ensures ok == disk
      ensures alone ==> world == if ok then Apply(Apply(old(world), Emit(r)), Clear(r)) else old(world)
    {
      Interfere(alone);
      if !disk {
        return false;
      }
      ghost var k := |trace|;
      AppendReceipt(r);
      Interfere(alone);
      ClearPending(r);
      assert trace[k] == Emit(r);
      return true;
    }

    method AppendReceipt(r: Receipt)
      requires Valid() && r in world.issued
      modifies this
      ensures Valid() && trace == old(trace) + [Emit(r)] && Grows(old(world), world)
      ensures world == Apply(old(world), Emit(r)) && r in world.journal
    {
      StepGrows(world, Emit(r));
      world := world.(journal := world.journal + [r]);
      Record(Emit(r));
    }

    /** The locked update that clears a written receipt where it is still pending. */
    method ClearPending(r: Receipt)
      requires Valid() && r in world.journal
      modifies this
      ensures Valid() && trace == old(trace) + [Clear(r)] && Grows(old(world), world)
      ensures world == Apply(old(world), Clear(r))
    {
      StepGrows(world, Clear(r));
      var current := world.state;
      if r.kind.Scheduled? {
        if Matches(current.scheduledPending, r) { current := current.(scheduledPending := None); }
      } else {
        if Matches(current.consumedPending, r) { current := current.(consumedPending := None); }
      }
      world := world.(state := current);
      Record(Clear(r));
    }

    /** The budgets a rollover grants. */
    method GrantBudgets(state: State, cause: Cause) returns (current: State)
      ensures current == Budgets(state, cause)
    {
      current := state;
      match cause {
        case MaxIterations =>
          if current.maxIterations > 0 {
            var window := if current.iterationWindow > 0 then current.iterationWindow else current.maxIterations;
            current := current.(iterationWindow := window, maxIterations := current.iteration + window);
          }
        case MaxTime =>
          var window := if current.timeWindow > 0 then current.timeWindow else current.maxMinutes;
          var next := Min(TIME_CAP, Max(1, window * 2));
          current := current.(timeWindow := next, maxMinutes := next);
      }
    }

    /** The locked update that opens an epoch. */
    method UpdateScheduled(id: nat, cause: Cause, now: int, recorder: bool) returns (receipt: Option<Receipt>)
      requires Valid() && id !in world.used && Schedulable(world.state)
      modifies this
      ensures Valid() && trace == old(trace) + [Schedule(id, cause, now, recorder)]
      ensures world == Apply(old(world), Schedule(id, cause, now, recorder))
      ensures Opened(old(world).state, world.state, id, cause, now, recorder, old(world).state.epoch + 1)
      ensures receipt == world.state.scheduledPending
      ensures recorder ==> receipt.value in world.issued
    {
      ScheduleOpens(world.state, id, cause, now, recorder);
      var state := world.state;
      var epoch := state.epoch + 1;
      var wakeup := now + Delay(epoch);
      receipt := if recorder then Some(Receipt(Scheduled, id, epoch, wakeup, state.iteration)) else None;
      var current := GrantBudgets(state, cause);
      current := current.(exit := Rollover, epoch := epoch, intent := Some(id),
                          notBefore := Some(wakeup), deadline := Some(wakeup + GRACE), scheduledPending := receipt);
      assert current == ScheduleState(state, id, cause, now, recorder);
      world := Apply(world, Schedule(id, cause, now, recorder)).(state := current);
      Record(Schedule(id, cause, now, recorder));
    }

    /** Schedules a rollover.  Cancellation, seen in the update itself, is authoritative; a second intent is refused. */
    method ScheduleRollover(cause: Cause, now: int, recorder: bool, alone: bool, disk: bool) returns (r: ScheduleOutcome)
      requires Valid()
      modifies this
      ensures Valid() && old(trace) <= trace
      ensures r.RolledOver? ==>
                exists k :: |old(trace)| <= k < |trace|
                            && OpenedAt(origin, trace, k, Schedule(r.id, cause, now, recorder), r.epoch, r.delay)
      ensures r.RolledOver? && r.receiptWritten && recorder ==> HasReceipt(world.journal, Scheduled, r.id)
      ensures !r.RolledOver? ==> !Schedulable(world.state)
      ensures r.NotScheduled? ==> !world.state.active || IsCancelled(world.state)
      ensures r.Refused? ==> world.state.active && !IsCancelled(world.state)
      ensures r.RolledOver? ==> (r.receiptWritten <==> recorder ==> disk)
      ensures alone ==> (r.RolledOver? <==> Schedulable(old(world).state)) && (!r.RolledOver? ==> world == old(world))
    {
      Interfere(alone);
      if !world.state.active || IsCancelled(world.state) {
        return NotScheduled;
      }
      if world.state.intent.Some? || world.state.exit.Rollover? {
        return Refused;
      }
      ghost var k := |trace|;
      var id, epoch, receipt := DrawAndSchedule(cause, now, recorder);
      ghost var start := trace;
      var written := true;
      if receipt.Some? {
        written := EmitPending(receipt.value, alone, disk);
      }
      OpenedAtLater(origin, start, trace, k, Schedule(id, cause, now, recorder), epoch, Delay(epoch));
      r := RolledOver(id, epoch, Delay(epoch), written);
    }

    /** Draws an intent id and opens an epoch for it. */
    method DrawAndSchedule(cause: Cause, now: int, recorder: bool) returns (id: nat, epoch: nat, receipt: Option<Receipt>)
      requires Valid() && Schedulable(world.state)
      modifies this
      ensures Valid() && trace == old(trace) + [Schedule(id, cause, now, recorder)]
      ensures OpenedAt(origin, trace, |old(trace)|, Schedule(id, cause, now, recorder), epoch, Delay(epoch))
      ensures receipt.Some? <==> recorder
      ensures recorder ==> receipt.value in world.issued && receipt.value.kind.Scheduled? && receipt.value.intent == id
    {
      SomeUnused(world.used);
      id :| id !in world.used;
      epoch := world.state.epoch + 1;
      ghost var start := trace;
      DelayDoubles(epoch);
      receipt := UpdateScheduled(id, cause, now, recorder);
      assert trace[..|start|] == start;
    }

    /** The locked update that closes an epoch, for a process that read the state at `at`. */
    method UpdateConsumed(id: nat, epoch: nat, recorder: bool, at: nat, wrote: Option<nat>) returns (consumed: bool)
      requires Valid() && ReadOk(origin, trace, Consume(id, epoch, recorder, at, wrote))
      modifies this
      ensures Valid() && trace == old(trace) + [Consume(id, epoch, recorder, at, wrote)]
      ensures consumed <==> Consumable(old(world).state, id, epoch)
      ensures consumed && recorder ==> ConsumedReceipt(id, epoch) in world.issued
      ensures consumed ==> world.consumed == old(world).consumed + [id]
      ensures world == Apply(old(world), Consume(id, epoch, recorder, at, wrote))
    {
      consumed := false;
      var current := world.state;
      if current.intent == Some(id) && current.epoch == epoch && current.active && !IsCancelled(current) {
        var receipt := ConsumedReceipt(id, epoch);
        current := current.(consumedEpoch := epoch, consumedIntent := Some(id), intent := None);
        current := current.(notBefore := None, deadline := None,
                            consumedPending := if recorder then Some(receipt) else None);
        world := world.(state := current, consumed := world.consumed + [id],
                        issued := if recorder then world.issued + {receipt} else world.issued);
        consumed := true;
      }
      Record(Consume(id, epoch, recorder, at, wrote));
    }

    /** Consumes the outstanding intent, if any.  `first` is where it first read the state, `own` where it
        took its consuming step; that step is clean whenever the state it was read from passes the guard.
        Left alone, it does what the state it finds allows. */
    method ConsumeRollover(recorder: bool, alone: bool, disk: bool) returns (r: ConsumeOutcome, ghost first: nat, ghost own: Option<nat>)
      requires Valid()
      modifies this
      ensures Valid() && old(trace) <= trace && |old(trace)| <= first <= |trace|
      ensures r != CorruptIntent
      ensures r == ConsumedNow ==> own.Some?
      ensures own.Some? ==> first <= own.value < |trace| && Consumption(origin, trace, first, own.value, recorder)
      ensures alone ==> Served(old(world).state, recorder, disk, r)
      ensures alone && Takes(old(world).state, recorder, disk) ==> world.consumed == old(world).consumed + [old(world).state.intent.value]
      ensures alone && !Takes(old(world).state, recorder, disk) ==> world.consumed == old(world).consumed
    {
      Interfere(alone);
      first, own := |trace|, None;
      ghost var start := trace;
      var wrote: Option<nat> := None;
      if IsCancelled(world.state) { return Nothing, first, own; }
      if world.state.scheduledPending.Some? {
        if !recorder { return Nothing, first, own; }
        var ok;
        ok, wrote := WriteScheduled(alone, disk);
        assert trace[..first] == start;
        if !ok { return WriteFailed, first, own; }
        if IsCancelled(world.state) { return Nothing, first, own; }
      }
      assert trace[..first] == start;
      assert ReadFrom(origin, trace, first, |trace|, wrote, recorder);
      r, own := ConsumeRead(first, wrote, recorder, alone, disk);
    }

    /** Writes the scheduled receipt that is pending, and reads again. */
    method WriteScheduled(alone: bool, disk: bool) returns (ok: bool, wrote: Option<nat>)
      requires Valid() && world.state.scheduledPending.Some?
      modifies this
      ensures Valid() && old(trace) <= trace && ok == disk
      ensures ok ==>
                var pending := old(world).state.scheduledPending.value;
                && wrote == Some(pending.intent) && HasReceipt(world.journal, Scheduled, pending.intent)
                && exists k :: |old(trace)| <= k < |trace| && trace[k] == Emit(pending)
      ensures alone ==>
                && world.consumed == old(world).consumed
                && world.state == if ok then old(world).state.(scheduledPending := None) else old(world).state
    {
      var pending := world.state.scheduledPending.value;
      wrote := None;
      ok := EmitPending(pending, alone, disk);
      if !ok { return; }
      ghost var written := trace;
      Interfere(alone);
      wrote := Some(pending.intent);
      ghost var k :| |old(trace)| <= k < |written| && written[k] == Emit(pending);
      assert trace[k] == Emit(pending);
    }

    /** Goes on from the state as it is read now. */
    method ConsumeRead(ghost first: nat, wrote: Option<nat>, recorder: bool, alone: bool, disk: bool)
      returns (r: ConsumeOutcome, ghost own: Option<nat>)
      requires Valid() && first <= |trace| && ReadFrom(origin, trace, first, |trace|, wrote, recorder)
      requires wrote.Some? ==> HasReceipt(world.journal, Scheduled, wrote.value)
      requires !IsCancelled(world.state)
      modifies this
      ensures Valid() && old(trace) <= trace
      ensures r != CorruptIntent
      ensures r == ConsumedNow ==> own.Some?
      ensures own.Some? ==> first <= own.value < |trace| && Consumption(origin, trace, first, own.value, recorder)
      ensures alone ==> Served(old(world).state.(scheduledPending := None), recorder, disk, r)
      ensures alone && Takes(old(world).state.(scheduledPending := None), recorder, disk) ==>
                world.consumed == old(world).consumed + [old(world).state.intent.value]
      ensures alone && !Takes(old(world).state.(scheduledPending := None), recorder, disk) ==> world.consumed == old(world).consumed
    {
      own := None;
      var state, at := world.state, |trace|;
      if state.consumedPending.Some? {
        if !recorder { return Nothing, own; }
        var ok := EmitPending(state.consumedPending.value, alone, disk);
        return (if ok then Resumed else WriteFailed), own;
      }
      if !state.active { return Nothing, own; }
      if state.intent.None? {
        if state.epoch == 0 { return Nothing, own; }
        if state.consumedEpoch == state.epoch && state.consumedIntent.Some? { return Nothing, own; }
        return CorruptIntent, own;
      }
      r, own := ConsumeIntent(first, state.intent.value, state.epoch, wrote, recorder, alone, disk);
    }

    method ConsumeIntent(ghost first: nat, id: nat, epoch: nat, wrote: Option<nat>, recorder: bool, alone: bool, disk: bool)
      returns (r: ConsumeOutcome, ghost own: Option<nat>)
      requires Valid() && first <= |trace| && ReadFrom(origin, trace, first, |trace|, wrote, recorder)
      requires wrote.Some? ==> HasReceipt(world.journal, Scheduled, wrote.value)
      requires world.state.intent == Some(id) && world.state.epoch == epoch
      modifies this
      ensures Valid() && old(trace) <= trace
      ensures r != CorruptIntent
      ensures own.Some? && first <= own.value < |trace| && Consumption(origin, trace, first, own.value, recorder)
      ensures r == ConsumedNow || r == WriteFailed || r == Nothing
      ensures r == ConsumedNow ==> recorder ==> disk
      ensures alone && Consumable(old(world).state, id, epoch) ==>
                r == (if recorder && !disk then WriteFailed else ConsumedNow) && world.consumed == old(world).consumed + [id]
    {
      var at := |trace|;
      ghost var read := trace;
      Interfere(alone);
      assert trace[..at] == read;
      ReadFromLater(origin, read, trace, first, at, wrote, recorder);
      own := Some(|trace|);
      r := TakeAndWrite(first, id, epoch, wrote, recorder, at, alone, disk);
    }

    /** The consuming step, and then its receipt if there is a recorder. */
    method TakeAndWrite(ghost first: nat, id: nat, epoch: nat, wrote: Option<nat>, recorder: bool, at: nat, alone: bool, disk: bool)
      returns (r: ConsumeOutcome)
      requires Valid() && first <= at <= |trace| && ReadFrom(origin, trace, first, at, wrote, recorder)
      requires ReadOk(origin, trace, Consume(id, epoch, recorder, at, wrote))
      modifies this
      ensures Valid() && old(trace) <= trace && |old(trace)| < |trace| && Consumption(origin, trace, first, |old(trace)|, recorder)
      ensures r == if !Consumable(old(world).state, id, epoch) then Nothing
                   else if recorder && !disk then WriteFailed else ConsumedNow
      ensures alone && Consumable(old(world).state, id, epoch) ==> world.consumed == old(world).consumed + [id]
    {
      ghost var own := |trace|;
      var consumed := TakeConsumption(first, id, epoch, wrote, recorder, at);
      r := if consumed then ConsumedNow else Nothing;
      if consumed && recorder {
        r := WriteConsumed(ConsumedReceipt(id, epoch), first, own, recorder, alone, disk);
      }
    }

    method WriteConsumed(receipt: Receipt, ghost first: nat, ghost own: nat, recorder: bool, alone: bool, disk: bool)
      returns (r: ConsumeOutcome)
      requires Valid() && receipt in world.issued
      requires first <= own < |trace| && Consumption(origin, trace, first, own, recorder)
      modifies this
      ensures Valid() && old(trace) <= trace && Consumption(origin, trace, first, own, recorder)
      ensures r == if disk then ConsumedNow else WriteFailed
      ensures alone ==> world.consumed == old(world).consumed
    {
      ghost var taken := trace;
      var ok := EmitPending(receipt, alone, disk);
      ConsumptionLater(origin, taken, trace, first, own, recorder);
      r := if ok then ConsumedNow else WriteFailed;
    }

    /** The consuming step itself. */
    method TakeConsumption(ghost first: nat, id: nat, epoch: nat, wrote: Option<nat>, recorder: bool, at: nat) returns (consumed: bool)
      requires Valid() && first <= at <= |trace| && ReadFrom(origin, trace, first, at, wrote, recorder)
      requires ReadOk(origin, trace, Consume(id, epoch, recorder, at, wrote))
      modifies this
      ensures Valid() && trace == old(trace) + [Consume(id, epoch, recorder, at, wrote)]
      ensures consumed <==> Consumable(old(world).state, id, epoch)
      ensures consumed && recorder ==> ConsumedReceipt(id, epoch) in world.issued
      ensures consumed ==> world.consumed == old(world).consumed + [id]
      ensures Consumption(origin, trace, first, |old(trace)|, recorder)
    {
      var e := Consume(id, epoch, recorder, at, wrote);
      ghost var before := trace;
      GuardedOrNot(e);
      consumed := UpdateConsumed(id, epoch, recorder, at, wrote);
      assert trace[..|before|] == before;
      ReadFromLater(origin, before, trace, first, at, wrote, recorder);
    }

    lemma GuardedOrNot(e: Event)
      requires Valid() && e.Consume? && ReadOk(origin, trace, e)
      ensures GuardOk(origin, trace, e) ==> Clean(world, e)
    {
      if GuardOk(origin, trace, e) {
        GuardedIsClean(origin, trace, e);
      }
    }
  }
}
