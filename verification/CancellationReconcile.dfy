/**
 The cancellation reconciler: reads, a sweep over process groups and four locked updates, with steps
 of other processes between any two of them.  Every execution is a run of the machine of
 `CancellationRecovery`, so its run theorems hold of it.
 */
module CancellationReconcile {
  import opened Basics
  import opened CancellationRecovery

  datatype Outcome = Noop | StillPending | Done

  /** Cancellation recovery still has work to do. */
  predicate HasPending(s: State) {
    if s.ownershipKind then s.slot.Present? ==> !s.slot.intent.status.Completed?
    else s.slot.Present? && !s.slot.intent.status.Completed?
  }

  /** At some instant since step `from` the group was reported absent. */
  ghost predicate SeenAbsent(w: World, trace: seq<Event>, group: nat, from: nat) {
    exists k :: from <= k <= |trace| && group !in Run(w, trace[..k]).host.groups
  }

  lemma SeenLater(w: World, trace: seq<Event>, later: seq<Event>, group: nat, from: nat)
    requires SeenAbsent(w, trace, group, from) && trace <= later
    ensures SeenAbsent(w, later, group, from)
  {
    var k :| from <= k <= |trace| && group !in Run(w, trace[..k]).host.groups;
    assert later[..k] == trace[..k];
  }

  /** The intent is open and its next try is due. */
  predicate Due(w: World, now: int) {
    w.state.slot.Present? && !w.state.slot.intent.status.Completed? && w.state.slot.intent.notBefore <= now
  }

  /** The open intent names everything in the ledgers. */
  predicate Completable(w: World, id: nat) {
    && ValidSlot(w.state.slot) && Open(w.state, id) && LedgerValid(w.state)
    && ToSet(Children(w.state)) <= ToSet(w.state.slot.intent.identities)
  }

  /** A scan brings in what the ledgers hold and makes the session neither quiet nor busy. */
  lemma ScanKeepsQuiet(w: World, now: int, at: nat)
    requires ValidSlot(w.state.slot) && w.state.slot.Present? && !w.state.slot.intent.status.Completed? && LedgerValid(w.state)
    ensures var i := w.state.slot.intent;
            var v := Apply(w, MergeScan(i.id, MergeIds(i.identities, Children(w.state)), now, at));
            && v.state == w.state.(slot := v.state.slot) && v.state.slot.Present? && v.state.slot.intent.status.Pending?
            && (Quiet(v) <==> Quiet(w)) && ToSet(Children(v.state)) <= ToSet(v.state.slot.intent.identities)
  {
    var i, children := w.state.slot.intent, Children(w.state);
    MergeIdsFacts(i.identities, children);
    var merged := MergeIds(i.identities, children);
    forall x ensures x in merged <==> x in i.identities || x in children {
      MergeIdsMembers(i.identities, children, x);
    }
  }

  /** An intent that names everything completes in two steps exactly when the session is quiet. */
  lemma CompletesIff(w: World, id: nat, now: int)
    requires Completable(w, id)
    ensures var u := Apply(w, Quiesce(id));
            && u.state.slot.Present? && u.state.slot.intent.id == id
            && (Quiet(w) <==> u.state.slot.intent.status.Quiescent? && IsCompleted(Apply(u, FinalClear(id, now))))
  {
    var i, children := w.state.slot.intent, Children(w.state);
    var u := Apply(w, Quiesce(id));
    MergeIdsFacts(i.identities, children);
    forall c | c in children ensures c in i.identities {
      assert c in ToSet(children);
    }
    if u.state.slot.intent.status.Quiescent? && IsCompleted(Apply(u, FinalClear(id, now))) {
      StepKeepsValid(w, Quiesce(id));
      CompletionIsSafe(u, FinalClear(id, now));
    }
  }

  /** A signal to a process group, with the place in the run where it was sent. */
  datatype Signal = Signal(group: nat, at: nat)

  /** The group was alive, and one of the identities known then matched its process exactly. */
  ghost predicate Justified(w: World, trace: seq<Event>, s: Signal) {
    s.at <= |trace|
    && var v := Run(w, trace[..s.at]);
       s.group in v.host.groups && exists x :: x in v.host.matched && x.pgid == s.group
  }

  lemma JustifiedLater(w: World, trace: seq<Event>, later: seq<Event>, s: Signal)
    requires Justified(w, trace, s) && trace <= later
    ensures Justified(w, later, s)
  {
    assert later[..s.at] == trace[..s.at];
  }

  class Session {
    var state: State
    var host: Host
    /** The signals sent so far. */
    var signals: seq<Signal>
    const origin: World
    var trace: seq<Event>

    constructor (w: World)
      requires ValidSlot(w.state.slot)
      ensures Valid() && origin == w && trace == [] && signals == []
    {
      state, host, origin, trace, signals := w.state, w.host, w, [], [];
    }

    ghost function Now(): World
      reads this
    {
      World(state, host)
    }

    /** The state is what the recorded steps make of the original state. */
    ghost predicate Valid()
      reads this
    {
      && ValidSlot(origin.state.slot) && AllWellFormed(trace) && AllRead(origin, trace)
      && Now() == Run(origin, trace) && ValidSlot(state.slot)
      && forall s :: s in signals ==> Justified(origin, trace, s)
    }

    method Record(e: Event)
      requires ValidSlot(origin.state.slot) && AllWellFormed(trace) && AllRead(origin, trace)
      requires WellFormed(e) && ReadOk(origin, trace, e)
      requires ValidSlot(Run(origin, trace).state.slot) && Now() == Apply(Run(origin, trace), e)
      requires forall s :: s in signals ==> Justified(origin, trace, s)
      modifies this`trace
      ensures Valid() && trace == old(trace) + [e]
    {
      forall s | s in signals ensures Justified(origin, trace + [e], s) {
        JustifiedLater(origin, trace, trace + [e], s);
      }
      StepKeepsValid(Run(origin, trace), e);
      RunSnoc(origin, trace, e);
      ReadSnoc(origin, trace, e);
      trace := trace + [e];
    }

    /** Other processes, and the host, take any number of steps, unless the reconciler is left alone. */
    method Interfere(alone: bool)
      requires Valid()
      modifies this`state, this`host, this`trace
      ensures Valid() && old(trace) <= trace
      ensures old(state.slot.Present?) ==> state.slot.Present?
      ensures alone ==> Now() == old(Now()) && trace == old(trace)
    {
      if alone { return; }
      var n: nat :| 0 <= n;
      for i := 0 to n
        invariant Valid() && old(trace) <= trace
        invariant old(state.slot.Present?) ==> state.slot.Present?
      {
        var e: Event := *;
        if WellFormed(e) && ReadOk(origin, trace, e) {
          StepKeepsValid(Now(), e);
          var w := Apply(World(state, host), e);
          state, host := w.state, w.host;
          Record(e);
        }
      }
    }

    // -------------------------------------------------------------- locked updates

    method UpdateCorrupt(kind: bool, r: Reason)
      requires Valid()
      modifies this`state, this`trace
      ensures Valid() && trace == old(trace) + [MarkCorrupt(kind, r)]
    {
      state := state.(required := true, reason := Some(r));
      if kind {
        state := state.(ownershipKind := true);
      }
      Record(MarkCorrupt(kind, r));
    }

    method UpdateMerged(id: nat, merged: seq<Identity>, now: int, at: nat)
      requires Valid() && Distinct(merged) && ReadOk(origin, trace, MergeScan(id, merged, now, at))
      modifies this`state, this`trace
      ensures Valid() && trace == old(trace) + [MergeScan(id, merged, now, at)] && Now() == Apply(old(Now()), MergeScan(id, merged, now, at))
      ensures old(state.slot.Present?) ==> state.slot.Present?
    {
      if state.slot.Present? && state.slot.intent.id == id && !state.slot.intent.status.Completed? {
        var exact := state.slot.intent;
        exact := exact.(identities := merged, status := Pending, attempt := 0);
        exact := exact.(notBefore := now, error := None);
        state := state.(slot := Present(exact));
      }
      Record(MergeScan(id, merged, now, at));
    }

    method UpdateFailed(id: nat, r: Reason, now: int)
      requires Valid()
      modifies this`state, this`trace
      ensures Valid() && trace == old(trace) + [FailAttempt(id, r, now)]
    {
      if state.slot.Present? && state.slot.intent.id == id && !state.slot.intent.status.Completed? {
        var exact := state.slot.intent;
        var attempt, epoch := exact.attempt + 1, exact.epoch;
        if attempt % 5 == 0 {
          epoch := epoch + 1;
        }
        exact := exact.(status := Pending, attempt := attempt, epoch := epoch,
                        notBefore := now + RetryDelay(epoch), error := Some(r));
        state := state.(slot := Present(exact), required := true, ownershipKind := true, reason := Some(r));
      }
      assert state == Failed(old(state), id, r, now);
      Record(FailAttempt(id, r, now));
    }

    /** Whether every group of the identities is absent, asked group by group. */
    method GroupsAbsent(identities: seq<Identity>) returns (absent: bool)
      ensures absent <==> AllAbsent(host, identities)
    {
      absent := true;
      for i := 0 to |identities|
        invariant absent <==> AllAbsent(host, identities[..i])
      {
        assert identities[..i + 1] == identities[..i] + [identities[i]];
        if identities[i].pgid in host.groups {
          absent := false;
        }
      }
      assert identities[..|identities|] == identities;
    }

    /** Whether an identity of the ledgers is missing from `known`. */
    method Unknown(known: seq<Identity>) returns (found: bool)
      ensures found <==> exists c :: c in Children(state) && c !in known
    {
      var latest := Children(state);
      found := false;
      for i := 0 to |latest|
        invariant found <==> exists c :: c in latest[..i] && c !in known
      {
        assert latest[..i + 1] == latest[..i] + [latest[i]];
        if latest[i] !in known {
          found := true;
        }
      }
      assert latest[..|latest|] == latest;
    }

    method UpdateQuiescent(id: nat)
      requires Valid()
      modifies this`state, this`trace
      ensures Valid() && trace == old(trace) + [Quiesce(id)] && Now() == Apply(old(Now()), Quiesce(id))
    {
      if state.slot.Present? && state.slot.intent.id == id && state.slot.intent.status.Pending? {
        var exact := state.slot.intent;
        var unknown := Unknown(exact.identities);
        var absent := GroupsAbsent(exact.identities);
        if !unknown && absent {
          state := state.(slot := Present(exact.(status := Quiescent, error := None)));
        }
      }
      Record(Quiesce(id));
    }

    method UpdateCleared(id: nat, now: int)
      requires Valid()
      modifies this`state, this`trace
      ensures Valid() && trace == old(trace) + [FinalClear(id, now)] && Now() == Apply(old(Now()), FinalClear(id, now))
    {
      if state.slot.Present? && state.slot.intent.id == id && state.slot.intent.status.Quiescent? {
        var exact := state.slot.intent;
        if !LedgerValid(state) {
          exact := exact.(status := Pending, notBefore := now, error := Some(LedgerCorrupt));
          state := state.(slot := Present(exact), required := true, ownershipKind := true, reason := exact.error);
        } else {
          var known := MergeIds(exact.identities, Children(state));
          var absent := GroupsAbsent(known);
          if ControllerOwns(World(state, host)) || |known| != |exact.identities| || !absent {
            exact := exact.(identities := known, status := Pending, notBefore := now, error := Some(OwnershipChanged));
            state := state.(slot := Present(exact), required := true, ownershipKind := true, reason := exact.error);
          } else {
            state := state.(refinement := [], active := [], child := None, controller := None, controllerPid := None);
            state := state.(required := false, ownershipKind := false, reason := None);
            state := state.(slot := Present(exact.(status := Completed)));
          }
        }
      }
      Record(FinalClear(id, now));
    }

    // -------------------------------------------------------------- the reconciler

    /** Signals a live group, through an identity that matches exactly. */
    method SendSignal(group: nat)
      requires Valid() && group in host.groups && exists x :: x in host.matched && x.pgid == group
      modifies this`signals
      ensures Valid() && signals == old(signals) + [Signal(group, |trace|)]
    {
      assert trace[..|trace|] == trace;
      signals := signals + [Signal(group, |trace|)];
    }

    /** Visits the groups in turn; a live one is signalled only through an identity that matches exactly,
        and has to be absent afterwards. */
    method Sweep(identities: seq<Identity>, alone: bool) returns (error: Option<Reason>)
      requires Valid()
      modifies this
      ensures Valid() && old(trace) <= trace
      ensures old(state.slot.Present?) ==> state.slot.Present?
      ensures error.None? ==> forall i :: i in identities ==> SeenAbsent(origin, trace, i.pgid, |old(trace)|)
      ensures alone ==> Now() == old(Now()) && (error.None? <==> AllAbsent(host, identities))
      ensures old(signals) <= signals
    {
      error := None;
      for i := 0 to |identities|
        invariant Valid() && old(trace) <= trace && old(signals) <= signals
        invariant old(state.slot.Present?) ==> state.slot.Present?
        invariant error.None?
        invariant alone ==> Now() == old(Now()) && forall j :: 0 <= j < i ==> identities[j].pgid !in host.groups
        invariant forall j :: 0 <= j < i ==> SeenAbsent(origin, trace, identities[j].pgid, |old(trace)|)
      {
        ghost var before := trace;
        error := VisitGroup(identities[i].pgid, identities, alone);
        if error.Some? { return; }
        forall j | 0 <= j < i ensures SeenAbsent(origin, trace, identities[j].pgid, |old(trace)|) {
          SeenLater(origin, before, trace, identities[j].pgid, |old(trace)|);
        }
      }
    }

    /** One group: nothing to do when it is absent; a live one is signalled if one of the identities matches, and
        has to be absent then. */
    method VisitGroup(group: nat, identities: seq<Identity>, alone: bool) returns (error: Option<Reason>)
      requires Valid()
      modifies this`state, this`host, this`trace, this`signals
      ensures Valid() && old(trace) <= trace && old(signals) <= signals
      ensures old(state.slot.Present?) ==> state.slot.Present?
      ensures error.None? || error == Some(GroupLive(group))
      ensures error.None? ==> SeenAbsent(origin, trace, group, |old(trace)|)
      ensures alone ==> Now() == old(Now()) && (error.None? <==> group !in host.groups)
      ensures alone && group in host.groups ==>
                signals == old(signals) + if exists x :: x in identities && x.pgid == group && x in host.matched
                                          then [Signal(group, |old(trace)|)] else []
    {
      Interfere(alone);
      if group in host.groups {
        if !(exists x :: x in identities && x.pgid == group && x in host.matched) {
          return Some(GroupLive(group));
        }
        SendSignal(group);
        Interfere(alone);
        if group in host.groups {
          return Some(GroupLive(group));
        }
      }
      assert trace[..|trace|] == trace;
      assert SeenAbsent(origin, trace, group, |old(trace)|);
      error := None;
    }

    /** What stands in the way: the controller of the state that was read, or a group that stays alive. */
    method FindOwner(read: State, identities: seq<Identity>, alone: bool) returns (error: Option<Reason>)
      requires Valid()
      modifies this
      ensures Valid() && old(trace) <= trace
      ensures old(state.slot.Present?) ==> state.slot.Present?
      ensures alone ==> Now() == old(Now()) && (error.None? <==> !ControllerOwns(World(read, host)) && AllAbsent(host, identities))
    {
      Interfere(alone);
      if ControllerOwns(World(read, host)) {
        return Some(ControllerLive);
      }
      error := Sweep(identities, alone);
    }

    /** Brings the identities of the ledgers that were read into the intent that was read. */
    method ScanLedgers(now: int, alone: bool) returns (read: State)
      requires Valid() && state.slot.Present? && !state.slot.intent.status.Completed? && LedgerValid(state)
      modifies this
      ensures Valid() && old(trace) <= trace && read == state && state.slot.Present?
      ensures alone ==>
                && (Quiet(Now()) <==> Quiet(old(Now()))) && LedgerValid(state) && !state.slot.intent.status.Completed?
                && ToSet(Children(state)) <= ToSet(state.slot.intent.identities)
    {
      var intent, at := state.slot.intent, |trace|;
      ghost var start, before := trace, Now();
      var merged := MergeIds(intent.identities, Children(state));
      MergeIdsFacts(intent.identities, Children(state));
      if |merged| != |intent.identities| {
        ScanKeepsQuiet(before, now, at);
        Interfere(alone);
        assert trace[..at] == start;
        UpdateMerged(intent.id, merged, now, at);
      }
      read := state;
    }

    /** The reconciler.  Left alone on a host that does not change, it completes the intent exactly when it
        is due and the session is quiet. */
    method Reconcile(now: int, alone: bool) returns (r: Outcome)
      requires Valid()
      modifies this
      ensures Valid() && old(trace) <= trace
      ensures r.Noop? ==> !HasPending(state)
      ensures r.Done? ==> IsCompleted(Now())
      ensures r.Done? && !IsCompleted(origin) ==> exists k: nat :: k < |trace| && ClearedAt(origin, trace, k)
      ensures alone ==> (r.Done? <==> Due(old(Now()), now) && Quiet(old(Now())))
      ensures alone ==> (r.Noop? <==> !HasPending(old(state)))
    {
      Interfere(alone);
      if !state.slot.Present? {
        if !state.ownershipKind { return Noop; }
        Interfere(alone);
        UpdateCorrupt(false, IntentCorrupt);
        return StillPending;
      }
      if state.slot.intent.status.Completed? { return Noop; }
      if state.slot.intent.notBefore > now { return StillPending; }
      if !LedgerValid(state) {
        Interfere(alone);
        UpdateCorrupt(true, LedgerCorrupt);
        return StillPending;
      }
      var read := ScanLedgers(now, alone);
      r := Settle(read, now, alone);
    }

    /** Looks for owners of what was read, and completes the intent when there is none. */
    method Settle(read: State, now: int, alone: bool) returns (r: Outcome)
      requires Valid() && read.slot.Present?
      modifies this
      ensures Valid() && old(trace) <= trace && !r.Noop?
      ensures r.Done? ==> IsCompleted(Now())
      ensures r.Done? && !IsCompleted(origin) ==> exists k: nat :: k < |trace| && ClearedAt(origin, trace, k)
      ensures alone && read == old(state) && LedgerValid(read) && !read.slot.intent.status.Completed?
              && ToSet(Children(read)) <= ToSet(read.slot.intent.identities) ==>
                (r.Done? <==> Quiet(old(Now())))
    {
      var intent := read.slot.intent;
      var error := FindOwner(read, intent.identities, alone);
      Interfere(alone);
      if error.Some? {
        UpdateFailed(intent.id, error.value, now);
        return StillPending;
      }
      r := Complete(intent.id, now, alone);
    }

    /** Nothing was left: the intent becomes quiescent, and completes if nothing changed meanwhile. */
    method Complete(id: nat, now: int, alone: bool) returns (r: Outcome)
      requires Valid()
      modifies this
      ensures Valid() && old(trace) <= trace && !r.Noop?
      ensures r.Done? ==> IsCompleted(Now())
      ensures r.Done? && !IsCompleted(origin) ==> exists k: nat :: k < |trace| && ClearedAt(origin, trace, k)
      ensures alone && Completable(old(Now()), id) ==> (r.Done? <==> Quiet(old(Now())))
    {
      ghost var before := Now();
      UpdateQuiescent(id);
      if alone && Completable(before, id) {
        CompletesIff(before, id, now);
      }
      Interfere(alone);
      if !state.slot.Present? || !state.slot.intent.status.Quiescent? {
        return StillPending;
      }
      var exact := state.slot.intent.id;
      Interfere(alone);
      UpdateCleared(exact, now);
      if state.slot.Present? && state.slot.intent.status.Completed? {
        if !IsCompleted(origin) {
          CompletedRunWasQuiet(origin, trace);
        }
        return Done;
      }
      return StillPending;
    }
  }
}
