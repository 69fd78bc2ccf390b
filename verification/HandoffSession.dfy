/**
 The processes that fence, transfer, release and reconcile a runtime handoff.  Each method makes the
 locked updates of its namesake; reconciling reads first and updates later, with steps of other
 processes in between unless it runs alone.
 */
module HandoffSession {
  import opened Basics
  import opened OwnerHandoff

  datatype Outcome = Noop | CompletedHandoff | RolledBackHandoff

  datatype Finalization = Finalized | Contended | Refused

  /** The transaction a reconciler goes on with: valid, of a session that is neither cancelled nor blocked, and
      due; or given up by an older version after its retries. */
  predicate Ready(s: State, session: nat, now: int) {
    && !s.cancelled && s.transaction.Some? && ValidTransaction(s.transaction.value, session)
    && var t := s.transaction.value;
       || (t.status.Fenced? && s.problem.None? && (t.notBefore.Some? ==> t.notBefore.value <= now))
       || (t.status.Failed? && s.problem == Some(RetriesExhausted))
  }

  class Session {
    const session: nat
    var state: State
    /** The append-only handoff events: accepted runtimes and aborted requests. */
    var accepted: map<nat, nat>
    var aborted: set<nat>
    const origin: State
    var trace: seq<Event>

    constructor (session: nat, s: State)
      ensures Valid() && this.session == session && state == s && trace == []
    {
      this.session := session;
      state, origin, trace, accepted, aborted := s, s, [], map[], {};
    }

    ghost predicate Valid()
      reads this
    {
      state == Run(origin, session, trace) && AllRead(origin, session, trace)
    }

    method Record(e: Event)
      requires AllRead(origin, session, trace) && WellFormed(e, session) && ReadOk(origin, session, trace, e)
      requires state == Apply(Run(origin, session, trace), session, e)
      modifies this`trace
      ensures Valid() && trace == old(trace) + [e]
    {
      RunSnoc(origin, session, trace, e);
      trace := trace + [e];
    }

    /** Other processes take any number of steps, and the pipeline records more events. */
    method Interfere(alone: bool)
      requires Valid()
      modifies this
      ensures Valid() && old(trace) <= trace
      ensures alone ==> state == old(state) && accepted == old(accepted) && aborted == old(aborted)
    {
      if alone { return; }
      var n: nat :| 0 <= n;
      for i := 0 to n
        invariant Valid() && old(trace) <= trace
      {
        var e: Event := *;
        if WellFormed(e, session) && ReadOk(origin, session, trace, e) {
          state := Apply(state, session, e);
          Record(e);
        }
        var request: nat, runtime: nat := *, *;
        if request !in accepted && request !in aborted {
          if * { accepted := accepted[request := runtime]; } else { aborted := aborted + {request}; }
        }
      }
    }

    // -------------------------------------------------------------- single updates

    method FenceHandoff(request: nat, target: Owner, runtime: nat, now: int) returns (refused: bool)
      requires Valid() && Publishable(target, session)
      modifies this`state, this`trace
      ensures Valid() && trace == old(trace) + [Fence(request, target, runtime, now)]
      ensures Inv(old(state), session) ==> Inv(state, session) && state.owner == old(state).owner
      ensures refused ==> state == old(state) && state.transaction.Some? && state.transaction.value.request != request
      ensures !refused && old(state).owner.spec.Some? && old(state).bound ==> FencedFor(state, request)
    {
      refused := false;
      if state.owner.spec.Some? && state.bound {
        if state.transaction.Some? && state.transaction.value.status.Fenced? {
          refused := state.transaction.value.request != request;
        } else {
          state := state.(transaction := Some(Transaction(request, Fenced, now + 60000, state.owner, target, runtime,
                                                          0, 1, Some(StrategyFor(1)), None)));
          state := state.(suspended := true, suspendedFor := Some(request), registered := None);
        }
      }
      Record(Fence(request, target, runtime, now));
    }

    method TransferOwner(captured: Owner) returns (owner: Option<Owner>)
      requires Valid() && Publishable(captured, session)
      modifies this`state, this`trace
      ensures Valid() && trace == old(trace) + [Transfer(captured)]
      ensures Inv(old(state), session) ==> Inv(state, session)
      ensures owner.Some? ==> state.owner == owner.value && !state.suspended && !state.cancelled
      ensures owner.None? ==> state.owner == old(state).owner
    {
      owner := None;
      if !state.cancelled && state.problem.None? && state.owner.spec.Some? && state.bound {
        match state.transaction {
          case None =>
            owner := Some(captured);
            state := state.(owner := captured, suspended := false, suspendedFor := None, registered := None);
          case Some(t) =>
            if !ValidTransaction(t, session) {
              state := Rejected(state, t);
            } else if t.status.Fenced? {
              owner := Some(t.target);
              state := state.(owner := t.target, suspended := false, suspendedFor := None);
              state := state.(transaction := Some(t.(status := Completed)), registered := None);
            }
        }
      }
      Record(Transfer(captured));
    }

    method ReleaseFence(request: nat)
      requires Valid()
      modifies this`state, this`trace
      ensures Valid() && trace == old(trace) + [Release(request)]
      ensures Inv(old(state), session) ==> Inv(state, session) && state.owner == old(state).owner
      ensures Inv(old(state), session) ==> !FencedFor(state, request)
    {
      if state.suspendedFor == Some(request) {
        state := state.(suspended := false, suspendedFor := None);
        if FencedFor(state, request) {
          state := state.(transaction := Some(state.transaction.value.(status := RolledBack)));
        }
      }
      Record(Release(request));
    }

    /** A supervisor publishes itself as owner under the specification that is there, or the first one. */
    method RegisterSupervisor(spec: Spec, pid: int, identity: Identity) returns (refused: bool)
      requires Valid() && Publishable(Owner(Some(spec), Some(pid), Some(identity)), session)
      modifies this`state, this`trace
      ensures Valid() && trace == old(trace) + [Register(spec, pid, identity)]
      ensures refused <==> old(state).owner.spec.Some? && old(state).owner.spec.value != spec
      ensures refused || state.cancelled ==> state.owner.pid == old(state).owner.pid && state.owner.identity == old(state).owner.identity
      ensures !refused && !state.cancelled ==> state.owner == Owner(Some(spec), Some(pid), Some(identity))
      ensures Inv(old(state), session) ==> Inv(state, session) && state.transaction == old(state).transaction
    {
      refused := state.owner.spec.Some? && state.owner.spec.value != spec;
      if !refused {
        state := state.(owner := state.owner.(spec := Some(spec)));
        if !state.cancelled {
          state := state.(owner := state.owner.(pid := Some(pid), identity := Some(identity)), registered := Some(Supervisor(pid, identity)));
        }
      }
      Record(Register(spec, pid, identity));
    }

    method UpdateMismatch(request: nat, at: nat)
      requires Valid() && ReadOk(origin, session, trace, MismatchFound(request, at))
      modifies this`state, this`trace
      ensures Valid() && trace == old(trace) + [MismatchFound(request, at)]
      ensures state.owner == old(state).owner
      ensures Inv(old(state), session) && FencedFor(old(state), request) ==> Inv(state, session)
    {
      if !state.cancelled {
        if FencedFor(state, request) && !ValidTransaction(state.transaction.value, session) {
          state := Rejected(state, state.transaction.value);
        } else {
          if FencedFor(state, request) {
            state := state.(transaction := Some(state.transaction.value.(status := Failed)));
          }
          state := state.(suspended := false, suspendedFor := None, problem := Some(RuntimeMismatch));
        }
      }
      Record(MismatchFound(request, at));
    }

    /** One more attempt, or a new epoch when the attempts of this one are used up. */
    method NextTry(t: Transaction, now: int) returns (next: Transaction)
      ensures next == RetryTransaction(t, now)
    {
      var attempt := t.attempt + 1;
      if attempt >= ATTEMPTS_PER_EPOCH {
        var epoch := t.epoch + 1;
        next := t.(attempt := 0, epoch := epoch, strategy := Some(StrategyFor(epoch)), notBefore := Some(now + EpochDelay(epoch)));
      } else {
        var strategy := if t.strategy.Some? then t.strategy else Some(StrategyFor(t.epoch));
        next := t.(attempt := attempt, strategy := strategy, notBefore := None);
      }
    }

    method UpdateFinalizeFailed(request: nat, recoverable: bool, now: int)
      requires Valid()
      modifies this`state, this`trace
      ensures Valid() && trace == old(trace) + [FinalizeFailed(request, recoverable, now)]
      ensures state.owner == old(state).owner
      ensures Inv(old(state), session) ==> Inv(state, session)
    {
      if !state.cancelled && FencedFor(state, request) {
        var t := state.transaction.value;
        if !ValidTransaction(t, session) {
          state := Rejected(state, t);
        } else if !recoverable {
          state := state.(transaction := Some(t.(status := Failed)), suspended := false, suspendedFor := None);
          state := state.(problem := Some(IntegrityFailure));
        } else {
          t := NextTry(t, now);
          state := state.(transaction := Some(t), suspended := true, suspendedFor := Some(request));
        }
      }
      assert state == FinalizeFailedState(old(state), session, request, recoverable, now);
      Record(FinalizeFailed(request, recoverable, now));
    }

    /** Moves the owner to the target or back to the source of a still fenced, valid transaction. */
    method UpdateSettled(request: nat, forward: bool) returns (applied: bool)
      requires Valid()
      modifies this`state, this`trace
      ensures Valid() && trace == old(trace) + [if forward then ToTarget(request) else ToSource(request)]
      ensures applied <==> !old(state).cancelled && FencedFor(old(state), request) && ValidTransaction(old(state).transaction.value, session)
      ensures applied ==>
                var t := old(state).transaction.value;
                && state.owner == (if forward then t.target else t.source) && !state.suspended
                && state.transaction == Some(t.(status := if forward then Completed else RolledBack)) && !state.cancelled
      ensures !applied ==> state.owner == old(state).owner
      ensures Inv(old(state), session) ==> Inv(state, session)
    {
      applied := false;
      if !state.cancelled && FencedFor(state, request) {
        var t := state.transaction.value;
        if !ValidTransaction(t, session) {
          state := Rejected(state, t);
        } else {
          state := state.(owner := if forward then t.target else t.source, suspended := false, suspendedFor := None);
          state := state.(transaction := Some(t.(status := if forward then Completed else RolledBack)), registered := None);
          applied := true;
        }
      }
      Record(if forward then ToTarget(request) else ToSource(request));
    }

    // -------------------------------------------------------------- reconciling

    /** The transaction to go on with, if there is one. */
    method ReadFenced(now: int, alone: bool) returns (found: Option<Transaction>)
      requires Valid()
      modifies this
      ensures Valid() && old(trace) <= trace
      ensures alone && Inv(old(state), session) ==> Inv(state, session)
      ensures alone ==> state.owner == old(state).owner && accepted == old(accepted) && aborted == old(aborted)
      ensures found.Some? ==> found.value.status.Fenced? && found == state.transaction
      ensures alone && Inv(old(state), session) ==> (found.Some? <==> Ready(old(state), session, now))
      ensures alone && Inv(old(state), session) && found.None? ==> state == old(state)
      ensures alone && found.Some? ==>
                && !state.cancelled && ValidTransaction(found.value, session) && state.problem.None?
                && old(state).transaction.Some?
                && found.value.request == old(state).transaction.value.request
                && found.value.runtime == old(state).transaction.value.runtime
                && found.value.deadline == old(state).transaction.value.deadline
    {
      Interfere(alone);
      var read, at := state, |trace|;
      ghost var start := trace;
      if read.transaction.None? || read.cancelled { return None; }
      var t := read.transaction.value;
      var legacy := t.status.Failed? && read.problem == Some(RetriesExhausted);
      if !t.status.Fenced? && !legacy { return None; }
      if !ValidTransaction(t, session) {
        Interfere(alone);
        state := RejectState(state, t.request);
        assert trace[..at] == start;
        Record(RejectInvalid(t.request, at));
        return None;
      }
      if legacy {
        Interfere(alone);
        state := LegacyResumed(state, t.request, now);
        Record(ResumeLegacy(t.request, now));
        read := state;
        if read.transaction.None? { return None; }
        t := read.transaction.value;
      }
      if !t.status.Fenced? || read.problem.Some? { return None; }
      if t.notBefore.Some? && t.notBefore.value > now { return None; }
      return Some(t);
    }

    /** Whether the request was accepted or aborted; an overdue one is aborted on the way if it `expires`. */
    method Outcomes(t: Transaction, now: int, expires: bool) returns (runtime: Option<nat>, abort: bool)
      modifies this`aborted
      ensures runtime == if t.request in accepted then Some(accepted[t.request]) else None
      ensures abort <==> t.request in aborted
      ensures aborted == if t.request !in accepted && now >= t.deadline && expires then old(aborted) + {t.request} else old(aborted)
    {
      if t.request !in accepted && t.request !in aborted && now >= t.deadline {
        if expires { aborted := aborted + {t.request}; }
      }
      runtime := if t.request in accepted then Some(accepted[t.request]) else None;
      abort := t.request in aborted;
    }

    /** Reconciles the transaction.  `f` is how its finalization ends if it comes to that, and `expires` whether
        the pipeline lets an overdue request be aborted. */
    method Reconcile(now: int, alone: bool, f: Finalization, expires: bool) returns (r: Outcome)
      requires Valid()
      modifies this
      ensures Valid() && old(trace) <= trace
      ensures r.CompletedHandoff? ==> state.transaction.Some? && state.transaction.value.status.Completed?
                                      && state.owner == state.transaction.value.target && !state.cancelled
      ensures r.RolledBackHandoff? ==> state.transaction.Some? && state.transaction.value.status.RolledBack?
                                       && state.owner == state.transaction.value.source && !state.cancelled
      ensures alone && Inv(old(state), session) ==> Inv(state, session)
      ensures alone && r.Noop? ==> state.owner == old(state).owner
      ensures alone && Inv(old(state), session) && !Ready(old(state), session, now) ==> r.Noop? && state == old(state)
      ensures alone && Inv(old(state), session) && Ready(old(state), session, now) ==>
                var t := old(state).transaction.value;
                var agreed := t.request in old(accepted) && old(accepted)[t.request] == t.runtime;
                var disagreed := t.request in old(accepted) && old(accepted)[t.request] != t.runtime;
                && (r.CompletedHandoff? <==> agreed && f.Finalized?)
                && (r.RolledBackHandoff? <==> t.request !in old(accepted) && (t.request in old(aborted) || (now >= t.deadline && expires)))
                && (state.problem == Some(RuntimeMismatch) <==> disagreed)
                && (state.problem == Some(IntegrityFailure) <==> agreed && f.Refused?)
    {
      var found := ReadFenced(now, alone);
      if found.None? { return Noop; }
      var t, at := found.value, |trace|;
      ghost var read := trace;
      var runtime, abort := Outcomes(t, now, expires);
      Interfere(alone);
      assert trace[..at] == read;
      r := Act(t, runtime, abort, now, at, f);
    }

    /** Acts on the transaction that was read, whatever has become of it. */
    method Act(t: Transaction, runtime: Option<nat>, abort: bool, now: int, at: nat, f: Finalization) returns (r: Outcome)
      requires Valid() && ReadOk(origin, session, trace, MismatchFound(t.request, at))
      modifies this`state, this`trace
      ensures Valid() && old(trace) <= trace
      ensures r.CompletedHandoff? ==> state.transaction.Some? && state.transaction.value.status.Completed?
                                      && state.owner == state.transaction.value.target && !state.cancelled
      ensures r.RolledBackHandoff? ==> state.transaction.Some? && state.transaction.value.status.RolledBack?
                                       && state.owner == state.transaction.value.source && !state.cancelled
      ensures old(state).transaction == Some(t) && t.status.Fenced? ==>
                && (Inv(old(state), session) ==> Inv(state, session))
                && (r.CompletedHandoff? ==> state.transaction.value == t.(status := Completed))
                && (r.RolledBackHandoff? ==> state.transaction.value == t.(status := RolledBack))
      ensures old(state).transaction == Some(t) && t.status.Fenced? && ValidTransaction(t, session) && !old(state).cancelled && old(state).problem.None? ==>
                && (r.CompletedHandoff? <==> runtime == Some(t.runtime) && f.Finalized?)
                && (r.RolledBackHandoff? <==> runtime.None? && abort)
                && (state.problem == Some(RuntimeMismatch) <==> runtime.Some? && runtime != Some(t.runtime))
                && (state.problem == Some(IntegrityFailure) <==> runtime == Some(t.runtime) && f.Refused?)
      ensures r.Noop? ==> state.owner == old(state).owner
    {
      if runtime.Some? {
        if runtime.value != t.runtime {
          UpdateMismatch(t.request, at);
          return Noop;
        }
        if !f.Finalized? {
          UpdateFinalizeFailed(t.request, f.Contended?, now);
          return Noop;
        }
        var applied := UpdateSettled(t.request, true);
        return if applied then CompletedHandoff else Noop;
      }
      if abort {
        var applied := UpdateSettled(t.request, false);
        return if applied then RolledBackHandoff else Noop;
      }
      return Noop;
    }
  }
}
