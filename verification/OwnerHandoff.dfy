/**
 Runtime handoff of the autonomous owner: fencing, transferring, releasing and reconciling one
 transaction.  Every locked update is one atomic step on the persisted state, with the request id its
 caller read before.
 */
module OwnerHandoff {
  import opened Basics

  datatype Identity = Identity(pid: int, start: int)

  /** A launch specification, bound to its session directory. */
  datatype Spec = Spec(session: nat, runner: nat)

  /** Who owns the session: specification, supervisor pid and supervisor identity. */
  datatype Owner = Owner(spec: Option<Spec>, pid: Option<int>, identity: Option<Identity>)

  datatype Status = Fenced | Completed | RolledBack | Failed

  datatype Strategy = ImmediateRetry | QuiescenceBackoff | ExtendedBackoff

  datatype Problem = TransactionInvalid | RuntimeMismatch | IntegrityFailure | RetriesExhausted | Unrelated

  datatype Transaction = Transaction(
    request: nat, status: Status, deadline: int, source: Owner, target: Owner, runtime: nat,
    attempt: int, epoch: int, strategy: Option<Strategy>, notBefore: Option<int>)

  /** A supervisor as it registers itself. */
  datatype Supervisor = Supervisor(pid: int, identity: Identity)

  /** `registered` is the last supervisor that registered itself since the owner was handed over or fenced. */
  datatype State = State(
    owner: Owner, bound: bool, cancelled: bool, transaction: Option<Transaction>,
    suspended: bool, suspendedFor: Option<nat>, problem: Option<Problem>, registered: Option<Supervisor>)

  const ATTEMPTS_PER_EPOCH := 5

  function StrategyFor(epoch: int): Strategy {
    if epoch <= 1 then ImmediateRetry else if epoch == 2 then QuiescenceBackoff else ExtendedBackoff
  }

  function EpochDelay(epoch: int): int {
    Min(30000, 250 * Pow2(Min(Max(0, epoch - 2), 7)))
  }

  // ---------------------------------------------------------------- validity

  /** Pid and identity belong together; a supervisor may be unknown, but not half known. */
  predicate Coherent(o: Owner) {
    && (o.pid.Some? ==> o.pid.value > 0)
    && (o.identity.Some? ==> o.pid.Some? && o.identity.value.pid == o.pid.value)
  }

  predicate ValidTransaction(t: Transaction, session: nat) {
    && t.source.spec.Some? && t.source.spec.value.session == session
    && t.target.spec.Some? && t.target.spec.value.session == session
    && Coherent(t.source)
    && Coherent(t.target) && t.target.pid.Some? && t.target.identity.Some?
    && t.attempt >= 0 && (t.status.Fenced? ==> t.attempt < ATTEMPTS_PER_EPOCH)
    && t.epoch >= 1
    && (t.strategy.Some? ==> t.strategy.value == StrategyFor(t.epoch))
  }

  // ---------------------------------------------------------------- steps

  /** One atomic step.  A rejection or a mismatch carries where in the run its process read the state. */
  datatype Event =
    | Fence(request: nat, target: Owner, runtime: nat, now: int)
    | Transfer(captured: Owner)
    | Release(request: nat)
    | ResumeLegacy(request: nat, now: int)
    | RejectInvalid(request: nat, at: nat)
    | MismatchFound(request: nat, at: nat)
    | FinalizeFailed(request: nat, recoverable: bool, now: int)
    | ToTarget(request: nat)
    | ToSource(request: nat)
    | Register(spec: Spec, pid: int, identity: Identity)
    | Cancel
    | Others(bound: bool, problem: Option<Problem>)

  predicate FencedFor(s: State, request: nat) {
    s.transaction.Some? && s.transaction.value.request == request && s.transaction.value.status.Fenced?
  }

  function Unsuspended(s: State): State {
    s.(suspended := false, suspendedFor := None)
  }

  function Rejected(s: State, t: Transaction): State {
    Unsuspended(s).(transaction := Some(t.(status := Failed)), problem := Some(TransactionInvalid))
  }

  function FenceState(s: State, request: nat, target: Owner, runtime: nat, now: int): State {
    if s.owner.spec.None? || !s.bound then s
    else if s.transaction.Some? && s.transaction.value.status.Fenced? then s
    else s.(transaction := Some(Transaction(request, Fenced, now + 60000, s.owner, target, runtime, 0, 1,
                                            Some(StrategyFor(1)), None)),
            suspended := true, suspendedFor := Some(request), registered := None)
  }

  function TransferState(s: State, session: nat, captured: Owner): State {
    if s.cancelled || s.problem.Some? || s.owner.spec.None? || !s.bound then s
    else
      match s.transaction
      case None => Unsuspended(s).(owner := captured, registered := None)
      case Some(t) =>
        if !ValidTransaction(t, session) then Rejected(s, t)
        else if !t.status.Fenced? then s
        else Unsuspended(s).(owner := t.target, transaction := Some(t.(status := Completed)), registered := None)
  }

  function ReleaseState(s: State, request: nat): State {
    if s.suspendedFor != Some(request) then s
    else Unsuspended(s).(transaction :=
                           if FencedFor(s, request) then Some(s.transaction.value.(status := RolledBack)) else s.transaction)
  }

  function LegacyResumed(s: State, request: nat, now: int): State {
    if s.cancelled || s.transaction.None? || s.transaction.value.request != request
       || !s.transaction.value.status.Failed? || s.problem != Some(RetriesExhausted) then s
    else
      var t := s.transaction.value;
      var epoch := Max(2, t.epoch + 1);
      s.(transaction := Some(t.(status := Fenced, attempt := 0, epoch := epoch, strategy := Some(StrategyFor(epoch)),
                                notBefore := Some(now))),
         suspended := true, suspendedFor := Some(request), problem := None)
  }

  function RejectState(s: State, request: nat): State {
    if s.cancelled || s.transaction.None? || s.transaction.value.request != request then s
    else Rejected(s, s.transaction.value)
  }

  /** Only the transaction of the request fails, but the suspension is lifted whatever it was for. */
  function MismatchState(s: State, session: nat, request: nat): State {
    if s.cancelled then s
    else if FencedFor(s, request) && !ValidTransaction(s.transaction.value, session) then Rejected(s, s.transaction.value)
    else Unsuspended(s).(
           transaction := if FencedFor(s, request) then Some(s.transaction.value.(status := Failed)) else s.transaction,
           problem := Some(RuntimeMismatch))
  }

  function RetryTransaction(t: Transaction, now: int): Transaction {
    if t.attempt + 1 >= ATTEMPTS_PER_EPOCH then
      t.(attempt := 0, epoch := t.epoch + 1, strategy := Some(StrategyFor(t.epoch + 1)),
         notBefore := Some(now + EpochDelay(t.epoch + 1)))
    else
      t.(attempt := t.attempt + 1, strategy := if t.strategy.Some? then t.strategy else Some(StrategyFor(t.epoch)),
         notBefore := None)
  }

  function FinalizeFailedState(s: State, session: nat, request: nat, recoverable: bool, now: int): State {
    if s.cancelled || !FencedFor(s, request) then s
    else
      var t := s.transaction.value;
      if !ValidTransaction(t, session) then Rejected(s, t)
      else if !recoverable then Unsuspended(s).(transaction := Some(t.(status := Failed)), problem := Some(IntegrityFailure))
      else s.(transaction := Some(RetryTransaction(t, now)), suspended := true, suspendedFor := Some(request))
  }

  function SettleState(s: State, session: nat, request: nat, forward: bool): State {
    if s.cancelled || !FencedFor(s, request) then s
    else
      var t := s.transaction.value;
      if !ValidTransaction(t, session) then Rejected(s, t)
      else Unsuspended(s).(owner := if forward then t.target else t.source,
                           transaction := Some(t.(status := if forward then Completed else RolledBack)), registered := None)
  }

  /** A supervisor publishes itself: under another specification it is refused, after a cancellation only
      a missing specification is filled in. */
  function RegisterState(s: State, spec: Spec, pid: int, identity: Identity): State {
    if s.owner.spec.Some? && s.owner.spec.value != spec then s
    else if s.cancelled then s.(owner := s.owner.(spec := Some(spec)))
    else s.(owner := Owner(Some(spec), Some(pid), Some(identity)), registered := Some(Supervisor(pid, identity)))
  }

  function Apply(s: State, session: nat, e: Event): State {
    match e
    case Fence(request, target, runtime, now) => FenceState(s, request, target, runtime, now)
    case Transfer(captured) => TransferState(s, session, captured)
    case Release(request) => ReleaseState(s, request)
    case ResumeLegacy(request, now) => LegacyResumed(s, request, now)
    case RejectInvalid(request, _) => RejectState(s, request)
    case MismatchFound(request, _) => MismatchState(s, session, request)
    case FinalizeFailed(request, recoverable, now) => FinalizeFailedState(s, session, request, recoverable, now)
    case ToTarget(request) => SettleState(s, session, request, true)
    case ToSource(request) => SettleState(s, session, request, false)
    case Register(spec, pid, identity) => RegisterState(s, spec, pid, identity)
    case Cancel => s.(cancelled := true)
    case Others(bound, problem) => s.(bound := bound, problem := problem)
  }

  /** An owner that a live supervisor of this session could publish. */
  predicate Publishable(o: Owner, session: nat) {
    o.spec.Some? && o.spec.value.session == session && Coherent(o) && o.pid.Some? && o.identity.Some?
  }

  predicate WellFormed(e: Event, session: nat) {
    match e
    case Fence(_, target, _, _) => Publishable(target, session)
    case Transfer(captured) => Publishable(captured, session)
    case Register(spec, pid, identity) => Publishable(Owner(Some(spec), Some(pid), Some(identity)), session)
    case _ => true
  }

  function Run(s: State, session: nat, events: seq<Event>): State {
    if events == [] then s else Apply(Run(s, session, events[..|events| - 1]), session, events[|events| - 1])
  }

  /** A rejection comes from an earlier state whose transaction failed the validator, a mismatch from one
      where the request was fenced. */
  predicate ReadOk(s: State, session: nat, before: seq<Event>, e: Event) {
    match e
    case RejectInvalid(request, at) =>
      && at <= |before|
      && var r := Run(s, session, before[..at]);
         r.transaction.Some? && r.transaction.value.request == request && !ValidTransaction(r.transaction.value, session)
    case MismatchFound(request, at) =>
      && at <= |before|
      && FencedFor(Run(s, session, before[..at]), request)
    case _ => true
  }

  predicate AllRead(s: State, session: nat, events: seq<Event>) {
    events != [] ==>
      var init := events[..|events| - 1];
      && AllRead(s, session, init)
      && WellFormed(events[|events| - 1], session) && ReadOk(s, session, init, events[|events| - 1])
  }

  lemma RunSnoc(s: State, session: nat, events: seq<Event>, e: Event)
    ensures Run(s, session, events + [e]) == Apply(Run(s, session, events), session, e)
    ensures AllRead(s, session, events + [e]) <==> AllRead(s, session, events) && WellFormed(e, session) && ReadOk(s, session, events, e)
  {
    assert (events + [e])[..|events|] == events;
  }

  // ---------------------------------------------------------------- the invariant

  /** Whose owner the transaction says it is. */
  function Side(t: Transaction): Owner {
    if t.status.Completed? then t.target else t.source
  }

  /** An owner with the supervisor that registered itself last. */
  function Served(o: Owner, registered: Option<Supervisor>): Owner {
    match registered
    case None => o
    case Some(r) => o.(pid := Some(r.pid), identity := Some(r.identity))
  }

  /** Recovery is suspended exactly for the fenced request, and the transaction passes its validator.  The
      owner is the target after completion and the source in every other case, with pid and identity of the
      last supervisor that has registered itself since, if one has. */
  predicate Inv(s: State, session: nat) {
    && s.suspended == (s.transaction.Some? && s.transaction.value.status.Fenced?)
    && s.suspendedFor == (if s.suspended then Some(s.transaction.value.request) else None)
    && (s.owner.spec.Some? ==> s.owner.spec.value.session == session)
    && Coherent(s.owner) && s.owner == Served(s.owner, s.registered)
    && (s.transaction.Some? ==>
          var t := s.transaction.value;
          ValidTransaction(t, session) && s.owner == Served(Side(t), s.registered))
  }

  /** A mismatch meets no fence of another request. */
  predicate Undisturbed(s: State, e: Event) {
    e.MismatchFound? && !s.cancelled && s.transaction.Some? && s.transaction.value.status.Fenced? ==>
      s.transaction.value.request == e.request
  }

  /** A step keeps the invariant exactly when it is undisturbed: a mismatch found for an older request
      lifts the suspension of a newer one. */
  lemma StepKeepsInvIff(s: State, session: nat, e: Event)
    requires Inv(s, session) && WellFormed(e, session) && !e.RejectInvalid?
    ensures Inv(Apply(s, session, e), session) <==> Undisturbed(s, e)
  {
  }

  predicate AllUndisturbed(s: State, session: nat, events: seq<Event>) {
    events != [] ==>
      var init := events[..|events| - 1];
      AllUndisturbed(s, session, init) && Undisturbed(Run(s, session, init), events[|events| - 1])
  }

  lemma {:induction false} PrefixOk(s: State, session: nat, events: seq<Event>, k: nat)
    requires k <= |events| && AllRead(s, session, events) && AllUndisturbed(s, session, events)
    ensures AllRead(s, session, events[..k]) && AllUndisturbed(s, session, events[..k])
  {
    if k == |events| {
      assert events[..k] == events;
    } else {
      var init := events[..|events| - 1];
      assert init[..k] == events[..k];
      PrefixOk(s, session, init, k);
    }
  }

  /** Over every run of handoffs, registrations and cancellations in which no mismatch disturbs a newer
      fence the invariant holds; no process ever finds a transaction to reject. */
  lemma {:induction false} RunKeepsInv(s: State, session: nat, events: seq<Event>)
    requires Inv(s, session) && AllRead(s, session, events) && AllUndisturbed(s, session, events)
    ensures Inv(Run(s, session, events), session)
    ensures forall e :: e in events ==> !e.RejectInvalid?
    decreases |events|
  {
    if events != [] {
      var init, e := events[..|events| - 1], events[|events| - 1];
      assert events == init + [e];
      RunKeepsInv(s, session, init);
      if e.RejectInvalid? {
        PrefixOk(s, session, init, e.at);
        RunKeepsInv(s, session, init[..e.at]);
      }
      StepKeepsInvIff(Run(s, session, init), session, e);
    }
  }

  /** The stale mismatch is reachable: the first request is fenced, read by a reconciler and released, the
      second one fenced. */
  lemma StaleMismatchUnfences(s: State, session: nat, first: nat, second: nat, target: Owner, runtime: nat, now: int)
    requires Inv(s, session) && s.transaction.None? && s.owner.spec.Some? && s.bound && !s.cancelled
    requires first != second && Publishable(target, session)
    ensures var e := [Fence(first, target, runtime, now), Release(first), Fence(second, target, runtime, now)];
            var t, m := Run(s, session, e), MismatchFound(first, 1);
            && AllRead(s, session, e + [m]) && Inv(t, session) && FencedFor(t, second) && !Undisturbed(t, m)
            && FencedFor(Apply(t, session, m), second) && !Apply(t, session, m).suspended
  {
    var x, y, z := Fence(first, target, runtime, now), Release(first), Fence(second, target, runtime, now);
    RunSnoc(s, session, [], x);
    RunSnoc(s, session, [x], y);
    RunSnoc(s, session, [x, y], z);
    assert [] + [x] == [x] && [x] + [y] == [x, y] && [x, y] + [z] == [x, y, z];
    StepKeepsInvIff(s, session, x);
    StepKeepsInvIff(Run(s, session, [x]), session, y);
    StepKeepsInvIff(Run(s, session, [x, y]), session, z);
    assert [x, y, z][..1] == [x];
    RunSnoc(s, session, [x, y, z], MismatchFound(first, 1));
  }

  // ---------------------------------------------------------------- ownership

  /** Of this session, with a real pid and the identity of that process, as far as either is known. */
  predicate Plausible(o: Owner, session: nat) {
    match o
    case Owner(Some(Spec(directory, _)), None, None) => directory == session
    case Owner(Some(Spec(directory, _)), Some(pid), None) => directory == session && pid >= 1
    case Owner(Some(Spec(directory, _)), Some(pid), Some(Identity(of, _))) => directory == session && pid >= 1 && of == pid
    case _ => false
  }

  /** From any state, even a corrupt one, the owner moves only by completing or rolling back a valid
      fenced transaction, by a transfer while there is none, or by a registration, which keeps the
      specification that is there. */
  lemma OwnerMovesOnlyBy(s: State, session: nat, e: Event)
    requires Apply(s, session, e).owner != s.owner
    ensures var o := Apply(s, session, e).owner;
            if e.Register? then
              && o.spec == Some(e.spec) && (s.owner.spec.Some? ==> o.spec == s.owner.spec)
              && (s.cancelled ==> s.owner.spec.None? && o.pid == s.owner.pid && o.identity == s.owner.identity)
            else
              && !s.cancelled
              && match s.transaction
                 case None => e.Transfer? && o == e.captured
                 case Some(t) =>
                   && t.status.Fenced? && ValidTransaction(t, session)
                   && (e.Transfer? || e == ToTarget(t.request) || e == ToSource(t.request))
                   && o == (if e.ToSource? then t.source else t.target) && Plausible(o, session)
                   && (!e.ToSource? ==> o.pid.Some? && o.identity.Some?)
                   && Apply(s, session, e).transaction == Some(t.(status := if e.ToSource? then RolledBack else Completed))
  {
  }

  /** After a cancellation no step of any run changes the supervisor, nor a specification that is there. */
  lemma {:induction false} CancelledOwnerFixed(s: State, session: nat, events: seq<Event>)
    requires s.cancelled
    ensures var t := Run(s, session, events);
            && t.cancelled && t.owner.pid == s.owner.pid && t.owner.identity == s.owner.identity
            && (s.owner.spec.Some? ==> t.owner.spec == s.owner.spec)
  {
    if events != [] {
      var t := Run(s, session, events[..|events| - 1]);
      CancelledOwnerFixed(s, session, events[..|events| - 1]);
      if Apply(t, session, events[|events| - 1]).owner != t.owner {
        OwnerMovesOnlyBy(t, session, events[|events| - 1]);
      }
    }
  }

  /** A transaction that fails its validator never reaches an owner: every step that would use it rejects it. */
  lemma InvalidIsRejected(s: State, session: nat, e: Event)
    requires s.transaction.Some? && !ValidTransaction(s.transaction.value, session) && !s.cancelled
    requires s.transaction.value.status.Fenced?
    requires e == ToTarget(s.transaction.value.request) || e == ToSource(s.transaction.value.request)
             || ((e.FinalizeFailed? || e.MismatchFound? || e.RejectInvalid?) && e.request == s.transaction.value.request)
             || (e.Transfer? && s.problem.None? && s.owner.spec.Some? && s.bound)
    ensures var t := Apply(s, session, e);
            && t.owner == s.owner && t.transaction.Some? && t.transaction.value.status.Failed?
            && !t.suspended && t.problem == Some(TransactionInvalid)
  {
  }

  // ---------------------------------------------------------------- retries

  function FailAll(s: State, session: nat, request: nat, times: seq<int>): State {
    if times == [] then s
    else Apply(FailAll(s, session, request, times[..|times| - 1]), session,
               FinalizeFailed(request, true, times[|times| - 1]))
  }

  /** The fence of the request has seen `m` recoverable failures. */
  predicate Retried(s: State, request: nat, m: nat) {
    && FencedFor(s, request) && !s.cancelled
    && var t := s.transaction.value;
       && t.epoch == 1 + m / 5 && t.attempt == m % 5
       && t.strategy == Some(if m < 5 then ImmediateRetry else if m < 10 then QuiescenceBackoff else ExtendedBackoff)
  }

  lemma RetryOnce(s: State, session: nat, request: nat, m: nat, now: int)
    requires Inv(s, session) && Retried(s, request, m)
    ensures var u := Apply(s, session, FinalizeFailed(request, true, now));
            && Inv(u, session) && Retried(u, request, m + 1) && u.owner == s.owner
            && u.transaction.value.notBefore ==
               (if (m + 1) % 5 == 0 then Some(now + Min(30000, 250 * Pow2((m + 1) / 5 - 1))) else None)
  {
    NextFifth(m);
    if m >= 4 {
      SevenDoublings((m + 1) / 5 - 1);
    }
    StepKeepsInvIff(s, session, FinalizeFailed(request, true, now));
  }

  lemma {:induction false} RetriesCount(s: State, session: nat, request: nat, times: seq<int>)
    requires Inv(s, session) && Retried(s, request, 0)
    ensures Inv(FailAll(s, session, request, times), session)
    ensures Retried(FailAll(s, session, request, times), request, |times|)
    ensures FailAll(s, session, request, times).owner == s.owner
  {
    if times != [] {
      var init := times[..|times| - 1];
      RetriesCount(s, session, request, init);
      RetryOnce(FailAll(s, session, request, init), session, request, |init|, times[|times| - 1]);
    }
  }

  /** A fence of a request that is not fenced yet starts before its first failure, with the owner as source. */
  lemma FenceStarts(s: State, session: nat, request: nat, target: Owner, runtime: nat, now: int)
    requires s.owner.spec.Some? && s.bound && !s.cancelled && !(s.transaction.Some? && s.transaction.value.status.Fenced?)
    ensures var u := Apply(s, session, Fence(request, target, runtime, now));
            && Retried(u, request, 0) && u.suspended && u.suspendedFor == Some(request)
            && u.owner == s.owner && u.cancelled == s.cancelled && u.problem == s.problem && u.bound == s.bound
            && var t := u.transaction.value;
               && t.source == s.owner && t.target == target && t.runtime == runtime
               && t.deadline == now + 60000 && t.notBefore.None?
  {
  }

  /** A transaction that an older version gave up after its retries is fenced again in a later epoch, due at
      once, whenever the session is not cancelled; nothing else is. */
  lemma LegacyResumes(s: State, session: nat, request: nat, now: int)
    requires Inv(s, session)
    ensures var u := Apply(s, session, ResumeLegacy(request, now));
            if !s.cancelled && s.problem == Some(RetriesExhausted) && s.transaction.Some?
               && s.transaction.value.request == request && s.transaction.value.status.Failed? then
              && FencedFor(u, request) && u.suspended && u.suspendedFor == Some(request) && u.problem.None?
              && u.owner == s.owner
              && var t, r := s.transaction.value, u.transaction.value;
                 && r.epoch == t.epoch + 1 && r.attempt == 0 && r.notBefore == Some(now)
                 && r.strategy == Some(if r.epoch == 2 then QuiescenceBackoff else ExtendedBackoff)
                 && r.source == t.source && r.target == t.target && r.runtime == t.runtime && r.deadline == t.deadline
            else u == s
  {
  }

  /** Whatever a valid fence holds, one more recoverable failure keeps its attempts below five and gives it
      the strategy of its epoch. */
  lemma RetryStaysValid(s: State, session: nat, request: nat, now: int)
    requires !s.cancelled && FencedFor(s, request) && ValidTransaction(s.transaction.value, session)
    ensures var u := Apply(s, session, FinalizeFailed(request, true, now));
            && FencedFor(u, request) && ValidTransaction(u.transaction.value, session)
            && var t, r := s.transaction.value, u.transaction.value;
               && 0 <= r.attempt <= 4 && r.epoch >= 1 && t.epoch <= r.epoch <= t.epoch + 1
               && r.strategy == Some(if r.epoch == 1 then ImmediateRetry else if r.epoch == 2 then QuiescenceBackoff else ExtendedBackoff)
               && (r.epoch > t.epoch <==> t.attempt == 4)
  {
  }

  /** After `n` recoverable failures from a fresh fence the epoch is `1 + n / 5` and the attempt `n % 5`,
      with the strategy and the delay of that epoch; the fence holds and the owner is untouched. */
  lemma RetriesAfter(s: State, session: nat, request: nat, times: seq<int>)
    requires Inv(s, session) && Retried(s, request, 0) && times != []
    ensures var t, n := FailAll(s, session, request, times), |times|;
            && Inv(t, session) && Retried(t, request, n) && t.owner == s.owner
            && t.transaction.value.notBefore ==
               (if n % 5 == 0 then Some(times[n - 1] + Min(30000, 250 * Pow2(n / 5 - 1))) else None)
  {
    var init := times[..|times| - 1];
    var before := FailAll(s, session, request, init);
    RetriesCount(s, session, request, init);
    assert FailAll(s, session, request, times) == Apply(before, session, FinalizeFailed(request, true, times[|times| - 1]));
    RetryOnce(before, session, request, |init|, times[|times| - 1]);
  }
}
