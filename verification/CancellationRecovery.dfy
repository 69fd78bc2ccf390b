/**
 Cancellation recovery as a machine over shared state.  Every locked update is one atomic step whose
 local arguments were computed from an earlier read; between any two steps other processes take steps
 of their own and process groups come and go.
 */
module CancellationRecovery {
  import opened Basics

  // ---------------------------------------------------------------- intents

  /** A process identity; its four parts are its key. */
  datatype Identity = Identity(pid: nat, pgid: nat, start: int, fingerprint: int)

  datatype Status = Pending | Quiescent | Completed

  datatype Reason = ControllerLive | GroupLive(pgid: nat) | LedgerCorrupt | OwnershipChanged | IntentCorrupt | OperatorFailure

  datatype Intent = Intent(
    id: nat, status: Status, identities: seq<Identity>, attempt: nat, epoch: int, notBefore: int, error: Option<Reason>)

  /** What the state file holds where the intent belongs. */
  datatype Slot = Absent | Corrupt | Present(intent: Intent)

  predicate ValidIntent(i: Intent) {
    Distinct(i.identities) && i.epoch >= 1
  }

  predicate ValidSlot(s: Slot) {
    s.Present? ==> ValidIntent(s.intent)
  }

  /** Adds the new identities in order, each once. */
  function MergeIds(a: seq<Identity>, b: seq<Identity>): seq<Identity>
    decreases b
  {
    if b == [] then a else MergeIds(if b[0] in a then a else a + [b[0]], b[1..])
  }

  lemma {:induction false} MergeIdsMembers(a: seq<Identity>, b: seq<Identity>, x: Identity)
    ensures x in MergeIds(a, b) <==> x in a || x in b
    decreases b
  {
    if b != [] {
      MergeIdsMembers(if b[0] in a then a else a + [b[0]], b[1..], x);
      assert b == [b[0]] + b[1..];
    }
  }

  lemma {:induction false} MergeIdsShape(a: seq<Identity>, b: seq<Identity>)
    requires Distinct(a)
    ensures var m := MergeIds(a, b); Distinct(m) && |m| >= |a| && m[..|a|] == a
    decreases b
  {
    if b != [] {
      var next := if b[0] in a then a else a + [b[0]];
      DistinctSnoc(a, b[0]);
      MergeIdsShape(next, b[1..]);
      assert next[..|a|] == a;
      assert MergeIds(next, b[1..])[..|next|][..|a|] == MergeIds(next, b[1..])[..|a|];
    }
  }

  /** Merging is a union that keeps the old identities in front; it grows exactly when there is a new one. */
  lemma MergeIdsFacts(a: seq<Identity>, b: seq<Identity>)
    requires Distinct(a)
    ensures var m := MergeIds(a, b);
            && Distinct(m) && ToSet(m) == ToSet(a) + ToSet(b)
            && (if ToSet(b) <= ToSet(a) then m == a else |m| > |a|)
  {
    var m := MergeIds(a, b);
    MergeIdsShape(a, b);
    forall x ensures x in m <==> x in a || x in b {
      MergeIdsMembers(a, b, x);
    }
    if |m| > |a| {
      var x := m[|a|];
      assert x !in m[..|a|];
      assert x in ToSet(b) && x !in ToSet(a);
    } else {
      assert m == a;
      assert ToSet(b) <= ToSet(a);
    }
  }

  function Create(id: nat, identities: seq<Identity>, now: int): Intent {
    Intent(id, Pending, MergeIds([], identities), 0, 1, now, None)
  }

  /** A request to cancel joins the intent that is already there; a corrupt one is refused. */
  function Merge(s: Slot, id: nat, identities: seq<Identity>, now: int): Option<Intent> {
    match s
    case Corrupt => None
    case Absent => Some(Create(id, identities, now))
    case Present(i) =>
      var merged := MergeIds(i.identities, identities);
      if |merged| != |i.identities| then
        Some(i.(identities := merged, status := Pending, notBefore := now, error := None))
      else
        Some(i.(identities := merged))
  }

  /** As `Merge`, for an intent prepared in advance: another intent is refused. */
  function Activate(s: Slot, id: nat, identities: seq<Identity>, now: int): Option<Intent> {
    if s.Present? && s.intent.id != id then None else Merge(s, id, identities, now)
  }

  /** Merging keeps the intent valid, loses no identity, reopens it exactly when there is a new one. */
  lemma MergeMeets(s: Slot, id: nat, identities: seq<Identity>, now: int)
    requires ValidSlot(s)
    ensures Merge(s, id, identities, now).None? <==> s.Corrupt?
    ensures Merge(s, id, identities, now).Some? ==>
              var j := Merge(s, id, identities, now).value;
              && ValidIntent(j)
              && (s.Absent? ==> ToSet(j.identities) == ToSet(identities) && j == Intent(id, Pending, j.identities, 0, 1, now, None))
              && (s.Present? ==>
                    && ToSet(j.identities) == ToSet(s.intent.identities) + ToSet(identities)
                    && (if ToSet(identities) <= ToSet(s.intent.identities) then j == s.intent
                        else j == Intent(s.intent.id, Pending, j.identities, s.intent.attempt, s.intent.epoch, now, None)))
  {
    if s.Present? {
      MergeIdsFacts(s.intent.identities, identities);
    } else {
      MergeIdsFacts([], identities);
    }
  }

  // ---------------------------------------------------------------- shared state

  /** A persisted child slot: an exact identity or something that does not read as one. */
  datatype Child = Exact(identity: Identity) | Malformed

  datatype State = State(
    slot: Slot, refinement: seq<Child>, active: seq<Child>, child: Option<Child>,
    controller: Option<Identity>, controllerPid: Option<nat>, required: bool, ownershipKind: bool, reason: Option<Reason>)

  /** What the host would report at an instant: groups with members that are not zombies, identities
      that match exactly, and the process holding the session operation. */
  datatype Host = Host(groups: set<nat>, matched: set<Identity>, operationOwner: Option<nat>)

  datatype World = World(state: State, host: Host)

  function Exacts(children: seq<Child>): seq<Identity> {
    if children == [] then []
    else (if children[0].Exact? then [children[0].identity] else []) + Exacts(children[1..])
  }

  /** Every exact identity in the child ledgers, each once. */
  function Children(s: State): seq<Identity> {
    MergeIds([], Exacts(s.refinement + s.active + if s.child.Some? then [s.child.value] else []))
  }

  predicate LedgerValid(s: State) {
    (forall c :: c in s.refinement + s.active ==> c.Exact?) && (s.child.Some? ==> s.child.value.Exact?)
  }

  predicate ControllerOwns(w: World) {
    || (w.state.controller.Some? && w.state.controller.value in w.host.matched)
    || (w.state.controllerPid.Some? && w.state.controllerPid.value > 0
        && w.host.operationOwner == w.state.controllerPid)
  }

  predicate AllAbsent(h: Host, identities: seq<Identity>) {
    forall i :: i in identities ==> i.pgid !in h.groups
  }

  /** Nothing owns the session any more: no controller, and no live group of any identity in the intent
      or in a child ledger. */
  predicate Quiet(w: World) {
    && w.state.slot.Present?
    && !ControllerOwns(w)
    && AllAbsent(w.host, w.state.slot.intent.identities)
    && LedgerValid(w.state)
    && AllAbsent(w.host, Children(w.state))
  }

  // ---------------------------------------------------------------- what a quiet world is

  /** Something in a child ledger. */
  predicate InLedger(s: State, c: Child) {
    c in s.refinement || c in s.active || s.child == Some(c)
  }

  lemma {:induction false} ExactsMembers(children: seq<Child>, i: Identity)
    ensures i in Exacts(children) <==> Exact(i) in children
  {
    if children != [] {
      ExactsMembers(children[1..], i);
      assert children == [children[0]] + children[1..];
    }
  }

  /** The children are the exact identities of the three ledgers, each once. */
  lemma ChildrenExactly(s: State)
    ensures Distinct(Children(s)) && forall i :: i in Children(s) <==> InLedger(s, Exact(i))
  {
    var all := s.refinement + s.active + if s.child.Some? then [s.child.value] else [];
    MergeIdsShape([], Exacts(all));
    forall i ensures i in Children(s) <==> InLedger(s, Exact(i)) {
      MergeIdsMembers([], Exacts(all), i);
      ExactsMembers(all, i);
    }
  }

  /** No controller is left, neither as a process that still matches nor as the holder of the session
      operation; every ledger reads as exact identities; and no group of the intent or a ledger is alive. */
  predicate Deserted(s: State, h: Host) {
    && s.slot.Present?
    && (s.controller.Some? ==> s.controller.value !in h.matched)
    && (s.controllerPid.Some? && s.controllerPid.value > 0 ==> h.operationOwner != Some(s.controllerPid.value))
    && !InLedger(s, Malformed)
    && (forall i :: i in s.slot.intent.identities ==> i.pgid !in h.groups)
    && (forall c :: c in s.refinement + s.active ==> c.Exact? && c.identity.pgid !in h.groups)
    && (s.child.Some? ==> s.child.value.Exact? && s.child.value.identity.pgid !in h.groups)
  }

  lemma QuietIff(w: World)
    ensures Quiet(w) <==> Deserted(w.state, w.host)
  {
    var s := w.state;
    ChildrenExactly(s);
    if Quiet(w) {
      forall c | InLedger(s, c) ensures c.Exact? && c.identity.pgid !in w.host.groups {
        assert c in s.refinement + s.active || s.child == Some(c);
        assert c.identity in Children(s);
      }
    }
  }

  function RetryDelay(epoch: int): int {
    Min(30000, 250 * Pow2(Min(Max(0, epoch - 1), 7)))
  }

  // ---------------------------------------------------------------- steps

  /** One atomic step, with the local arguments it was prepared with.  A scan carries where in the run its
      process read the state. */
  datatype Event =
    | MarkCorrupt(kind: bool, reason: Reason)
    | MergeScan(id: nat, merged: seq<Identity>, now: int, at: nat)
    | FailAttempt(id: nat, reason: Reason, now: int)
    | Quiesce(id: nat)
    | FinalClear(id: nat, now: int)
    | OperatorMerge(newId: nat, identities: seq<Identity>, now: int)
    | OperatorActivate(id: nat, identities: seq<Identity>, now: int)
    | OperatorReopen(newId: nat, identities: seq<Identity>, now: int)
    | Publish(refinement: seq<Child>, active: seq<Child>, child: Option<Child>,
              controller: Option<Identity>, controllerPid: Option<nat>)
    | HostChange(host: Host)

  predicate Open(s: State, id: nat) {
    s.slot.Present? && s.slot.intent.id == id && !s.slot.intent.status.Completed?
  }

  function WithIntent(s: State, i: Intent): State {
    s.(slot := Present(i))
  }

  function Blocked(s: State, reason: Reason): State {
    s.(required := true, ownershipKind := true, reason := Some(reason))
  }

  function ScanMerged(s: State, id: nat, merged: seq<Identity>, now: int): State {
    if !Open(s, id) then s
    else WithIntent(s, s.slot.intent.(identities := merged, status := Pending, attempt := 0, notBefore := now, error := None))
  }

  function Failed(s: State, id: nat, reason: Reason, now: int): State {
    if !Open(s, id) then s
    else
      var i := s.slot.intent;
      var epoch := if (i.attempt + 1) % 5 == 0 then i.epoch + 1 else i.epoch;
      Blocked(WithIntent(s, i.(status := Pending, attempt := i.attempt + 1, epoch := epoch,
                               notBefore := now + RetryDelay(epoch), error := Some(reason))), reason)
  }

  function Quiesced(w: World, id: nat): State {
    var s := w.state;
    if !Open(s, id) || !s.slot.intent.status.Pending? then s
    else if exists c :: c in Children(s) && c !in s.slot.intent.identities then s
    else if !AllAbsent(w.host, s.slot.intent.identities) then s
    else WithIntent(s, s.slot.intent.(status := Quiescent, error := None))
  }

  function FinallyCleared(w: World, id: nat, now: int): State {
    var s := w.state;
    if !Open(s, id) || !s.slot.intent.status.Quiescent? then s
    else
      var i := s.slot.intent;
      if !LedgerValid(s) then
        Blocked(WithIntent(s, i.(status := Pending, notBefore := now, error := Some(LedgerCorrupt))), LedgerCorrupt)
      else
        var known := MergeIds(i.identities, Children(s));
        if ControllerOwns(w) || |known| != |i.identities| || !AllAbsent(w.host, known) then
          Blocked(WithIntent(s, i.(identities := known, status := Pending, notBefore := now,
                                   error := Some(OwnershipChanged))), OwnershipChanged)
        else
          State(Present(i.(status := Completed)), [], [], None, None, None, false, false, None)
  }

  function Joined(s: State, merged: Option<Intent>): State {
    if merged.None? then s else WithIntent(s, merged.value).(ownershipKind := true)
  }

  function Reopened(s: State, merged: Option<Intent>, now: int): State {
    if merged.None? then s
    else Blocked(WithIntent(s, merged.value.(status := Pending, notBefore := now, error := Some(OperatorFailure))),
                 OperatorFailure)
  }

  /** The world after one step. */
  function Apply(w: World, e: Event): World {
    match e
    case MarkCorrupt(kind, reason) =>
      w.(state := w.state.(required := true, ownershipKind := kind || w.state.ownershipKind, reason := Some(reason)))
    case MergeScan(id, merged, now, _) => w.(state := ScanMerged(w.state, id, merged, now))
    case FailAttempt(id, reason, now) => w.(state := Failed(w.state, id, reason, now))
    case Quiesce(id) => w.(state := Quiesced(w, id))
    case FinalClear(id, now) => w.(state := FinallyCleared(w, id, now))
    case OperatorMerge(id, ids, now) => w.(state := Joined(w.state, Merge(w.state.slot, id, ids, now)))
    case OperatorActivate(id, ids, now) => w.(state := Joined(w.state, Activate(w.state.slot, id, ids, now)))
    case OperatorReopen(id, ids, now) => w.(state := Reopened(w.state, Merge(w.state.slot, id, ids, now), now))
    case Publish(refinement, active, child, controller, pid) =>
      w.(state := w.state.(refinement := refinement, active := active, child := child,
                           controller := controller, controllerPid := pid))
    case HostChange(h) => w.(host := h)
  }

  /** Local arguments come from a map, which holds no key twice. */
  predicate WellFormed(e: Event) {
    e.MergeScan? ==> Distinct(e.merged)
  }

  function Run(w: World, events: seq<Event>): World {
    if events == [] then w else Apply(Run(w, events[..|events| - 1]), events[|events| - 1])
  }

  predicate AllWellFormed(events: seq<Event>) {
    forall e :: e in events ==> WellFormed(e)
  }

  lemma RunSnoc(w: World, events: seq<Event>, e: Event)
    ensures Run(w, events + [e]) == Apply(Run(w, events), e)
  {
    assert (events + [e])[..|events|] == events;
  }

  /** What other programs publish stands in the ledgers, and the intent is not touched. */
  lemma PublishShows(w: World, e: Event)
    requires e.Publish?
    ensures var s := Apply(w, e).state;
            && s.refinement == e.refinement && s.active == e.active && s.child == e.child
            && s.controller == e.controller && s.controllerPid == e.controllerPid && s.slot == w.state.slot
            && forall i :: i in Children(s) <==> Exact(i) in e.refinement || Exact(i) in e.active || e.child == Some(Exact(i))
  {
    ChildrenExactly(Apply(w, e).state);
  }

  predicate IsCompleted(w: World) {
    w.state.slot.Present? && w.state.slot.intent.status.Completed?
  }

  // ---------------------------------------------------------------- what every step keeps

  /** The stored intent always passes its validator, and keeps its id. */
  lemma StepKeepsValid(w: World, e: Event)
    requires ValidSlot(w.state.slot) && WellFormed(e)
    ensures ValidSlot(Apply(w, e).state.slot)
    ensures w.state.slot.Present? ==> Apply(w, e).state.slot.Present? && Apply(w, e).state.slot.intent.id == w.state.slot.intent.id
    ensures w.state.slot.Corrupt? ==> Apply(w, e).state.slot.Corrupt?
  {
    match e
    case OperatorMerge(id, ids, now) => MergeMeets(w.state.slot, id, ids, now);
    case OperatorActivate(id, ids, now) => MergeMeets(w.state.slot, id, ids, now);
    case OperatorReopen(id, ids, now) => MergeMeets(w.state.slot, id, ids, now);
    case FinalClear(_, _) =>
      if w.state.slot.Present? {
        MergeIdsFacts(w.state.slot.intent.identities, Children(w.state));
      }
    case _ =>
  }

  lemma {:induction false} RunKeepsValid(w: World, events: seq<Event>)
    requires ValidSlot(w.state.slot) && AllWellFormed(events)
    ensures ValidSlot(Run(w, events).state.slot)
    ensures w.state.slot.Present? ==> Run(w, events).state.slot.Present? && Run(w, events).state.slot.intent.id == w.state.slot.intent.id
  {
    if events != [] {
      RunKeepsValid(w, events[..|events| - 1]);
      StepKeepsValid(Run(w, events[..|events| - 1]), events[|events| - 1]);
    }
  }

  /** Only the final clear completes an intent, and only in a quiet world; the same step empties every
      ledger, and the intent names everything the ledgers held. */
  lemma CompletionIsSafe(w: World, e: Event)
    requires ValidSlot(w.state.slot) && WellFormed(e)
    requires !IsCompleted(w) && IsCompleted(Apply(w, e))
    ensures e.FinalClear? && Quiet(w) && Deserted(w.state, w.host)
    ensures Apply(w, e).state == State(Present(w.state.slot.intent.(status := Completed)), [], [], None, None, None, false, false, None)
    ensures forall i :: InLedger(w.state, Exact(i)) ==> i in w.state.slot.intent.identities
  {
    var s := w.state;
    QuietIff(w);
    ChildrenExactly(s);
    match e
    case OperatorMerge(id, ids, now) => MergeMeets(s.slot, id, ids, now);
    case OperatorActivate(id, ids, now) => MergeMeets(s.slot, id, ids, now);
    case OperatorReopen(id, ids, now) => MergeMeets(s.slot, id, ids, now);
    case FinalClear(_, _) =>
      var i, children := s.slot.intent, Children(s);
      MergeIdsFacts(i.identities, children);
      var known := MergeIds(i.identities, children);
      assert known == i.identities;
      assert ToSet(children) <= ToSet(i.identities);
      forall c | c in children ensures c in i.identities {
        assert c in ToSet(children) && ToSet(children) <= ToSet(i.identities);
      }
    case _ =>
  }

  /** A completed intent is left exactly by a request that brings a new identity, for an activation one of
      this very intent, or by the operator recording a failed cancellation. */
  lemma LeavingCompleted(w: World, e: Event)
    requires ValidSlot(w.state.slot) && WellFormed(e) && IsCompleted(w)
    ensures !IsCompleted(Apply(w, e)) <==>
              e.OperatorReopen?
              || ((e.OperatorMerge? || (e.OperatorActivate? && e.id == w.state.slot.intent.id))
                  && !(ToSet(e.identities) <= ToSet(w.state.slot.intent.identities)))
    ensures IsCompleted(Apply(w, e)) ==> Apply(w, e).state.slot == w.state.slot
  {
    match e
    case OperatorMerge(id, ids, now) => MergeMeets(w.state.slot, id, ids, now);
    case OperatorActivate(id, ids, now) => MergeMeets(w.state.slot, id, ids, now);
    case OperatorReopen(id, ids, now) => MergeMeets(w.state.slot, id, ids, now);
    case _ =>
  }

  /** Recording a failed cancellation reopens every completed intent, even when it names nobody new: the
      intent is due at once and the session blocked for the operator. */
  lemma FailedCancellationReopens(w: World, newId: nat, identities: seq<Identity>, now: int)
    requires ValidSlot(w.state.slot) && IsCompleted(w) && ToSet(identities) <= Identities(w)
    ensures var i := w.state.slot.intent.(status := Pending, notBefore := now, error := Some(OperatorFailure));
            Apply(w, OperatorReopen(newId, identities, now)).state ==
              w.state.(slot := Present(i), required := true, ownershipKind := true, reason := Some(OperatorFailure))
  {
    MergeMeets(w.state.slot, newId, identities, now);
  }

  /** Every run that ends completed passed through a quiet world with exactly the identities the intent
      ends with, and went straight from there to the end without reopening. */
  lemma {:induction false} CompletedRunWasQuiet(w: World, events: seq<Event>)
    requires ValidSlot(w.state.slot) && AllWellFormed(events)
    requires !IsCompleted(w) && IsCompleted(Run(w, events))
    ensures exists k: nat :: k < |events| && ClearedAt(w, events, k)
  {
    var n := |events| - 1;
    var before := Run(w, events[..n]);
    RunKeepsValid(w, events[..n]);
    if IsCompleted(before) {
      CompletedRunWasQuiet(w, events[..n]);
      var k: nat :| k < n && ClearedAt(w, events[..n], k);
      LeavingCompleted(before, events[n]);
      assert events[..n][..k] == events[..k];
      assert events[..n][..n] == events[..n];
      assert ClearedAt(w, events, k);
    } else {
      CompletionIsSafe(before, events[n]);
      assert events[..n + 1] == events;
      assert ClearedAt(w, events, n);
    }
  }

  /** Step `k` cleared a quiet world, and the intent has not changed since. */
  predicate ClearedAt(w: World, events: seq<Event>, k: nat)
    requires k < |events|
  {
    var at := Run(w, events[..k]);
    var end := Run(w, events);
    && events[k].FinalClear? && Quiet(at)
    && Apply(at, events[k]).state == State(end.state.slot, [], [], None, None, None, false, false, None)
    && end.state.slot == Present(at.state.slot.intent.(status := Completed))
  }

  // ---------------------------------------------------------------- identities under interference

  function Identities(w: World): set<Identity> {
    if w.state.slot.Present? then ToSet(w.state.slot.intent.identities) else {}
  }

  /** What a process that reads this state finds: the identities of the intent and of the child ledgers. */
  function Found(w: World): set<Identity> {
    Identities(w) + ToSet(Children(w.state))
  }

  /** A scan writes what its process made of an earlier state, for the intent it read there. */
  predicate ReadOk(w: World, before: seq<Event>, e: Event) {
    e.MergeScan? ==>
      && e.at <= |before|
      && var s := Run(w, before[..e.at]).state;
         s.slot.Present? && s.slot.intent.id == e.id && e.merged == MergeIds(s.slot.intent.identities, Children(s))
  }

  predicate AllRead(w: World, events: seq<Event>) {
    events != [] ==>
      var init := events[..|events| - 1];
      AllRead(w, init) && ReadOk(w, init, events[|events| - 1])
  }

  lemma ReadSnoc(w: World, events: seq<Event>, e: Event)
    ensures AllRead(w, events + [e]) <==> AllRead(w, events) && ReadOk(w, events, e)
  {
    assert (events + [e])[..|events|] == events;
  }

  /** What step `k` adds to the intent. */
  function Added(w: World, events: seq<Event>, k: nat): set<Identity>
    requires k < |events|
  {
    Identities(Run(w, events[..k + 1])) - Identities(Run(w, events[..k]))
  }

  /** Whatever was added between the read of the scan and its write, the scan had already found. */
  ghost predicate NotOvertaken(w: World, before: seq<Event>, e: Event) {
    e.MergeScan? && e.at <= |before| && Open(Run(w, before).state, e.id) ==>
      forall k :: e.at <= k < |before| ==> Added(w, before, k) <= Found(Run(w, before[..e.at]))
  }

  ghost predicate NoneOvertaken(w: World, events: seq<Event>) {
    events != [] ==>
      var init := events[..|events| - 1];
      NoneOvertaken(w, init) && NotOvertaken(w, init, events[|events| - 1])
  }

  ghost predicate NothingDropped(w: World, events: seq<Event>) {
    events != [] ==>
      var init := events[..|events| - 1];
      NothingDropped(w, init) && Identities(Run(w, init)) <= Identities(Run(w, events))
  }

  /** An identity enters an intent by a request, or out of the child ledgers. */
  lemma AddedBy(w: World, e: Event, identity: Identity)
    requires ValidSlot(w.state.slot) && identity in Identities(Apply(w, e)) && identity !in Identities(w)
    ensures ((e.OperatorMerge? || e.OperatorActivate? || e.OperatorReopen?) && identity in e.identities)
            || (e.MergeScan? && identity in e.merged)
            || (e.FinalClear? && identity in Children(w.state))
  {
    match e
    case OperatorMerge(id, ids, now) => MergeMeets(w.state.slot, id, ids, now);
    case OperatorActivate(id, ids, now) => MergeMeets(w.state.slot, id, ids, now);
    case OperatorReopen(id, ids, now) => MergeMeets(w.state.slot, id, ids, now);
    case FinalClear(_, _) =>
      if w.state.slot.Present? {
        MergeIdsFacts(w.state.slot.intent.identities, Children(w.state));
      }
    case _ =>
  }

  /** Only a scan can drop an identity. */
  lemma OtherStepsKeep(w: World, e: Event)
    requires ValidSlot(w.state.slot) && (e.MergeScan? ==> !Open(w.state, e.id))
    ensures Identities(w) <= Identities(Apply(w, e))
  {
    match e
    case OperatorMerge(id, ids, now) => MergeMeets(w.state.slot, id, ids, now);
    case OperatorActivate(id, ids, now) => MergeMeets(w.state.slot, id, ids, now);
    case OperatorReopen(id, ids, now) => MergeMeets(w.state.slot, id, ids, now);
    case FinalClear(_, _) =>
      if w.state.slot.Present? {
        MergeIdsFacts(w.state.slot.intent.identities, Children(w.state));
      }
    case _ =>
  }

  lemma {:induction false} AddedPrefix(w: World, events: seq<Event>, k: nat)
    requires k < |events| - 1
    ensures Added(w, events, k) == Added(w, events[..|events| - 1], k)
  {
    var init := events[..|events| - 1];
    assert init[..k] == events[..k] && init[..k + 1] == events[..k + 1];
  }

  /** What the intent holds now it held at `from`, or it was added since. */
  lemma {:induction false} HeldOrAdded(w: World, events: seq<Event>, from: nat, identity: Identity)
    requires from <= |events| && identity in Identities(Run(w, events))
    ensures identity in Identities(Run(w, events[..from])) || exists k :: from <= k < |events| && identity in Added(w, events, k)
  {
    assert events[..|events|] == events;
    if from < |events| && identity !in Identities(Run(w, events[..from])) {
      var init := events[..|events| - 1];
      if identity in Identities(Run(w, init)) {
        assert init[..from] == events[..from];
        HeldOrAdded(w, init, from, identity);
        var k :| from <= k < |init| && identity in Added(w, init, k);
        AddedPrefix(w, events, k);
      } else {
        assert identity in Added(w, events, |events| - 1);
      }
    }
  }

  /** In a run that drops nothing, what the intent once held it holds at the end. */
  lemma {:induction false} HeldToTheEnd(w: World, events: seq<Event>, k: nat)
    requires NothingDropped(w, events) && k <= |events|
    ensures Identities(Run(w, events[..k])) <= Identities(Run(w, events))
  {
    if k == |events| {
      assert events[..k] == events;
    } else {
      var init := events[..|events| - 1];
      assert init[..k] == events[..k];
      HeldToTheEnd(w, init, k);
    }
  }

  /** A scan that takes effect leaves exactly what its process had found. */
  lemma ScanWrites(w: World, before: seq<Event>, e: Event)
    requires ValidSlot(w.state.slot) && AllWellFormed(before)
    requires e.MergeScan? && ReadOk(w, before, e) && Open(Run(w, before).state, e.id)
    ensures Identities(Apply(Run(w, before), e)) == Found(Run(w, before[..e.at]))
  {
    var read := Run(w, before[..e.at]);
    RunKeepsValid(w, before[..e.at]);
    MergeIdsFacts(read.state.slot.intent.identities, Children(read.state));
  }

  /** If everything added since the read was found, everything held now was found. */
  lemma AddedWasFound(w: World, before: seq<Event>, from: nat, found: set<Identity>)
    requires from <= |before| && Identities(Run(w, before[..from])) <= found
    requires forall k :: from <= k < |before| ==> Added(w, before, k) <= found
    ensures Identities(Run(w, before)) <= found
  {
    forall x | x in Identities(Run(w, before)) ensures x in found {
      HeldOrAdded(w, before, from, x);
    }
  }

  /** Conversely, as long as nothing is dropped. */
  lemma HeldIsFound(w: World, before: seq<Event>, from: nat, found: set<Identity>)
    requires NothingDropped(w, before) && Identities(Run(w, before)) <= found
    ensures forall k :: from <= k < |before| ==> Added(w, before, k) <= found
  {
    forall k | from <= k < |before| ensures Added(w, before, k) <= found {
      HeldToTheEnd(w, before, k + 1);
    }
  }

  /** A scan that takes effect keeps every identity if what was added since its read it had found; and only
      then, when nothing was dropped so far. */
  lemma ScanKeepsIff(w: World, before: seq<Event>, e: Event)
    requires ValidSlot(w.state.slot) && AllWellFormed(before)
    requires e.MergeScan? && ReadOk(w, before, e) && Open(Run(w, before).state, e.id) && NothingDropped(w, before)
    ensures Identities(Run(w, before)) <= Identities(Apply(Run(w, before), e)) <==> NotOvertaken(w, before, e)
  {
    ScanWrites(w, before, e);
    var found := Found(Run(w, before[..e.at]));
    if NotOvertaken(w, before, e) {
      AddedWasFound(w, before, e.at, found);
    }
    if Identities(Run(w, before)) <= found {
      HeldIsFound(w, before, e.at, found);
    }
  }

  /** A run of processes that read before they write drops no identity if and only if no scan is overtaken:
      everything added between its read and its write was in the intent or in a ledger when it read. */
  lemma {:induction false} NothingDroppedIff(w: World, events: seq<Event>)
    requires ValidSlot(w.state.slot) && AllWellFormed(events) && AllRead(w, events)
    ensures NothingDropped(w, events) <==> NoneOvertaken(w, events)
  {
    if events != [] {
      var init, e := events[..|events| - 1], events[|events| - 1];
      NothingDroppedIff(w, init);
      RunKeepsValid(w, init);
      if NothingDropped(w, init) {
        if e.MergeScan? && Open(Run(w, init).state, e.id) {
          ScanKeepsIff(w, init, e);
        } else {
          OtherStepsKeep(Run(w, init), e);
        }
      }
    }
  }

  /** When no scan is overtaken, an identity the intent holds at any time is still there at the end. */
  lemma IdentitiesOnlyGrow(w: World, events: seq<Event>, k: nat)
    requires ValidSlot(w.state.slot) && AllWellFormed(events) && AllRead(w, events) && NoneOvertaken(w, events) && k <= |events|
    ensures Identities(Run(w, events[..k])) <= Identities(Run(w, events))
  {
    NothingDroppedIff(w, events);
    HeldToTheEnd(w, events, k);
  }

  /** Then a completed run saw every group absent at one instant, for every identity ever requested. */
  lemma NothingForgotten(w: World, events: seq<Event>, k: nat, identity: Identity)
    requires ValidSlot(w.state.slot) && AllWellFormed(events) && AllRead(w, events) && NoneOvertaken(w, events) && k <= |events|
    requires !IsCompleted(w) && IsCompleted(Run(w, events)) && identity in Identities(Run(w, events[..k]))
    ensures exists c: nat :: c < |events| && ClearedAt(w, events, c)
                             && identity.pgid !in Run(w, events[..c]).host.groups
  {
    CompletedRunWasQuiet(w, events);
    var c: nat :| c < |events| && ClearedAt(w, events, c);
    IdentitiesOnlyGrow(w, events, k);
    assert identity in Identities(Run(w, events));
  }

  lemma RunFour(w: World, a: Event, b: Event, c: Event, d: Event)
    ensures Run(w, [a, b, c, d]) == Apply(Apply(Apply(Apply(w, a), b), c), d)
    ensures Run(w, [a, b, c, d][..1]) == Apply(w, a)
  {
    RunSnoc(w, [], a);
    RunSnoc(w, [a], b);
    RunSnoc(w, [a, b], c);
    RunSnoc(w, [a, b, c], d);
    assert [a, b, c, d][..1] == [] + [a];
    assert [a] + [b] == [a, b];
    assert [a, b] + [c] == [a, b, c];
    assert [a, b, c] + [d] == [a, b, c, d];
  }

  /** An intent for `a` with `c` in a ledger, while the group of `b` is alive. */
  function Scene(a: Identity, b: Identity, c: Identity, now: int): World {
    World(State(Present(Intent(1, Pending, [a], 0, 1, now, None)), [], [Exact(c)], None, None, None, true, true, None),
          Host({b.pgid}, {}, None))
  }

  lemma SceneChildren(s: State, c: Identity)
    requires s.refinement == [] && s.active == [Exact(c)] && s.child.None?
    ensures Children(s) == [c] && LedgerValid(s)
  {
    assert s.refinement + s.active + [] == [Exact(c)];
    assert Exacts([Exact(c)]) == [c];
    assert MergeIds([], [c]) == [c];
  }

  lemma SceneMerges(a: Identity, b: Identity, c: Identity, now: int)
    requires a != b && a != c
    ensures var w := Scene(a, b, c, now);
            && MergeIds([a], Children(w.state)) == [a, c]
            && Apply(w, OperatorMerge(2, [b], now)).state == w.state.(slot := Present(w.state.slot.intent.(identities := [a, b])))
  {
    SceneChildren(Scene(a, b, c, now).state, c);
    assert MergeIds([a], [c]) == [a, c];
    assert MergeIds([a], [b]) == [a, b];
  }

  /** After the scan nothing names `b` any more, and the intent completes. */
  lemma SceneCompletes(w: World, a: Identity, b: Identity, c: Identity, now: int)
    requires a != c && b.pgid != a.pgid && b.pgid != c.pgid && w.host == Host({b.pgid}, {}, None)
    requires w.state.slot == Present(Intent(1, Pending, [a, c], 0, 1, now, None))
    requires w.state.refinement == [] && w.state.active == [Exact(c)] && w.state.child.None?
    requires w.state.controller.None? && w.state.controllerPid.None?
    ensures var v := Apply(Apply(w, Quiesce(1)), FinalClear(1, now)); IsCompleted(v) && v.host == w.host
  {
    SceneChildren(w.state, c);
    var u := Apply(w, Quiesce(1));
    assert u.state.slot == Present(Intent(1, Quiescent, [a, c], 0, 1, now, None));
    SceneChildren(u.state, c);
    assert MergeIds([a, c], [c]) == [a, c];
  }

  lemma SceneReads(w: World, request: Event, scan: Event, now: int)
    requires request.OperatorMerge? && scan.MergeScan? && scan.at == 0 && ReadOk(w, [], scan)
    ensures AllRead(w, [request, scan, Quiesce(1), FinalClear(1, now)])
  {
    ReadSnoc(w, [], request);
    ReadSnoc(w, [request], scan);
    ReadSnoc(w, [request, scan], Quiesce(1));
    ReadSnoc(w, [request, scan, Quiesce(1)], FinalClear(1, now));
    assert [] + [request] == [request] && [request] + [scan] == [request, scan];
    assert [request, scan] + [Quiesce(1)] == [request, scan, Quiesce(1)];
    assert [request, scan, Quiesce(1)] + [FinalClear(1, now)] == [request, scan, Quiesce(1), FinalClear(1, now)];
    assert [request][..0] == [];
  }

  lemma AddedFirst(w: World, request: Event)
    ensures Run(w, [request]) == Apply(w, request)
    ensures Added(w, [request], 0) == Identities(Apply(w, request)) - Identities(w)
  {
    RunSnoc(w, [], request);
    assert [] + [request] == [request] && [request][..1] == [request] && [request][..0] == [];
  }

  /** A request that is not found when the scan reads overtakes it. */
  lemma RequestOvertakes(w: World, request: Event, scan: Event, b: Identity)
    requires scan.MergeScan? && scan.at == 0 && Open(Apply(w, request).state, scan.id)
    requires b in Identities(Apply(w, request)) && b !in Found(w)
    ensures !NotOvertaken(w, [request], scan)
  {
    AddedFirst(w, request);
    var before := [request];
    assert before[..scan.at] == [];
    var found := Found(Run(w, []));
    assert found == Found(w);
    assert b in Added(w, before, 0) && !(Added(w, before, 0) <= found);
  }

  /** Without that, a request can be lost: it arrives between the read and the write of a scan, the write
      drops it, and the intent completes while its group is alive. */
  lemma OvertakenScanLosesIdentity(a: Identity, b: Identity, c: Identity, now: int)
    requires a != b && a != c && b != c && b.pgid != a.pgid && b.pgid != c.pgid
    ensures var w := Scene(a, b, c, now);
            var request, scan := OperatorMerge(2, [b], now), MergeScan(1, MergeIds([a], Children(w.state)), now, 0);
            var events := [request, scan, Quiesce(1), FinalClear(1, now)];
            && AllWellFormed(events) && AllRead(w, events) && !NotOvertaken(w, [request], scan)
            && Run(w, events[..1]).state.slot == Present(w.state.slot.intent.(identities := [a, b]))
            && IsCompleted(Run(w, events)) && b.pgid in Run(w, events).host.groups
  {
    var w := Scene(a, b, c, now);
    SceneMerges(a, b, c, now);
    var request, scan := OperatorMerge(2, [b], now), MergeScan(1, [a, c], now, 0);
    RunFour(w, request, scan, Quiesce(1), FinalClear(1, now));
    SceneCompletes(Apply(Apply(w, request), scan), a, b, c, now);
    assert ReadOk(w, [], scan);
    SceneReads(w, request, scan, now);
    SceneChildren(w.state, c);
    RequestOvertakes(w, request, scan, b);
  }

  // ---------------------------------------------------------------- backoff

  /** Failures one after the other, each with its own reason and time. */
  function FailAll(s: State, id: nat, failures: seq<(Reason, int)>): State {
    if failures == [] then s
    else
      var last := failures[|failures| - 1];
      Failed(FailAll(s, id, failures[..|failures| - 1]), id, last.0, last.1)
  }

  /** After `n` failures from a fresh scan the attempt is `n`, every fifth one opened an epoch, and the
      next try waits from the last failure on for the delay of that epoch. */
  lemma {:induction false} BackoffAfter(s: State, id: nat, failures: seq<(Reason, int)>)
    requires Open(s, id) && s.slot.intent.attempt == 0 && s.slot.intent.epoch >= 1
    ensures var t, n := FailAll(s, id, failures), |failures|;
            && Open(t, id) && t.slot.intent.attempt == n
            && t.slot.intent.epoch == s.slot.intent.epoch + n / 5
            && t.slot.intent.identities == s.slot.intent.identities
            && (n > 0 ==>
                  && t.slot.intent.notBefore == failures[n - 1].1 + Min(30000, 250 * Pow2(s.slot.intent.epoch + n / 5 - 1))
                  && t.slot.intent.error == Some(failures[n - 1].0))
  {
    if failures != [] {
      BackoffAfter(s, id, failures[..|failures| - 1]);
      NextFifth(|failures| - 1);
      SevenDoublings(s.slot.intent.epoch + |failures| / 5 - 1);
    }
  }

  /** The delay never shrinks with the epoch and stays between a quarter second and half a minute. */
  lemma DelayBounds(e: int, f: int)
    requires e <= f
    ensures 250 <= RetryDelay(e) <= RetryDelay(f) <= 30000
  {
    PowersGrow(0, Min(Max(0, e - 1), 7));
    PowersGrow(Min(Max(0, e - 1), 7), Min(Max(0, f - 1), 7));
  }
}
