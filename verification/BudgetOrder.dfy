/**
 The order of rollover receipts.  A consumer that reads no pending scheduled receipt, or only the one it
 has just written, consumes in order; for any other read there is a run in which the same consumer, seeing
 the same state, writes its receipt before the scheduled one.
 */
module BudgetOrder {
  import opened Basics
  import opened BudgetRollover

  // ---------------------------------------------------------------- order

  predicate OrderedAt(w: World, j: nat)
    requires j < |w.journal|
  {
    w.journal[j].kind.Consumed? && w.journal[j].intent in w.recorded ==>
      HasReceipt(w.journal[..j], Scheduled, w.journal[j].intent)
  }

  /** The scheduled receipt of every recorded intent precedes its consumed receipt. */
  predicate Ordered(w: World) {
    forall j: nat {:trigger OrderedAt(w, j)} :: j < |w.journal| ==> OrderedAt(w, j)
  }

  /** The scheduled receipt of every recorded intent that was consumed is written. */
  predicate ConsumedKnown(w: World) {
    forall i {:trigger HasReceipt(w.journal, Scheduled, i)} :: i in w.consumed && i in w.recorded ==> HasReceipt(w.journal, Scheduled, i)
  }

  /** A consumption that takes effect finds the scheduled receipt of its intent already written, or the
      intent was scheduled without a recorder. */
  predicate Clean(w: World, e: Event) {
    e.Consume? && Consumable(w.state, e.id, e.epoch) && e.id in w.recorded ==> HasReceipt(w.journal, Scheduled, e.id)
  }

  lemma HasReceiptLater(journal: seq<Receipt>, later: seq<Receipt>, kind: Kind, id: nat)
    requires HasReceipt(journal, kind, id) && (forall r :: r in journal ==> r in later)
    ensures HasReceipt(later, kind, id)
  {
    var r :| r in journal && r.kind == kind && r.intent == id;
    assert r in later;
  }

  lemma StepKeepsOrder(w: World, e: Event)
    requires Inv(w) && Allowed(w, e) && Ordered(w) && ConsumedKnown(w) && Clean(w, e)
    ensures Ordered(Apply(w, e)) && ConsumedKnown(Apply(w, e))
  {
    var v := Apply(w, e);
    forall j: nat | j < |v.journal| ensures OrderedAt(v, j) {
      var r := v.journal[j];
      if j < |w.journal| {
        assert OrderedAt(w, j);
        assert v.journal[..j] == w.journal[..j];
        assert r in w.journal;
        assert IssuedFor(w, r);
      } else {
        assert v.journal[..j] == w.journal;
        assert IssuedFor(w, r);
      }
    }
    forall i | i in v.consumed && i in v.recorded ensures HasReceipt(v.journal, Scheduled, i) {
      if i in w.consumed {
        assert i in ToSet(w.consumed);
        HasReceiptLater(w.journal, v.journal, Scheduled, i);
      }
    }
  }

  /** An unclean consumption and its receipt, written at once, break the order. */
  lemma UncleanBreaksOrder(w: World, id: nat, epoch: nat, at: nat, wrote: Option<nat>)
    requires Inv(w) && !Clean(w, Consume(id, epoch, true, at, wrote))
    ensures var v := Apply(w, Consume(id, epoch, true, at, wrote));
            Allowed(v, Emit(ConsumedReceipt(id, epoch))) && !Ordered(Apply(v, Emit(ConsumedReceipt(id, epoch))))
  {
    var u := Apply(Apply(w, Consume(id, epoch, true, at, wrote)), Emit(ConsumedReceipt(id, epoch)));
    assert u.journal[..|w.journal|] == w.journal;
    assert !OrderedAt(u, |w.journal|);
  }

  // ---------------------------------------------------------------- the guard

  /** What a consumer can check in the state it read: no scheduled receipt is pending, or it is the one
      whose receipt this consumer has written. */
  predicate Guarded(s: State, wrote: Option<nat>) {
    s.scheduledPending.Some? ==> wrote == Some(s.scheduledPending.value.intent)
  }

  predicate GuardOk(w: World, before: seq<Event>, e: Event) {
    e.Consume? && e.at <= |before| ==> Guarded(Run(w, before[..e.at]).state, e.wrote)
  }

  predicate AllGuarded(w: World, events: seq<Event>) {
    events != [] ==>
      var init := events[..|events| - 1];
      AllGuarded(w, init) && GuardOk(w, init, events[|events| - 1])
  }

  /** The intent id is drawn, and its scheduled receipt is written unless it never had a recorder. */
  predicate Receiptable(w: World, id: nat) {
    id in w.used && (id !in w.recorded || HasReceipt(w.journal, Scheduled, id))
  }

  lemma StepKeepsReceiptable(w: World, e: Event, id: nat)
    requires Allowed(w, e) && Receiptable(w, id)
    ensures Receiptable(Apply(w, e), id)
  {
    if HasReceipt(w.journal, Scheduled, id) {
      HasReceiptLater(w.journal, Apply(w, e).journal, Scheduled, id);
    }
  }

  lemma {:induction false} ReceiptableLater(w: World, events: seq<Event>, k: nat, id: nat)
    requires AllAllowed(w, events) && k <= |events| && Receiptable(Run(w, events[..k]), id)
    ensures Receiptable(Run(w, events), id)
  {
    if k == |events| {
      assert events[..k] == events;
    } else {
      var init := events[..|events| - 1];
      assert init[..k] == events[..k];
      ReceiptableLater(w, init, k, id);
      StepKeepsReceiptable(Run(w, init), events[|events| - 1], id);
    }
  }

  lemma {:induction false} AllowedPrefix(w: World, events: seq<Event>, k: nat)
    requires AllAllowed(w, events) && k <= |events|
    ensures AllAllowed(w, events[..k])
  {
    if k == |events| {
      assert events[..k] == events;
    } else {
      var init := events[..|events| - 1];
      assert init[..k] == events[..k];
      AllowedPrefix(w, init, k);
    }
  }

  /** However late a guarded consumption comes, it is clean. */
  lemma GuardedIsClean(w: World, before: seq<Event>, e: Event)
    requires Inv(w) && AllAllowed(w, before) && e.Consume? && ReadOk(w, before, e) && GuardOk(w, before, e)
    ensures Clean(Run(w, before), e)
  {
    AllowedPrefix(w, before, e.at);
    RunKeepsInv(w, before[..e.at]);
    assert Receiptable(Run(w, before[..e.at]), e.id);
    ReceiptableLater(w, before, e.at, e.id);
  }

  /** In every run whose consumers are guarded, receipts are in order. */
  lemma {:induction false} ReceiptsInOrder(w: World, events: seq<Event>)
    requires Inv(w) && Ordered(w) && ConsumedKnown(w)
    requires AllAllowed(w, events) && AllRead(w, events) && AllGuarded(w, events)
    ensures Ordered(Run(w, events)) && ConsumedKnown(Run(w, events))
  {
    if events != [] {
      var init, last := events[..|events| - 1], events[|events| - 1];
      ReceiptsInOrder(w, init);
      RunKeepsInv(w, init);
      if last.Consume? {
        GuardedIsClean(w, init, last);
      }
      StepKeepsOrder(Run(w, init), last);
    }
  }

  // ---------------------------------------------------------------- the guard is exact

  /** A scheduled receipt of the intent. */
  predicate Announces(r: Receipt, id: nat) {
    r.kind.Scheduled? && r.intent == id
  }

  function Strip(journal: seq<Receipt>, id: nat): seq<Receipt> {
    if journal == [] then []
    else Strip(journal[..|journal| - 1], id) + if Announces(journal[|journal| - 1], id) then [] else [journal[|journal| - 1]]
  }

  lemma {:induction false} StripMembers(journal: seq<Receipt>, id: nat, r: Receipt)
    ensures r in Strip(journal, id) <==> r in journal && !Announces(r, id)
  {
    if journal != [] {
      StripMembers(journal[..|journal| - 1], id, r);
      assert journal == journal[..|journal| - 1] + [journal[|journal| - 1]];
    }
  }

  lemma StripSnoc(journal: seq<Receipt>, id: nat, r: Receipt)
    ensures Strip(journal + [r], id) == if Announces(r, id) then Strip(journal, id) else Strip(journal, id) + [r]
  {
    assert (journal + [r])[..|journal|] == journal;
    assert Strip(journal, id) + [] == Strip(journal, id);
  }

  /** Steps that only write or clear the scheduled receipt of `id`, and consumptions without effect. */
  predicate Silent(w: World, e: Event, id: nat) {
    || (e.Emit? && Announces(e.receipt, id))
    || (e.Clear? && Announces(e.receipt, id))
    || (e.Consume? && !Consumable(w.state, e.id, e.epoch))
  }

  /** The run without its silent steps; reads keep their place in it. */
  function Without(w: World, events: seq<Event>, id: nat): (r: seq<Event>)
    ensures |r| <= |events|
    decreases |events|
  {
    if events == [] then []
    else
      var init, e := events[..|events| - 1], events[|events| - 1];
      var r := Without(w, init, id);
      if Silent(Run(w, init), e, id) then r
      else if e.Consume? && e.at <= |init| then r + [e.(at := |Without(w, init[..e.at], id)|)]
      else r + [e]
  }

  lemma {:induction false} WithoutPrefix(w: World, events: seq<Event>, k: nat, id: nat)
    requires k <= |events|
    ensures |Without(w, events[..k], id)| <= |Without(w, events, id)|
    ensures Without(w, events, id)[..|Without(w, events[..k], id)|] == Without(w, events[..k], id)
  {
    if k == |events| {
      assert events[..k] == events;
    } else {
      var init := events[..|events| - 1];
      assert init[..k] == events[..k];
      WithoutPrefix(w, init, k, id);
      var r, s, p := Without(w, events, id), Without(w, init, id), Without(w, events[..k], id);
      assert |r| >= |s| && r[..|s|] == s;
      assert r[..|p|] == s[..|p|];
    }
  }

  /** The intent is yet to come, or outstanding with its scheduled receipt still pending. */
  predicate Awaited(w: World, id: nat) {
    id !in w.used
    || (w.state.intent == Some(id) && w.state.scheduledPending.Some? && w.state.scheduledPending.value.intent == id)
  }

  /** What the run without the silent steps makes of the world. */
  function Unwritten(w: World, id: nat): World {
    w.(journal := Strip(w.journal, id))
  }

  lemma AwaitedBefore(w: World, e: Event, id: nat)
    requires Allowed(w, e) && Awaited(Apply(w, e), id)
    ensures Awaited(w, id)
  {
  }

  lemma SilentStep(w: World, e: Event, id: nat)
    requires Inv(w) && Allowed(w, e) && Silent(w, e, id) && Awaited(Apply(w, e), id)
    ensures Unwritten(Apply(w, e), id) == Unwritten(w, id)
  {
    match e
    case Emit(r) => StripSnoc(w.journal, id, r);
    case Clear(r) => assert IssuedFor(w, r);
    case _ =>
  }

  lemma LoudStep(w: World, e: Event, id: nat)
    requires Inv(w) && Allowed(w, e) && !Silent(w, e, id)
    ensures Allowed(Unwritten(w, id), e) && Unwritten(Apply(w, e), id) == Apply(Unwritten(w, id), e)
  {
    match e
    case Emit(r) => StripSnoc(w.journal, id, r);
    case Clear(r) => StripMembers(w.journal, id, r);
    case _ =>
  }

  /** Leaving the silent steps out is another run of the same processes, to the same state. */
  lemma {:induction false} WithoutRuns(w: World, events: seq<Event>, id: nat)
    requires Inv(w) && w.journal == [] && AllAllowed(w, events) && AllRead(w, events)
    requires Awaited(Run(w, events), id)
    ensures var r := Without(w, events, id);
            AllAllowed(w, r) && AllRead(w, r) && Run(w, r) == Unwritten(Run(w, events), id)
    decreases |events|, 0
  {
    if events != [] {
      var init, e := events[..|events| - 1], events[|events| - 1];
      var v, r := Run(w, init), Without(w, init, id);
      RunKeepsInv(w, init);
      AwaitedBefore(v, e, id);
      WithoutRuns(w, init, id);
      if Silent(v, e, id) {
        SilentStep(v, e, id);
      } else {
        var f := Without(w, events, id)[|r|];
        LoudStep(v, e, id);
        RunSnoc(w, r, f);
        ReadSnoc(w, r, f);
        if e.Consume? {
          RemappedRead(w, init, e, id);
        }
      }
    }
  }

  lemma {:induction false} AwaitedPrefix(w: World, events: seq<Event>, k: nat, id: nat)
    requires k <= |events| && AllAllowed(w, events) && Awaited(Run(w, events), id)
    ensures Awaited(Run(w, events[..k]), id)
    ensures Run(w, events[..k]).used <= Run(w, events).used
  {
    if k == |events| {
      assert events[..k] == events;
    } else {
      var init := events[..|events| - 1];
      assert init[..k] == events[..k];
      AwaitedBefore(Run(w, init), events[|events| - 1], id);
      AwaitedPrefix(w, init, k, id);
    }
  }

  lemma {:induction false} ReadPrefix(w: World, events: seq<Event>, k: nat)
    requires AllRead(w, events) && k <= |events|
    ensures AllRead(w, events[..k])
  {
    if k == |events| {
      assert events[..k] == events;
    } else {
      var init := events[..|events| - 1];
      assert init[..k] == events[..k];
      ReadPrefix(w, init, k);
    }
  }

  /** A receipt of another intent survives the stripping, one of an awaited intent was never there before
      the intent was drawn. */
  lemma OtherReceiptKept(w: World, id: nat, other: nat)
    requires Inv(w) && HasReceipt(w.journal, Scheduled, other) && other != id
    ensures HasReceipt(Strip(w.journal, id), Scheduled, other)
  {
    var r :| r in w.journal && r.kind == Scheduled && r.intent == other;
    StripMembers(w.journal, id, r);
  }

  /** Both worlds show the consumer what it claims to have read. */
  predicate ReadKept(v: World, u: World, e: Event)
    requires e.Consume?
  {
    && u.state == v.state
    && (e.wrote.Some? ==> HasReceipt(u.journal, Scheduled, e.wrote.value))
  }

  lemma RemappedRead(w: World, init: seq<Event>, e: Event, id: nat)
    requires Inv(w) && w.journal == [] && AllAllowed(w, init) && AllRead(w, init) && e.Consume? && ReadOk(w, init, e)
    requires Awaited(Apply(Run(w, init), e), id) && Consumable(Run(w, init).state, e.id, e.epoch)
    ensures ReadOk(w, Without(w, init, id), e.(at := |Without(w, init[..e.at], id)|))
    decreases |init|, 1
  {
    var p := init[..e.at];
    AwaitedBefore(Run(w, init), e, id);
    AwaitedPrefix(w, init, e.at, id);
    AllowedPrefix(w, init, e.at);
    ReadPrefix(w, init, e.at);
    WithoutRuns(w, p, id);
    WithoutPrefix(w, init, e.at, id);
    RunKeepsInv(w, p);
    var v := Run(w, p);
    if e.wrote.Some? {
      var r :| r in v.journal && r.kind == Scheduled && r.intent == e.wrote.value;
      assert IssuedFor(v, r);
      OtherReceiptKept(v, id, e.wrote.value);
    }
    assert ReadKept(v, Unwritten(v, id), e);
  }

  /** Reads that look the same to a consumer: the state, and the receipt it has written. */
  predicate SameRead(v: World, s: State, wrote: Option<nat>) {
    v.state == s && (wrote.Some? ==> HasReceipt(v.journal, Scheduled, wrote.value))
  }

  /** The run `fs` brings the consumer to the read, and after `more` it consumes uncleanly. */
  ghost predicate Betrays(w: World, fs: seq<Event>, more: seq<Event>, s: State, id: nat, wrote: Option<nat>) {
    && AllAllowed(w, fs + more) && AllRead(w, fs + more) && SameRead(Run(w, fs), s, wrote)
    && !Clean(Run(w, fs + more), Consume(id, s.epoch, true, |fs|, wrote))
  }

  /** The guard is the weakest condition on the read: it holds exactly when no run in which the consumer
      reads the same leads to an unclean consumption. */
  lemma GuardIsExact(w: World, es: seq<Event>, id: nat, wrote: Option<nat>)
    requires Inv(w) && w.journal == [] && AllAllowed(w, es) && AllRead(w, es)
    requires var v := Run(w, es); SameRead(v, v.state, wrote) && Consumable(v.state, id, v.state.epoch)
    requires id !in w.used
    ensures var s := Run(w, es).state;
            Guarded(s, wrote) <==> !exists fs, more :: Betrays(w, fs, more, s, id, wrote)
  {
    var v := Run(w, es);
    if Guarded(v.state, wrote) {
      forall fs, more ensures !Betrays(w, fs, more, v.state, id, wrote) {
        if AllAllowed(w, fs + more) && SameRead(Run(w, fs), v.state, wrote) {
          assert (fs + more)[..|fs|] == fs;
          GuardedIsClean(w, fs + more, Consume(id, v.state.epoch, true, |fs|, wrote));
        }
      }
    } else {
      UnguardedBreaksOrder(w, es, id, wrote);
      var fs := Without(w, es, id);
      assert fs + [] == fs;
      assert Betrays(w, fs, [], v.state, id, wrote);
    }
  }

  /** Without the guard, the consumer consumes and writes before the scheduled receipt in a run it cannot
      tell from its own. */
  lemma UnguardedBreaksOrder(w: World, es: seq<Event>, id: nat, wrote: Option<nat>)
    requires Inv(w) && w.journal == [] && AllAllowed(w, es) && AllRead(w, es) && id !in w.used
    requires var v := Run(w, es); SameRead(v, v.state, wrote) && Consumable(v.state, id, v.state.epoch) && !Guarded(v.state, wrote)
    ensures var s, fs := Run(w, es).state, Without(w, es, id);
            var c := Consume(id, s.epoch, true, |fs|, wrote);
            var run := fs + [c] + [Emit(ConsumedReceipt(id, s.epoch))];
            && AllAllowed(w, run) && AllRead(w, run) && SameRead(Run(w, fs), s, wrote)
            && !Clean(Run(w, fs), c) && !Ordered(Run(w, run))
  {
    var v, fs := Run(w, es), Without(w, es, id);
    RunKeepsInv(w, es);
    WithoutRuns(w, es, id);
    var u := Run(w, fs);
    RunKeepsInv(w, fs);
    if wrote.Some? {
      OtherReceiptKept(v, id, wrote.value);
    }
    assert IssuedFor(v, v.state.scheduledPending.value);
    assert !HasReceipt(u.journal, Scheduled, id) by {
      if HasReceipt(u.journal, Scheduled, id) {
        var r :| r in u.journal && r.kind == Scheduled && r.intent == id;
        StripMembers(v.journal, id, r);
      }
    }
    var c, m := Consume(id, v.state.epoch, true, |fs|, wrote), Emit(ConsumedReceipt(id, v.state.epoch));
    assert fs[..|fs|] == fs;
    RunSnoc(w, fs, c);
    ReadSnoc(w, fs, c);
    RunSnoc(w, fs + [c], m);
    ReadSnoc(w, fs + [c], m);
    UncleanBreaksOrder(u, id, v.state.epoch, |fs|, wrote);
  }

  // ---------------------------------------------------------------- a race

  function FirstReceipt(): Receipt {
    Receipt(Scheduled, 1, 1, Delay(1), 0)
  }

  /** Consumers A and B both read the first intent with its receipt pending.  Both write it; B clears it,
      reads again, consumes the intent and settles its own receipt.  A scheduler opens the second epoch.
      A clears in vain, reads again, finds the second intent, and consumes it. */
  lemma RaceEvents(minutes: int) returns (e: seq<Event>)
    ensures |e| == 12 && e[0] == Schedule(1, MaxTime, 0, true)
    ensures e[1] == Emit(FirstReceipt()) && e[2] == Emit(FirstReceipt()) && e[3] == Clear(FirstReceipt())
    ensures e[4] == Consume(1, 1, true, 4, Some(1)) && e[5] == Emit(ConsumedReceipt(1, 1))
    ensures e[6] == Clear(ConsumedReceipt(1, 1)) && e[7] == Others(true, Other, 0, 0, minutes)
    ensures e[8] == Schedule(2, MaxTime, 0, true) && e[9] == Clear(FirstReceipt())
    ensures e[10] == Consume(2, 2, true, 10, Some(1)) && e[11] == Emit(ConsumedReceipt(2, 2))
  {
    e := [Schedule(1, MaxTime, 0, true), Emit(FirstReceipt()), Emit(FirstReceipt()), Clear(FirstReceipt()),
          Consume(1, 1, true, 4, Some(1)), Emit(ConsumedReceipt(1, 1)), Clear(ConsumedReceipt(1, 1)),
          Others(true, Other, 0, 0, minutes), Schedule(2, MaxTime, 0, true), Clear(FirstReceipt()),
          Consume(2, 2, true, 10, Some(1)), Emit(ConsumedReceipt(2, 2))];
  }

  /** Where a run stands after its first `k` steps. */
  predicate Stands(w: World, events: seq<Event>, k: nat, v: World)
    requires k <= |events|
  {
    Run(w, events[..k]) == v && AllAllowed(w, events[..k]) && AllRead(w, events[..k])
  }

  lemma StandsNext(w: World, events: seq<Event>, k: nat, v: World)
    requires k < |events| && Stands(w, events, k, v) && Allowed(v, events[k]) && ReadOk(w, events[..k], events[k])
    ensures Stands(w, events, k + 1, Apply(v, events[k]))
  {
    RunSnoc(w, events[..k], events[k]);
    ReadSnoc(w, events[..k], events[k]);
    assert events[..k + 1] == events[..k] + [events[k]];
  }

  /** The first schedule. */
  lemma RaceOpens(w: World, e: seq<Event>, minutes: int) returns (first: World)
    requires w == Fresh(0, 0, minutes) && |e| == 12 && e[0] == Schedule(1, MaxTime, 0, true)
    ensures Stands(w, e, 1, first) && first.state.scheduledPending == Some(FirstReceipt()) && FirstReceipt() in first.issued
    ensures Consumable(first.state, 1, 1) && first.journal == [] && first.used == {1} && first.recorded == {1}
  {
    assert e[..0] == [];
    StandsNext(w, e, 0, w);
    first := Apply(w, e[0]);
  }

  /** Both write the receipt, and B clears it. */
  lemma RaceWrites(w: World, e: seq<Event>, first: World) returns (v: World)
    requires |e| == 12 && e[1] == Emit(FirstReceipt()) && e[2] == Emit(FirstReceipt()) && e[3] == Clear(FirstReceipt())
    requires Stands(w, e, 1, first) && first.state.scheduledPending == Some(FirstReceipt()) && FirstReceipt() in first.issued
    requires Consumable(first.state, 1, 1) && first.journal == [] && first.used == {1} && first.recorded == {1}
    ensures Stands(w, e, 4, v) && Consumable(v.state, 1, 1) && v.state.scheduledPending.None?
    ensures v.journal == [FirstReceipt(), FirstReceipt()] && v.used == {1} && v.recorded == {1}
  {
    v := first;
    StandsNext(w, e, 1, v);
    v := Apply(v, e[1]);
    StandsNext(w, e, 2, v);
    v := Apply(v, e[2]);
    StandsNext(w, e, 3, v);
    v := Apply(v, e[3]);
  }

  /** B's consumption. */
  lemma RaceConsumes(w: World, e: seq<Event>, fourth: World) returns (v: World)
    requires |e| == 12 && e[4] == Consume(1, 1, true, 4, Some(1))
    requires Stands(w, e, 4, fourth) && Consumable(fourth.state, 1, 1)
    requires fourth.journal == [FirstReceipt(), FirstReceipt()] && fourth.used == {1} && fourth.recorded == {1}
    ensures Stands(w, e, 5, v) && v.state.active && !IsCancelled(v.state) && v.state.intent.None? && v.state.epoch == 1
    ensures v.state.consumedPending == Some(ConsumedReceipt(1, 1)) && ConsumedReceipt(1, 1) in v.issued
    ensures v.journal == fourth.journal && v.used == {1} && v.recorded == {1}
  {
    assert e[..4][..4] == e[..4];
    assert FirstReceipt() in fourth.journal;
    StandsNext(w, e, 4, fourth);
    v := Apply(fourth, e[4]);
  }

  /** B's receipt, and another run of the session. */
  lemma RaceTurns(w: World, e: seq<Event>, minutes: int, fifth: World) returns (v: World)
    requires |e| == 12 && e[5] == Emit(ConsumedReceipt(1, 1))
    requires e[6] == Clear(ConsumedReceipt(1, 1)) && e[7] == Others(true, Other, 0, 0, minutes)
    requires Stands(w, e, 5, fifth) && fifth.state.active && !IsCancelled(fifth.state) && fifth.state.intent.None? && fifth.state.epoch == 1
    requires fifth.state.consumedPending == Some(ConsumedReceipt(1, 1)) && ConsumedReceipt(1, 1) in fifth.issued
    requires fifth.journal == [FirstReceipt(), FirstReceipt()] && fifth.used == {1} && fifth.recorded == {1}
    ensures Stands(w, e, 8, v) && Schedulable(v.state) && v.state.epoch == 1 && v.state.consumedPending.None?
    ensures v.journal == [FirstReceipt(), FirstReceipt(), ConsumedReceipt(1, 1)] && v.used == {1} && v.recorded == {1}
  {
    v := fifth;
    StandsNext(w, e, 5, v);
    v := Apply(v, e[5]);
    StandsNext(w, e, 6, v);
    v := Apply(v, e[6]);
    StandsNext(w, e, 7, v);
    v := Apply(v, e[7]);
  }

  /** The second epoch, and A's second read. */
  lemma RaceReopens(w: World, e: seq<Event>, eighth: World) returns (v: World)
    requires |e| == 12 && e[8] == Schedule(2, MaxTime, 0, true) && e[9] == Clear(FirstReceipt())
    requires Stands(w, e, 8, eighth) && Schedulable(eighth.state) && eighth.state.epoch == 1 && eighth.state.consumedPending.None?
    requires eighth.journal == [FirstReceipt(), FirstReceipt(), ConsumedReceipt(1, 1)] && eighth.used == {1} && eighth.recorded == {1}
    ensures Stands(w, e, 10, v) && Consumable(v.state, 2, 2) && v.state.consumedPending.None?
    ensures v.state.scheduledPending.Some? && v.state.scheduledPending.value.intent == 2 && 2 in v.recorded
    ensures v.journal == eighth.journal
  {
    assert FirstReceipt() in eighth.journal;
    StandsNext(w, e, 8, eighth);
    v := Apply(eighth, e[8]);
    StandsNext(w, e, 9, v);
    v := Apply(v, e[9]);
  }

  lemma RaceEnds(w: World, e: seq<Event>, tenth: World)
    requires Inv(w) && |e| == 12 && e[10] == Consume(2, 2, true, 10, Some(1)) && e[11] == Emit(ConsumedReceipt(2, 2))
    requires Stands(w, e, 10, tenth) && Consumable(tenth.state, 2, 2) && 2 in tenth.recorded
    requires tenth.journal == [FirstReceipt(), FirstReceipt(), ConsumedReceipt(1, 1)]
    ensures AllAllowed(w, e) && AllRead(w, e) && !Ordered(Run(w, e))
  {
    assert e[..10][..10] == e[..10];
    assert FirstReceipt() in tenth.journal;
    StandsNext(w, e, 10, tenth);
    assert !HasReceipt(tenth.journal, Scheduled, 2);
    RunKeepsInv(w, e[..10]);
    UncleanBreaksOrder(tenth, 2, 2, 10, Some(1));
    StandsNext(w, e, 11, Apply(tenth, e[10]));
    assert e[..12] == e;
  }

  /** The race runs: A's first read shows the first receipt pending, its second one, after it wrote that
      receipt, shows the second receipt pending, so the guard fails; A's consumption puts the consumed
      receipt of the second intent in the journal without the scheduled one. */
  lemma RacingConsumer(minutes: int) returns (e: seq<Event>)
    ensures var w := Fresh(0, 0, minutes);
            && |e| == 12 && AllAllowed(w, e) && AllRead(w, e)
            && Run(w, e[..1]).state.scheduledPending == Some(FirstReceipt()) && e[1] == Emit(FirstReceipt())
            && Run(w, e[..10]).state.intent == Some(2) && Run(w, e[..10]).state.consumedPending.None?
            && e[10] == Consume(2, 2, true, 10, Some(1)) && !GuardOk(w, e[..10], e[10])
            && GuardOk(w, e[..4], e[4])
            && !Ordered(Run(w, e))
  {
    var w := Fresh(0, 0, minutes);
    e := RaceEvents(minutes);
    var first := RaceOpens(w, e, minutes);
    var fourth := RaceWrites(w, e, first);
    var fifth := RaceConsumes(w, e, fourth);
    var eighth := RaceTurns(w, e, minutes, fifth);
    var tenth := RaceReopens(w, e, eighth);
    FreshInv(0, 0, minutes);
    RaceEnds(w, e, tenth);
    assert e[..4][..4] == e[..4];
    assert e[..10][..10] == e[..10];
  }
}
