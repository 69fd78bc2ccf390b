/**
 Recovery from failed deterministic checks: a journal per failure identity that hands out one strategy
 per call, direct ones in table order while a single ticket owns every failed command.
 */
module DeterministicRecovery {
  import opened Basics

  /** The direct strategies in table order. */
  const STRATEGIES := 5

  datatype Strategy = Direct(index: nat) | OwnershipDiagnosis(ordinal: nat) | CrossPhaseDiagnosis(ordinal: nat)

  /** A digest determines what was hashed. */
  datatype Digest = DirectDigest(strategy: Strategy, failure: nat) | DiagnosisDigest(strategy: Strategy, failure: nat, unresolved: seq<Digest>)

  datatype Attempt = Attempt(strategy: Strategy, digest: Digest, ticket: Option<string>)

  datatype Status = Scheduled | DiagnosticScheduled

  datatype Journal = Journal(failure: nat, attempts: seq<Attempt>, status: Status)

  datatype Ticket = Ticket(id: string, commands: set<string>)

  datatype Check = Check(command: string, failed: bool)

  // ---------------------------------------------------------------- ownership

  function Owners(tickets: seq<Ticket>, command: string): (r: seq<Ticket>)
    ensures forall t :: t in r <==> t in tickets && command in t.commands
  {
    if tickets == [] then []
    else (if command in tickets[0].commands then [tickets[0]] else []) + Owners(tickets[1..], command)
  }

  /** The failed commands, each once. */
  function FailedCommands(checks: seq<Check>): (r: seq<string>)
    ensures forall c :: c in r <==> Check(c, true) in checks
    ensures Distinct(r)
  {
    if checks == [] then []
    else
      var rest := FailedCommands(checks[..|checks| - 1]);
      var last := checks[|checks| - 1];
      assert checks == checks[..|checks| - 1] + [last];
      DistinctSnoc(rest, last.command);
      if last.failed && last.command !in rest then rest + [last.command] else rest
  }

  /** The single ticket that alone owns every failed command, if there is one. */
  function ExclusiveOwner(checks: seq<Check>, tickets: seq<Ticket>): Option<string> {
    var failed := FailedCommands(checks);
    if failed == [] || exists c :: c in failed && |Owners(tickets, c)| != 1 then None
    else
      var owner := Owners(tickets, failed[0])[0].id;
      if forall c :: c in failed ==> |Owners(tickets, c)| == 1 && Owners(tickets, c)[0].id == owner then Some(owner)
      else None
  }

  /** Entry `k` of the manifest alone claims the command. */
  predicate SoleAt(tickets: seq<Ticket>, command: string, k: nat) {
    && k < |tickets| && command in tickets[k].commands
    && forall j :: 0 <= j < |tickets| && command in tickets[j].commands ==> j == k
  }

  /** Exactly one manifest entry claims the command, and it carries this id. */
  ghost predicate SoleOwner(tickets: seq<Ticket>, command: string, id: string) {
    exists k: nat :: SoleAt(tickets, command, k) && tickets[k].id == id
  }

  lemma {:induction false} NoOwners(tickets: seq<Ticket>, command: string)
    requires forall j :: 0 <= j < |tickets| ==> command !in tickets[j].commands
    ensures Owners(tickets, command) == []
  {
    if tickets != [] {
      NoOwners(tickets[1..], command);
    }
  }

  lemma {:induction false} SoleIsOwner(tickets: seq<Ticket>, command: string, k: nat)
    requires SoleAt(tickets, command, k)
    ensures Owners(tickets, command) == [tickets[k]]
  {
    var rest := tickets[1..];
    forall j | 0 <= j < |rest| && command in rest[j].commands ensures j + 1 == k {
      assert rest[j] == tickets[j + 1];
    }
    if k == 0 {
      NoOwners(rest, command);
    } else {
      assert rest[k - 1] == tickets[k];
      SoleIsOwner(rest, command, k - 1);
    }
  }

  lemma {:induction false} OwnerIsSole(tickets: seq<Ticket>, command: string) returns (k: nat)
    requires |Owners(tickets, command)| == 1
    ensures SoleAt(tickets, command, k) && Owners(tickets, command) == [tickets[k]]
  {
    var rest := tickets[1..];
    if command in tickets[0].commands {
      k := 0;
      assert Owners(rest, command) == [];
      assert forall i :: 0 <= i < |rest| ==> rest[i] in rest && tickets[i + 1] == rest[i];
      assert forall j :: 0 < j < |tickets| ==> tickets[j] == rest[j - 1] && command !in tickets[j].commands;
    } else {
      k := OwnerIsSole(rest, command);
      k := k + 1;
      forall j | 0 <= j < |tickets| && command in tickets[j].commands ensures j == k {
        assert j > 0 && rest[j - 1] == tickets[j];
      }
    }
  }

  lemma OwnersSingle(tickets: seq<Ticket>, command: string, id: string)
    ensures SoleOwner(tickets, command, id) <==> |Owners(tickets, command)| == 1 && Owners(tickets, command)[0].id == id
  {
    if SoleOwner(tickets, command, id) {
      var k: nat :| SoleAt(tickets, command, k) && tickets[k].id == id;
      SoleIsOwner(tickets, command, k);
    }
    if |Owners(tickets, command)| == 1 && Owners(tickets, command)[0].id == id {
      var k := OwnerIsSole(tickets, command);
    }
  }

  /** A ticket is the exclusive owner exactly when something failed and it is the sole owner of every
      failed command. */
  lemma ExclusiveOwnerIff(checks: seq<Check>, tickets: seq<Ticket>, id: string)
    ensures ExclusiveOwner(checks, tickets) == Some(id) <==>
            (exists c :: c in checks && c.failed) && forall c :: c in checks && c.failed ==> SoleOwner(tickets, c.command, id)
  {
    var failed := FailedCommands(checks);
    forall c ensures SoleOwner(tickets, c, id) <==> |Owners(tickets, c)| == 1 && Owners(tickets, c)[0].id == id {
      OwnersSingle(tickets, c, id);
    }
    forall c | c in checks && c.failed ensures c.command in failed {
      assert c == Check(c.command, true);
    }
    assert failed != [] ==> failed[0] in failed && Check(failed[0], true) in checks;
    assert forall c :: c in failed ==> Check(c, true) in checks;
  }

  // ---------------------------------------------------------------- the journal as a machine

  /** One failed run of the checks, with the exclusive owner of its failed commands. */
  datatype Call = Call(failure: nat, owner: Option<string>)

  function StrategiesOf(attempts: seq<Attempt>): seq<Strategy> {
    seq(|attempts|, i requires 0 <= i < |attempts| => attempts[i].strategy)
  }

  function DigestsOf(attempts: seq<Attempt>): seq<Digest> {
    seq(|attempts|, i requires 0 <= i < |attempts| => attempts[i].digest)
  }

  predicate Used(attempts: seq<Attempt>, s: Strategy) {
    exists a :: a in attempts && a.strategy == s
  }

  /** The first direct strategy not used yet, at or after position `from`. */
  function FirstUnused(attempts: seq<Attempt>, from: nat): (k: nat)
    requires from <= STRATEGIES
    ensures from <= k <= STRATEGIES
    ensures k < STRATEGIES ==> !Used(attempts, Direct(k))
    ensures forall j :: from <= j < k ==> Used(attempts, Direct(j))
    decreases STRATEGIES - from
  {
    if from == STRATEGIES || !Used(attempts, Direct(from)) then from else FirstUnused(attempts, from + 1)
  }

  /** The journal of the same failure, or a new one. */
  function Open(file: Option<Journal>, failure: nat): Journal {
    if file.Some? && file.value.failure == failure then file.value else Journal(failure, [], Scheduled)
  }

  function NextAttempt(j: Journal, owner: Option<string>): Attempt {
    var k := FirstUnused(j.attempts, 0);
    if owner.None? then
      var s := OwnershipDiagnosis(|j.attempts| + 1);
      Attempt(s, DiagnosisDigest(s, j.failure, DigestsOf(j.attempts)), None)
    else if k == STRATEGIES then
      var s := CrossPhaseDiagnosis(|j.attempts| + 1);
      Attempt(s, DiagnosisDigest(s, j.failure, DigestsOf(j.attempts)), owner)
    else
      Attempt(Direct(k), DirectDigest(Direct(k), j.failure), owner)
  }

  function Consumed(file: Option<Journal>, call: Call): Journal {
    var j := Open(file, call.failure);
    var a := NextAttempt(j, call.owner);
    Journal(j.failure, j.attempts + [a], if a.strategy.Direct? then Scheduled else DiagnosticScheduled)
  }

  function Run(file: Option<Journal>, calls: seq<Call>): Option<Journal> {
    if calls == [] then file else Some(Consumed(Run(file, calls[..|calls| - 1]), calls[|calls| - 1]))
  }

  // ---------------------------------------------------------------- what a journal keeps

  function DirectOnes(s: seq<Strategy>): seq<nat> {
    if s == [] then []
    else DirectOnes(s[..|s| - 1]) + if s[|s| - 1].Direct? then [s[|s| - 1].index] else []
  }

  /** Diagnoses carry their own position, and the direct strategies come in table order from the first. */
  predicate Orderly(attempts: seq<Attempt>) {
    && (forall i {:trigger attempts[i]} :: 0 <= i < |attempts| ==>
          match attempts[i].strategy
          case Direct(k) => k < STRATEGIES
          case OwnershipDiagnosis(n) => n == i + 1
          case CrossPhaseDiagnosis(n) => n == i + 1)
    && var d := DirectOnes(StrategiesOf(attempts));
       |d| <= STRATEGIES && d == seq(|d|, i => i)
  }

  lemma {:induction false} DirectOnesMembers(attempts: seq<Attempt>, k: nat)
    ensures k in DirectOnes(StrategiesOf(attempts)) <==> Used(attempts, Direct(k))
  {
    var s := StrategiesOf(attempts);
    if s != [] {
      var init, last := attempts[..|attempts| - 1], attempts[|attempts| - 1];
      assert s[..|s| - 1] == StrategiesOf(init);
      DirectOnesMembers(init, k);
      assert attempts == init + [last];
      if Used(attempts, Direct(k)) {
        var a :| a in attempts && a.strategy == Direct(k);
        assert a in init || a == last;
      }
      if Used(init, Direct(k)) {
        var a :| a in init && a.strategy == Direct(k);
        assert a in attempts;
      }
    }
  }

  /** The next direct strategy is the one after all that were used. */
  lemma FirstUnusedIsNext(attempts: seq<Attempt>)
    requires Orderly(attempts)
    ensures FirstUnused(attempts, 0) == |DirectOnes(StrategiesOf(attempts))|
  {
    var d, k := DirectOnes(StrategiesOf(attempts)), FirstUnused(attempts, 0);
    if k < |d| {
      assert d[k] == k;
      DirectOnesMembers(attempts, k);
    } else if k > |d| {
      DirectOnesMembers(attempts, |d|);
    }
  }

  lemma ConsumeKeepsOrderly(j: Journal, owner: Option<string>)
    requires Orderly(j.attempts)
    ensures Orderly(j.attempts + [NextAttempt(j, owner)])
    ensures var d, e := DirectOnes(StrategiesOf(j.attempts)), DirectOnes(StrategiesOf(j.attempts + [NextAttempt(j, owner)]));
            e == if owner.Some? && |d| < STRATEGIES then d + [|d|] else d
  {
    var a := NextAttempt(j, owner);
    var next := j.attempts + [a];
    FirstUnusedIsNext(j.attempts);
    assert StrategiesOf(next)[..|j.attempts|] == StrategiesOf(j.attempts);
  }

  lemma {:induction false} DirectPositions(attempts: seq<Attempt>, i: nat, j: nat)
    requires Distinct(DirectOnes(StrategiesOf(attempts))) && i < j < |attempts|
    requires attempts[j].strategy.Direct?
    ensures attempts[i].strategy != attempts[j].strategy
  {
    var n := |attempts| - 1;
    var init := attempts[..n];
    var s := StrategiesOf(attempts);
    assert s[..n] == StrategiesOf(init);
    var d := DirectOnes(StrategiesOf(init));
    if s[n].Direct? {
      DistinctSnoc(d, s[n].index);
    } else {
      assert DirectOnes(s) == d;
    }
    if j < n {
      DirectPositions(init, i, j);
    } else {
      DirectOnesMembers(init, s[n].index);
      assert attempts[i] in init;
    }
  }

  /** No strategy, and no digest, is handed out twice for one journal. */
  lemma OrderlyDistinct(attempts: seq<Attempt>)
    requires Orderly(attempts)
    ensures Distinct(StrategiesOf(attempts))
  {
    var s := StrategiesOf(attempts);
    forall i, j | 0 <= i < j < |s| ensures s[i] != s[j] {
      if attempts[j].strategy.Direct? {
        DirectPositions(attempts, i, j);
      }
    }
  }

  /** How many of the calls had an exclusive owner. */
  function Owned(calls: seq<Call>): nat {
    if calls == [] then 0 else Owned(calls[..|calls| - 1]) + if calls[|calls| - 1].owner.Some? then 1 else 0
  }

  /** Over any calls for one failure, with diagnoses interleaved at will, the strategies are pairwise
      distinct and the direct ones are the first of the table, one per owned call until it is used up. */
  lemma {:induction false} CallsHandOutStrategies(failure: nat, calls: seq<Call>)
    requires calls != [] && forall c :: c in calls ==> c.failure == failure
    ensures var j := Run(None, calls);
            && j.Some? && j.value.failure == failure && |j.value.attempts| == |calls|
            && Orderly(j.value.attempts) && Distinct(StrategiesOf(j.value.attempts))
            && |DirectOnes(StrategiesOf(j.value.attempts))| == Min(5, Owned(calls))
  {
    var init, last := calls[..|calls| - 1], calls[|calls| - 1];
    if init != [] {
      CallsHandOutStrategies(failure, init);
    } else {
      assert Owned(init) == 0;
    }
    var j := Open(Run(None, init), failure);
    assert StrategiesOf([]) == [];
    assert last.failure == failure;
    ConsumeKeepsOrderly(j, last.owner);
    OrderlyDistinct(j.attempts + [NextAttempt(j, last.owner)]);
  }

  /** A call for another failure replaces the journal, so the first failure starts over when it returns. */
  lemma OtherFailureRestarts(file: Option<Journal>, a: nat, b: nat, owner: string, other: Option<string>)
    requires a != b
    ensures var back := Run(file, [Call(b, other), Call(a, Some(owner))]);
            back == Some(Journal(a, [Attempt(Direct(0), DirectDigest(Direct(0), a), Some(owner))], Scheduled))
  {
    var calls := [Call(b, other), Call(a, Some(owner))];
    assert calls[..1] == [Call(b, other)];
    assert calls[..1][..0] == [];
    assert Run(file, calls[..1]) == Some(Consumed(file, Call(b, other)));
    assert Run(file, calls) == Some(Consumed(Run(file, calls[..1]), calls[1]));
    var j := Open(Run(file, calls[..1]), a);
    assert j == Journal(a, [], Scheduled);
    assert FirstUnused(j.attempts, 0) == 0;
    assert j.attempts + [NextAttempt(j, Some(owner))] == [Attempt(Direct(0), DirectDigest(Direct(0), a), Some(owner))];
  }

  // ---------------------------------------------------------------- failures that take turns

  /** How many calls in a row, up to call `n`, are for the failure of call `n`. */
  function Place(calls: seq<Call>, n: nat): (k: nat)
    requires n < |calls|
    ensures 1 <= k <= n + 1
  {
    if n > 0 && calls[n - 1].failure == calls[n].failure then Place(calls, n - 1) + 1 else 1
  }

  /** Where the segment of call `n` begins: a maximal stretch of calls for one failure. */
  function Segment(calls: seq<Call>, n: nat): (k: nat)
    requires n < |calls|
    ensures k <= n
  {
    n + 1 - Place(calls, n)
  }

  /** How many owned calls the segment of call `n` has before it. */
  function OwnedBefore(calls: seq<Call>, n: nat): nat
    requires n < |calls|
  {
    if n > 0 && calls[n - 1].failure == calls[n].failure then
      OwnedBefore(calls, n - 1) + if calls[n - 1].owner.Some? then 1 else 0
    else 0
  }

  /** The strategy call `n` is given. */
  function HandedOut(calls: seq<Call>, n: nat): Strategy
    requires n < |calls|
  {
    NextAttempt(Open(Run(None, calls[..n]), calls[n].failure), calls[n].owner).strategy
  }

  /** The journal that call `n` finds is the one the call before left, or a new one. */
  lemma NextJournal(calls: seq<Call>, n: nat)
    requires 0 < n < |calls|
    ensures var j, k := Open(Run(None, calls[..n - 1]), calls[n - 1].failure), Open(Run(None, calls[..n]), calls[n].failure);
            && (calls[n - 1].failure == calls[n].failure ==> k.attempts == j.attempts + [NextAttempt(j, calls[n - 1].owner)])
            && (calls[n - 1].failure != calls[n].failure ==> k.attempts == [])
  {
    var before := calls[..n];
    assert before[..n - 1] == calls[..n - 1] && before[n - 1] == calls[n - 1];
  }

  /** What the place of a call means for the journal it finds. */
  predicate Fits(calls: seq<Call>, n: nat, attempts: seq<Attempt>)
    requires n < |calls|
  {
    && Orderly(attempts) && |attempts| == Place(calls, n) - 1
    && |DirectOnes(StrategiesOf(attempts))| == Min(STRATEGIES, OwnedBefore(calls, n))
  }

  lemma FitsNext(calls: seq<Call>, n: nat, j: Journal)
    requires 0 < n < |calls| && calls[n - 1].failure == calls[n].failure && Fits(calls, n - 1, j.attempts)
    ensures Fits(calls, n, j.attempts + [NextAttempt(j, calls[n - 1].owner)])
  {
    ConsumeKeepsOrderly(j, calls[n - 1].owner);
  }

  lemma FitsFresh(calls: seq<Call>, n: nat)
    requires n < |calls| && (n == 0 || calls[n - 1].failure != calls[n].failure)
    ensures Fits(calls, n, [])
  {
    assert StrategiesOf([]) == [];
  }

  /** The journal that call `n` finds has the attempts of its segment so far. */
  lemma {:induction false} JournalOfSegment(calls: seq<Call>, n: nat)
    requires n < |calls|
    ensures Fits(calls, n, Open(Run(None, calls[..n]), calls[n].failure).attempts)
  {
    if n == 0 {
      assert calls[..0] == [];
      FitsFresh(calls, n);
    } else {
      JournalOfSegment(calls, n - 1);
      NextJournal(calls, n);
      if calls[n - 1].failure == calls[n].failure {
        FitsNext(calls, n, Open(Run(None, calls[..n - 1]), calls[n - 1].failure));
      } else {
        FitsFresh(calls, n);
      }
    }
  }

  /** What a call is given depends on its segment alone. */
  lemma HandedOutIs(calls: seq<Call>, n: nat)
    requires n < |calls|
    ensures HandedOut(calls, n) ==
            if calls[n].owner.None? then OwnershipDiagnosis(Place(calls, n))
            else if OwnedBefore(calls, n) < STRATEGIES then Direct(OwnedBefore(calls, n))
            else CrossPhaseDiagnosis(Place(calls, n))
  {
    JournalOfSegment(calls, n);
    FirstUnusedIsNext(Open(Run(None, calls[..n]), calls[n].failure).attempts);
  }

  lemma {:induction false} SameSegment(calls: seq<Call>, i: nat, j: nat)
    requires i < j < |calls| && Segment(calls, i) == Segment(calls, j)
    ensures Place(calls, j) == Place(calls, i) + (j - i)
    ensures OwnedBefore(calls, j) >= OwnedBefore(calls, i) + if calls[i].owner.Some? then 1 else 0
  {
    if i < j - 1 {
      SameSegment(calls, i, j - 1);
    }
  }

  /** Within one segment no strategy is handed out twice. */
  lemma SegmentDistinct(calls: seq<Call>, i: nat, j: nat)
    requires i < j < |calls| && Segment(calls, i) == Segment(calls, j)
    ensures HandedOut(calls, i) != HandedOut(calls, j)
  {
    HandedOutIs(calls, i);
    HandedOutIs(calls, j);
    SameSegment(calls, i, j);
  }

  /** Two calls of different segments clash when both are owned, or neither is and both stand at the same
      place of their segments. */
  predicate Clash(calls: seq<Call>, i: nat, j: nat)
    requires i < |calls| && j < |calls|
  {
    && calls[i].failure == calls[j].failure && Segment(calls, i) != Segment(calls, j)
    && (if calls[i].owner.Some? then calls[j].owner.Some?
        else calls[j].owner.None? && Place(calls, i) == Place(calls, j))
  }

  ghost predicate Repeats(calls: seq<Call>, failure: nat) {
    exists i: nat, j: nat :: i < j < |calls| && calls[i].failure == failure && calls[j].failure == failure
                             && HandedOut(calls, i) == HandedOut(calls, j)
  }

  ghost predicate Clashes(calls: seq<Call>, failure: nat) {
    exists i: nat, j: nat :: i < j < |calls| && calls[i].failure == failure && Clash(calls, i, j)
  }

  /** The first owned call of the segment of an owned call. */
  lemma {:induction false} FirstOwned(calls: seq<Call>, n: nat) returns (k: nat)
    requires n < |calls| && calls[n].owner.Some?
    ensures k <= n && calls[k].owner.Some? && calls[k].failure == calls[n].failure
    ensures Segment(calls, k) == Segment(calls, n) && OwnedBefore(calls, k) == 0
  {
    if OwnedBefore(calls, n) == 0 {
      k := n;
    } else {
      var m := LastOwnedBefore(calls, n);
      k := FirstOwned(calls, m);
    }
  }

  lemma {:induction false} LastOwnedBefore(calls: seq<Call>, n: nat) returns (k: nat)
    requires n < |calls| && OwnedBefore(calls, n) > 0
    ensures k < n && calls[k].owner.Some? && calls[k].failure == calls[n].failure && Segment(calls, k) == Segment(calls, n)
  {
    if calls[n - 1].owner.Some? {
      k := n - 1;
    } else {
      k := LastOwnedBefore(calls, n - 1);
    }
  }

  /** For any calls, failures taking turns at will: a failure is handed some strategy twice if and only if
      two of its segments both have an owned call, or both have an unowned call at the same place. */
  lemma RepeatsIff(calls: seq<Call>, failure: nat)
    ensures Repeats(calls, failure) <==> Clashes(calls, failure)
  {
    if Repeats(calls, failure) {
      var i: nat, j: nat :| i < j < |calls| && calls[i].failure == failure && calls[j].failure == failure
                            && HandedOut(calls, i) == HandedOut(calls, j);
      HandedOutIs(calls, i);
      HandedOutIs(calls, j);
      if Segment(calls, i) == Segment(calls, j) {
        SegmentDistinct(calls, i, j);
      }
      assert Clash(calls, i, j);
    }
    if Clashes(calls, failure) {
      var i: nat, j: nat :| i < j < |calls| && calls[i].failure == failure && Clash(calls, i, j);
      if calls[i].owner.Some? {
        var k := FirstOwned(calls, i);
        var l := FirstOwned(calls, j);
        HandedOutIs(calls, k);
        HandedOutIs(calls, l);
        assert k < l || l < k;
      } else {
        HandedOutIs(calls, i);
        HandedOutIs(calls, j);
      }
    }
  }

  // ---------------------------------------------------------------- calls that are interrupted

  /** A call may be cut short before it changes anything, or after the ticket update of a repair. */
  datatype Ending = Finished | Early | Late

  datatype Try = Try(call: Call, ending: Ending)

  /** A ticket put back to work with a direct strategy. */
  datatype Gift = Gift(ticket: string, strategy: Strategy, digest: Digest)

  /** What a call does to a ticket, whether or not its journal write follows. */
  function GivenBy(file: Option<Journal>, t: Try): Option<Gift> {
    var a := NextAttempt(Open(file, t.call.failure), t.call.owner);
    if t.ending.Early? || t.call.owner.None? || !a.strategy.Direct? then None
    else Some(Gift(t.call.owner.value, a.strategy, a.digest))
  }

  /** Only a call that finishes reaches the journal. */
  function AfterTry(file: Option<Journal>, t: Try): Option<Journal> {
    if t.ending.Finished? then Some(Consumed(file, t.call)) else file
  }

  function RunTries(tries: seq<Try>): Option<Journal> {
    if tries == [] then None else AfterTry(RunTries(tries[..|tries| - 1]), tries[|tries| - 1])
  }

  /** The gift of try `n`. */
  function GiftOf(tries: seq<Try>, n: nat): Option<Gift>
    requires n < |tries|
  {
    GivenBy(RunTries(tries[..n]), tries[n])
  }

  /** No call for another failure finishes from `i` up to `j`. */
  predicate Stretch(tries: seq<Try>, failure: nat, i: nat, j: nat)
    requires i <= j <= |tries|
  {
    forall k :: i <= k < j && tries[k].ending.Finished? ==> tries[k].call.failure == failure
  }

  /** A call with an exclusive owner that finishes. */
  predicate OwnedAndFinished(t: Try) {
    t.ending.Finished? && t.call.owner.Some?
  }

  function OwnedFinished(tries: seq<Try>, i: nat, j: nat): nat
    requires i <= j <= |tries|
    decreases j
  {
    if i == j then 0 else OwnedFinished(tries, i, j - 1) + if OwnedAndFinished(tries[j - 1]) then 1 else 0
  }

  /** How many direct strategies the journal open for the failure has handed out. */
  function Directs(file: Option<Journal>, failure: nat): nat {
    |DirectOnes(StrategiesOf(Open(file, failure).attempts))|
  }

  lemma {:induction false} TriesOrderly(tries: seq<Try>, failure: nat)
    ensures Orderly(Open(RunTries(tries), failure).attempts)
  {
    assert StrategiesOf([]) == [];
    if tries != [] {
      var init, last := tries[..|tries| - 1], tries[|tries| - 1];
      TriesOrderly(init, failure);
      TriesOrderly(init, last.call.failure);
      ConsumeKeepsOrderly(Open(RunTries(init), last.call.failure), last.call.owner);
    }
  }

  lemma AfterTryDirects(file: Option<Journal>, t: Try, failure: nat)
    requires Orderly(Open(file, failure).attempts) && (t.ending.Finished? ==> t.call.failure == failure)
    ensures Directs(AfterTry(file, t), failure) ==
            if OwnedAndFinished(t) then Min(STRATEGIES, Directs(file, failure) + 1) else Directs(file, failure)
  {
    if t.ending.Finished? {
      ConsumeKeepsOrderly(Open(file, failure), t.call.owner);
    }
  }

  lemma {:induction false} DirectsLater(tries: seq<Try>, failure: nat, i: nat, j: nat)
    requires i <= j <= |tries| && Stretch(tries, failure, i, j)
    ensures Directs(RunTries(tries[..j]), failure) ==
            Min(STRATEGIES, Directs(RunTries(tries[..i]), failure) + OwnedFinished(tries, i, j))
    decreases j
  {
    TriesOrderly(tries[..i], failure);
    if i < j {
      DirectsLater(tries, failure, i, j - 1);
      TriesOrderly(tries[..j - 1], failure);
      assert tries[..j][..j - 1] == tries[..j - 1];
      AfterTryDirects(RunTries(tries[..j - 1]), tries[j - 1], failure);
    }
  }

  /** A repair gets the direct strategy that follows those the journal shows. */
  lemma GiftIs(tries: seq<Try>, n: nat)
    requires n < |tries|
    ensures var d := Directs(RunTries(tries[..n]), tries[n].call.failure);
            && (GiftOf(tries, n).Some? <==> !tries[n].ending.Early? && tries[n].call.owner.Some? && d < STRATEGIES)
            && (GiftOf(tries, n).Some? ==>
                  GiftOf(tries, n).value.strategy == Direct(d) && Some(GiftOf(tries, n).value.ticket) == tries[n].call.owner)
  {
    TriesOrderly(tries[..n], tries[n].call.failure);
    FirstUnusedIsNext(Open(RunTries(tries[..n]), tries[n].call.failure).attempts);
  }

  lemma {:induction false} NoneFinished(tries: seq<Try>, i: nat, j: nat)
    requires i <= j <= |tries|
    ensures OwnedFinished(tries, i, j) == 0 <==> forall k :: i <= k < j ==> !OwnedAndFinished(tries[k])
    decreases j
  {
    if i < j {
      NoneFinished(tries, i, j - 1);
    }
  }

  /** Two repairs of one stretch are the same strategy exactly when no owned call from the first up to the
      second finished; the first was then interrupted after its ticket update. */
  lemma RepairsRepeatIff(tries: seq<Try>, i: nat, j: nat)
    requires i < j < |tries| && tries[i].call.failure == tries[j].call.failure
    requires Stretch(tries, tries[i].call.failure, i, j) && GiftOf(tries, i).Some? && GiftOf(tries, j).Some?
    ensures GiftOf(tries, i).value.strategy == GiftOf(tries, j).value.strategy
            <==> forall k :: i <= k < j ==> !OwnedAndFinished(tries[k])
    ensures GiftOf(tries, i).value.strategy == GiftOf(tries, j).value.strategy ==> tries[i].ending.Late?
  {
    GiftIs(tries, i);
    GiftIs(tries, j);
    DirectsLater(tries, tries[i].call.failure, i, j);
    NoneFinished(tries, i, j);
  }

  /** Two repairs for the failure within one stretch. */
  predicate TwoRepairs(tries: seq<Try>, failure: nat, i: nat, j: nat) {
    && i < j < |tries| && tries[i].call.failure == failure && tries[j].call.failure == failure
    && Stretch(tries, failure, i, j) && GiftOf(tries, i).Some? && GiftOf(tries, j).Some?
  }

  lemma {:induction false} FirstFinished(tries: seq<Try>, i: nat, j: nat) returns (m: nat)
    requires i <= j <= |tries| && OwnedFinished(tries, i, j) > 0
    ensures i <= m < j && OwnedAndFinished(tries[m]) && OwnedFinished(tries, i, m) == 0
    decreases j
  {
    if OwnedFinished(tries, i, j - 1) == 0 {
      m := j - 1;
    } else {
      m := FirstFinished(tries, i, j - 1);
    }
  }

  ghost predicate RepairRepeats(tries: seq<Try>, failure: nat) {
    exists i: nat, j: nat :: TwoRepairs(tries, failure, i, j) && GiftOf(tries, i).value.strategy == GiftOf(tries, j).value.strategy
  }

  ghost predicate RepairInterrupted(tries: seq<Try>, failure: nat) {
    exists i: nat, j: nat :: TwoRepairs(tries, failure, i, j) && tries[i].ending.Late?
  }

  /** The first repair after an interrupted one that finishes, or any if none does, repeats it. */
  lemma LateRepairRepeats(tries: seq<Try>, failure: nat, i: nat, j: nat) returns (m: nat)
    requires TwoRepairs(tries, failure, i, j) && tries[i].ending.Late?
    ensures TwoRepairs(tries, failure, i, m) && GiftOf(tries, i).value.strategy == GiftOf(tries, m).value.strategy
  {
    NoneFinished(tries, i, j);
    m := j;
    if OwnedFinished(tries, i, j) > 0 {
      m := FirstFinished(tries, i, j);
      NoneFinished(tries, i, m);
      GiftIs(tries, i);
      GiftIs(tries, m);
      DirectsLater(tries, failure, i, m);
    }
    RepairsRepeatIff(tries, i, m);
  }

  /** Within a stretch of calls a direct strategy is handed out twice if and only if a repair was
      interrupted between its ticket update and its journal write, and another one followed. */
  lemma RepeatedRepairIff(tries: seq<Try>, failure: nat)
    ensures RepairRepeats(tries, failure) <==> RepairInterrupted(tries, failure)
  {
    if RepairRepeats(tries, failure) {
      var i: nat, j: nat :| TwoRepairs(tries, failure, i, j) && GiftOf(tries, i).value.strategy == GiftOf(tries, j).value.strategy;
      RepairsRepeatIff(tries, i, j);
    }
    if RepairInterrupted(tries, failure) {
      var i: nat, j: nat :| TwoRepairs(tries, failure, i, j) && tries[i].ending.Late?;
      var m := LateRepairRepeats(tries, failure, i, j);
    }
  }

  // ---------------------------------------------------------------- the session

  datatype Block = Block(deterministic: bool, failure: nat, checks: seq<Check>)

  datatype Outcome =
    | Unsupported
    | RepairScheduled(ticket: string, strategy: Strategy)
    | DiagnosisScheduled(strategy: Strategy)
    | Interrupted

  class Session {
    var journal: Option<Journal>
    /** Tickets put back to work, with the digest of the strategy they were given. */
    var todo: map<string, Digest>

    constructor ()
      ensures journal.None? && todo == map[]
    {
      journal, todo := None, map[];
    }

    /** Hands out the next strategy.  The ticket is updated before the journal, so a process that dies in
        between leaves the journal as it was.  `ending` tells how far the call came. */
    method ConsumeFailure(block: Block, tickets: seq<Ticket>) returns (r: Outcome, ghost ending: Ending)
      modifies this
      ensures r.Unsupported? <==> !block.deterministic
      ensures r.Unsupported? ==> journal == old(journal) && todo == old(todo) && ending.Early?
      ensures block.deterministic ==>
                var t := Try(Call(block.failure, ExclusiveOwner(block.checks, tickets)), ending);
                && (r.Interrupted? <==> !ending.Finished?)
                && journal == AfterTry(old(journal), t)
                && todo == (match GivenBy(old(journal), t)
                            case None => old(todo)
                            case Some(g) => old(todo)[g.ticket := g.digest])
      ensures var call := Call(block.failure, ExclusiveOwner(block.checks, tickets));
              r.RepairScheduled? || r.DiagnosisScheduled? ==>
                && journal == Some(Consumed(old(journal), call))
                && r.strategy == journal.value.attempts[|journal.value.attempts| - 1].strategy
      ensures r.RepairScheduled? ==>
                && ExclusiveOwner(block.checks, tickets) == Some(r.ticket) && r.strategy.Direct?
                && todo == old(todo)[r.ticket := DirectDigest(r.strategy, block.failure)]
      ensures r.DiagnosisScheduled? ==> !r.strategy.Direct? && todo == old(todo)
    {
      ending := Early;
      if !block.deterministic {
        return Unsupported, ending;
      }
      var current := if journal.Some? && journal.value.failure == block.failure then journal.value
                     else Journal(block.failure, [], Scheduled);
      var owner := ExclusiveOwner(block.checks, tickets);
      if owner.Some? {
        var k := NextDirect(current.attempts);
        if k < STRATEGIES {
          r, ending := Repair(current, owner.value, k);
          return;
        }
      }
      r := Diagnose(current, owner);
      ending := if r.Interrupted? then Early else Finished;
    }

    method NextDirect(attempts: seq<Attempt>) returns (k: nat)
      ensures k == FirstUnused(attempts, 0)
    {
      k := 0;
      while k < STRATEGIES && Used(attempts, Direct(k))
        invariant 0 <= k <= STRATEGIES
        invariant FirstUnused(attempts, 0) == FirstUnused(attempts, k)
      {
        k := k + 1;
      }
    }

    /** The ticket goes back to work with the strategy, then the journal records it. */
    method Repair(current: Journal, owner: string, k: nat) returns (r: Outcome, ghost ending: Ending)
      requires k == FirstUnused(current.attempts, 0) && k < STRATEGIES
      modifies this
      ensures r == Interrupted || r == RepairScheduled(owner, Direct(k))
      ensures r.Interrupted? <==> !ending.Finished?
      ensures todo == if ending.Early? then old(todo) else old(todo)[owner := DirectDigest(Direct(k), current.failure)]
      ensures journal == if r.Interrupted? then old(journal)
                         else Some(Journal(current.failure, current.attempts + [NextAttempt(current, Some(owner))], Scheduled))
    {
      if * { return Interrupted, Early; }
      var digest := DirectDigest(Direct(k), current.failure);
      todo := todo[owner := digest];
      if * { return Interrupted, Late; }
      var a := Attempt(Direct(k), digest, Some(owner));
      journal := Some(current.(attempts := current.attempts + [a], status := Scheduled));
      return RepairScheduled(owner, Direct(k)), Finished;
    }

    /** No direct strategy applies: the journal records a diagnosis. */
    method Diagnose(current: Journal, owner: Option<string>) returns (r: Outcome)
      requires owner.Some? ==> FirstUnused(current.attempts, 0) == STRATEGIES
      modifies this`journal
      ensures r == Interrupted || r == DiagnosisScheduled(NextAttempt(current, owner).strategy)
      ensures !NextAttempt(current, owner).strategy.Direct?
      ensures journal == if r.Interrupted? then old(journal)
                         else Some(Journal(current.failure, current.attempts + [NextAttempt(current, owner)], DiagnosticScheduled))
    {
      var n := |current.attempts| + 1;
      var s := if owner.None? then OwnershipDiagnosis(n) else CrossPhaseDiagnosis(n);
      if * { return Interrupted; }
      var a := Attempt(s, DiagnosisDigest(s, current.failure, DigestsOf(current.attempts)), owner);
      journal := Some(current.(attempts := current.attempts + [a], status := DiagnosticScheduled));
      return DiagnosisScheduled(s);
    }
  }
}
