/**
 The tickets a remediation affects: those named directly, and every completed ticket that depends on an
 affected one, over any dependency graph.
 */
module TicketClosure {
  import opened Basics

  datatype Ticket = Ticket(id: string, completed: bool, dependencies: seq<string>)

  /** The tickets affected over at most `n` dependencies. */
  ghost function Within(tickets: seq<Ticket>, direct: seq<string>, n: nat): set<string> {
    if n == 0 then ToSet(direct)
    else
      var near := Within(tickets, direct, n - 1);
      near + set t | t in tickets && t.completed && Touches(t, near) :: t.id
  }

  predicate Touches(t: Ticket, ids: set<string>) {
    exists d :: d in t.dependencies && d in ids
  }

  ghost predicate Affected(tickets: seq<Ticket>, direct: seq<string>, id: string) {
    exists n: nat :: id in Within(tickets, direct, n)
  }

  predicate Closed(tickets: seq<Ticket>, ids: set<string>) {
    forall t :: t in tickets && t.completed && Touches(t, ids) ==> t.id in ids
  }

  // ---------------------------------------------------------------- the least closed set

  /** What depends on an affected ticket is affected. */
  lemma AffectedStep(tickets: seq<Ticket>, direct: seq<string>, t: Ticket, d: string)
    requires t in tickets && t.completed && d in t.dependencies && Affected(tickets, direct, d)
    ensures Affected(tickets, direct, t.id)
  {
    var n: nat :| d in Within(tickets, direct, n);
    assert Touches(t, Within(tickets, direct, n));
    assert t.id in Within(tickets, direct, n + 1);
  }

  lemma DirectAffected(tickets: seq<Ticket>, direct: seq<string>, id: string)
    requires id in direct
    ensures Affected(tickets, direct, id)
  {
    assert id in Within(tickets, direct, 0);
  }

  lemma {:induction false} WithinLeast(tickets: seq<Ticket>, direct: seq<string>, ids: set<string>, n: nat)
    requires ToSet(direct) <= ids && Closed(tickets, ids)
    ensures Within(tickets, direct, n) <= ids
  {
    if n > 0 {
      WithinLeast(tickets, direct, ids, n - 1);
      var near := Within(tickets, direct, n - 1);
      forall t | t in tickets && t.completed && Touches(t, near) ensures t.id in ids {
        assert Touches(t, ids);
      }
    }
  }

  /** A closed set that contains the direct tickets contains every affected one. */
  lemma AffectedLeast(tickets: seq<Ticket>, direct: seq<string>, ids: set<string>, id: string)
    requires ToSet(direct) <= ids && Closed(tickets, ids) && Affected(tickets, direct, id)
    ensures id in ids
  {
    var n: nat :| id in Within(tickets, direct, n);
    WithinLeast(tickets, direct, ids, n);
  }

  /** A ticket is affected exactly when a single direct ticket affects it: findings can be traced one by one. */
  lemma {:induction false} WithinByOne(tickets: seq<Ticket>, direct: seq<string>, n: nat, id: string)
    requires id in Within(tickets, direct, n)
    ensures exists d :: d in direct && Affected(tickets, [d], id)
  {
    if n == 0 {
      DirectAffected(tickets, [id], id);
    } else if id in Within(tickets, direct, n - 1) {
      WithinByOne(tickets, direct, n - 1, id);
    } else {
      var near := Within(tickets, direct, n - 1);
      var t :| t in tickets && t.completed && Touches(t, near) && t.id == id;
      var x :| x in t.dependencies && x in near;
      WithinByOne(tickets, direct, n - 1, x);
      var d :| d in direct && Affected(tickets, [d], x);
      AffectedStep(tickets, [d], t, x);
    }
  }

  lemma AffectedByOne(tickets: seq<Ticket>, direct: seq<string>, id: string)
    ensures Affected(tickets, direct, id) <==> exists d :: d in direct && Affected(tickets, [d], id)
  {
    if Affected(tickets, direct, id) {
      var n: nat :| id in Within(tickets, direct, n);
      WithinByOne(tickets, direct, n, id);
    }
    if d :| d in direct && Affected(tickets, [d], id) {
      var all := set t | t in tickets && Affected(tickets, direct, t.id) :: t.id;
      var ids := all + ToSet(direct);
      forall t | t in tickets && t.completed && Touches(t, ids) ensures t.id in ids {
        var x :| x in t.dependencies && x in ids;
        if x in direct { DirectAffected(tickets, direct, x); }
        AffectedStep(tickets, direct, t, x);
      }
      AffectedLeast(tickets, [d], ids, id);
      if id in direct { DirectAffected(tickets, direct, id); }
    }
  }

  // ---------------------------------------------------------------- the loop

  predicate Settled(t: Ticket, affected: seq<string>) {
    t.completed && Touches(t, ToSet(affected)) ==> t.id in affected
  }

  /** Every member is affected, no member twice, the direct ones in front. */
  ghost predicate Sound(tickets: seq<Ticket>, direct: seq<string>, affected: seq<string>) {
    && Distinct(affected)
    && (forall id :: id in affected ==> Affected(tickets, direct, id))
    && exists n :: 0 <= n <= |affected| && ToSet(affected[..n]) == ToSet(direct)
  }

  lemma SoundSnoc(tickets: seq<Ticket>, direct: seq<string>, affected: seq<string>, t: Ticket, d: string)
    requires Sound(tickets, direct, affected) && t in tickets && t.completed
    requires t.id !in affected && d in t.dependencies && d in affected
    ensures Sound(tickets, direct, affected + [t.id])
  {
    DistinctSnoc(affected, t.id);
    AffectedStep(tickets, direct, t, d);
    var n :| 0 <= n <= |affected| && ToSet(affected[..n]) == ToSet(direct);
    assert (affected + [t.id])[..n] == affected[..n];
  }

  /** A ticket that joins keeps the list sound and leaves fewer tickets to join. */
  lemma Joins(tickets: seq<Ticket>, direct: seq<string>, affected: seq<string>, t: Ticket, d: string, all: set<string>)
    requires Sound(tickets, direct, affected) && t in tickets && t.completed && t.id in all
    requires t.id !in affected && d in t.dependencies && d in affected
    ensures Sound(tickets, direct, affected + [t.id])
    ensures |all - ToSet(affected + [t.id])| < |all - ToSet(affected)|
  {
    SoundSnoc(tickets, direct, affected, t, d);
    Shrinks(all, affected, t.id);
  }

  /** A sound list that no ticket extends lists exactly the affected tickets. */
  lemma SoundAndSettled(tickets: seq<Ticket>, direct: seq<string>, affected: seq<string>)
    requires Sound(tickets, direct, affected) && SettledUpTo(tickets, affected, |tickets|)
    ensures forall id :: id in affected <==> Affected(tickets, direct, id)
  {
    var n :| 0 <= n <= |affected| && ToSet(affected[..n]) == ToSet(direct);
    forall x | x in ToSet(direct) ensures x in ToSet(affected) {
      assert x in ToSet(affected[..n]);
    }
    forall t | t in tickets && t.completed && Touches(t, ToSet(affected)) ensures t.id in ToSet(affected) {
      var j :| 0 <= j < |tickets| && tickets[j] == t;
      assert Settled(tickets[j], affected);
    }
    forall id | Affected(tickets, direct, id) ensures id in affected {
      AffectedLeast(tickets, direct, ToSet(affected), id);
    }
  }

  predicate SettledUpTo(tickets: seq<Ticket>, affected: seq<string>, n: nat)
    requires n <= |tickets|
  {
    forall j {:trigger Settled(tickets[j], affected)} :: 0 <= j < n ==> Settled(tickets[j], affected)
  }

  /** Passes over the tickets until one adds nothing; lists every affected id once, direct ones first. */
  method DependentTicketIds(tickets: seq<Ticket>, direct: seq<string>) returns (affected: seq<string>)
    ensures Distinct(affected)
    ensures forall id :: id in affected <==> Affected(tickets, direct, id)
    ensures exists n :: 0 <= n <= |affected| && ToSet(affected[..n]) == ToSet(direct)
  {
    affected := FirstOccurrences(direct);
    ghost var all := set t | t in tickets :: t.id;
    assert affected[..|affected|] == affected;
    forall id | id in affected ensures Affected(tickets, direct, id) {
      assert id in ToSet(affected);
      DirectAffected(tickets, direct, id);
    }
    var changed := true;
    while changed
      invariant Sound(tickets, direct, affected)
      invariant changed || SettledUpTo(tickets, affected, |tickets|)
      decreases |all - ToSet(affected)| + if changed then 1 else 0
    {
      affected, changed := Pass(tickets, direct, affected, all);
    }
    SoundAndSettled(tickets, direct, affected);
  }

  /** One pass: every ticket that depends on a member so far becomes a member. */
  method Pass(tickets: seq<Ticket>, ghost direct: seq<string>, before: seq<string>, ghost all: set<string>)
    returns (affected: seq<string>, changed: bool)
    requires Sound(tickets, direct, before) && forall t :: t in tickets ==> t.id in all
    ensures Sound(tickets, direct, affected)
    ensures changed ==> |all - ToSet(affected)| < |all - ToSet(before)|
    ensures !changed ==> affected == before && SettledUpTo(tickets, affected, |tickets|)
  {
    affected, changed := before, false;
    for i := 0 to |tickets|
      invariant Sound(tickets, direct, affected)
      invariant changed ==> |all - ToSet(affected)| < |all - ToSet(before)|
      invariant !changed ==> affected == before && SettledUpTo(tickets, affected, i)
    {
      var t := tickets[i];
      if t.id in affected || !t.completed { continue; }
      if Touches(t, ToSet(affected)) {
        ghost var d :| d in t.dependencies && d in ToSet(affected);
        Joins(tickets, direct, affected, t, d, all);
        affected := affected + [t.id];
        changed := true;
      }
    }
  }

  lemma Shrinks(all: set<string>, affected: seq<string>, id: string)
    requires id in all && id !in affected && Distinct(affected)
    ensures |all - ToSet(affected + [id])| < |all - ToSet(affected)| && Distinct(affected + [id])
  {
    DistinctSnoc(affected, id);
    assert all - ToSet(affected) == (all - ToSet(affected + [id])) + {id};
  }

  /** The elements in order of first occurrence. */
  method FirstOccurrences(s: seq<string>) returns (r: seq<string>)
    ensures Distinct(r) && ToSet(r) == ToSet(s)
  {
    r := [];
    for i := 0 to |s|
      invariant Distinct(r) && ToSet(r) == ToSet(s[..i])
    {
      assert s[..i + 1] == s[..i] + [s[i]];
      assert ToSet(s[..i + 1]) == ToSet(s[..i]) + {s[i]};
      DistinctSnoc(r, s[i]);
      if s[i] !in r {
        r := r + [s[i]];
      }
    }
    assert s[..|s|] == s;
  }
}
