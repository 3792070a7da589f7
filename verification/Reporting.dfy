/** Is every accepted command reported in the end? Not by the code: cancelling everything discards
    queued commands unreported (server/RDSTask.cpp:198), and an update may overwrite an occupied slot
    (server/RDSTask.cpp:82-122). Nothing else loses a command. */
module Reporting {
  import opened Basics
  import opened Commands
  import opened Scheduler
  import opened Sums
  import opened Accounting
  import opened Draining
  import opened Blocking
  import opened Overflow

  ghost predicate Notified(s: State, id: int) {
    exists k :: 0 <= k < |s.notes| && s.notes[k].Final? && s.notes[k].id == id
  }

  /** A cancellation of everything meets an empty queue. */
  predicate DropsNothing(s: State, e: Event) {
    e == Cancel(0) ==> s.queue == []
  }

  ghost predicate NeverDrops(s: State, es: seq<Event>)
    requires |s.slots| == TABLE
    decreases |es|
  {
    es == [] || (DropsNothing(s, es[0]) && NeverDrops(Apply(s, es[0]), es[1..]))
  }

  lemma {:induction false} ScanKeepsDropped(p: Scan, dt: int)
    requires ScanOk(p)
    ensures ScanAll(p, dt).s.dropped == p.s.dropped
    decreases |p.s.queue| - p.k
  {
    if !p.over && p.k < |p.s.queue| { ScanKeepsDropped(ScanStep(p, dt), dt); }
  }

  lemma ApplyDrops(s: State, e: Event)
    requires |s.slots| == TABLE
    ensures s.dropped <= Apply(s, e).dropped
    ensures Apply(s, e).dropped == s.dropped <==> DropsNothing(s, e)
  {
    if e.Tick? { ScanKeepsDropped(Scan(0, 0, false, s), e.dt); }
    assert |Ids(s.queue)| == |s.queue|;
  }

  /** Dropping is what a cancellation of everything does to a queue that is not empty. */
  lemma {:induction false} RunDropsNothingIff(s: State, es: seq<Event>)
    requires |s.slots| == TABLE
    ensures s.dropped <= Run(s, es).dropped
    ensures Run(s, es).dropped == s.dropped <==> NeverDrops(s, es)
    decreases |es|
  {
    if es != [] {
      ApplyDrops(s, es[0]);
      RunDropsNothingIff(Apply(s, es[0]), es[1..]);
    }
  }

  lemma {:induction false} SomeCounts<T>(f: T -> nat, s: seq<T>)
    requires SumBy(f, s) > 0
    ensures exists k :: 0 <= k < |s| && f(s[k]) > 0
  {
    if f(s[0]) == 0 {
      SomeCounts(f, s[1..]);
      var k :| 0 <= k < |s[1..]| && f(s[1..][k]) > 0;
      assert f(s[k + 1]) > 0;
    }
  }

  lemma {:induction false} NoneCounts<T>(f: T -> nat, s: seq<T>)
    requires forall k :: 0 <= k < |s| ==> f(s[k]) == 0
    ensures SumBy(f, s) == 0
  {
    if s != [] { NoneCounts(f, s[1..]); }
  }

  /** In an idle scheduler an accepted command has been reported, or is dropped or lost, and never
      two of these. */
  lemma IdleHasOnePlace(s: State, id: int)
    requires Accounted(s) && Idle(s) && id in s.accepted
    ensures Notified(s, id) <==> id !in s.dropped && id !in s.lost
  {
    NoneCounts(SlotHasId(id), s.slots);
    assert SumBy(IsFinalFor(id), s.notes) + SumBy(Is(id), s.dropped) + SumBy(Is(id), s.lost) == 1;
    if Notified(s, id) {
      var k :| 0 <= k < |s.notes| && s.notes[k].Final? && s.notes[k].id == id;
      CountsOne(IsFinalFor(id), s.notes, k);
      forall j | 0 <= j < |s.dropped| ensures s.dropped[j] != id { CountsOne(Is(id), s.dropped, j); }
      forall j | 0 <= j < |s.lost| ensures s.lost[j] != id { CountsOne(Is(id), s.lost, j); }
    } else if id !in s.dropped && id !in s.lost {
      NoneCounts(Is(id), s.dropped);
      NoneCounts(Is(id), s.lost);
      SomeCounts(IsFinalFor(id), s.notes);
    }
  }

  lemma DroppedWasAccepted(s: State, j: nat)
    requires Accounted(s) && j < |s.dropped|
    ensures s.dropped[j] in s.accepted
  {
    CountsOne(Is(s.dropped[j]), s.dropped, j);
    assert Places(s, s.dropped[j]) > 0;
  }

  lemma LostWasAccepted(s: State, j: nat)
    requires Accounted(s) && j < |s.lost|
    ensures s.lost[j] in s.accepted
  {
    CountsOne(Is(s.lost[j]), s.lost, j);
    assert Places(s, s.lost[j]) > 0;
  }

  lemma IdleReportsAllIff(s: State)
    requires Accounted(s) && Idle(s)
    ensures (forall id :: id in s.accepted ==> Notified(s, id)) <==> s.dropped == [] && s.lost == []
  {
    forall id | id in s.accepted ensures Notified(s, id) <==> id !in s.dropped && id !in s.lost {
      IdleHasOnePlace(s, id);
    }
    if s.dropped != [] {
      DroppedWasAccepted(s, 0);
      assert !Notified(s, s.dropped[0]);
    } else if s.lost != [] {
      LostWasAccepted(s, 0);
      assert !Notified(s, s.lost[0]);
    }
  }

  /** Final reports: in a run of a new scheduler that ends idle, every accepted command has been finally
      reported if and only if each cancellation of everything met an empty queue and each update
      had room in the table. */
  lemma AllAreReportedIff(es: seq<Event>)
    requires Feasible(Initial, es) && Idle(Run(Initial, es))
    ensures var t := Run(Initial, es);
      (forall id :: id in t.accepted ==> Notified(t, id)) <==> NeverDrops(Initial, es) && AlwaysHasRoom(Initial, es)
  {
    InitialAccounted();
    RunAccounts(Initial, es);
    IdleReportsAllIff(Run(Initial, es));
    RunDropsNothingIff(Initial, es);
    RunOverwritesNothingIff(Initial, es);
  }

  lemma {:induction false} NoAddsIsFeasible(s: State, es: seq<Event>)
    requires |s.slots| == TABLE && NoAdds(es)
    ensures Feasible(s, es)
    decreases |es|
  {
    if es != [] { NoAddsIsFeasible(Apply(s, es[0]), es[1..]); }
  }

  /** The same without assuming the end: any run, followed by as many updates as there is work left. */
  lemma DrainedReportsAllIff(es: seq<Event>, rest: seq<Event>)
    requires Feasible(Initial, es) && NoAdds(rest) && Ticks(rest) >= Work(Run(Initial, es))
    ensures Feasible(Initial, es + rest)
    ensures var t := Run(Initial, es + rest);
      && Idle(t)
      && ((forall id :: id in t.accepted ==> Notified(t, id))
          <==> NeverDrops(Initial, es + rest) && AlwaysHasRoom(Initial, es + rest))
  {
    RunKeepsInv(Initial, es);
    NoAddsIsFeasible(Run(Initial, es), rest);
    RunJoins(Initial, es, rest);
    Drain(Run(Initial, es), rest);
    AllAreReportedIff(es + rest);
  }

  /** One command, cancelled with everything while it is queued, is never reported. */
  lemma DroppedUnreported(c: Command)
    requires Fresh(c)
    ensures var es := [Add(c), Cancel(0)]; var t := Run(Initial, es);
      && Feasible(Initial, es) && Idle(t) && t.accepted == {c.id} && t.dropped == [c.id]
      && !Notified(t, c.id) && !NeverDrops(Initial, es)
  {
    var es := [Add(c), Cancel(0)];
    var s := Apply(Initial, es[0]);
    assert es[1..] == [Cancel(0)] && [Cancel(0)][1..] == [];
    assert s == Initial.(queue := [c], accepted := {c.id});
    assert Ids([c]) == [c.id];
    var t := Apply(s, Cancel(0));
    NoSlotsNoNotes(Kill(Everything), s.slots);
    assert Run(Initial, es) == t;
  }
}
