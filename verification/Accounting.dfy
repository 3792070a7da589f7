/** Every accepted command is in exactly one place, in every run of the scheduler. */
module Accounting {
  import opened Basics
  import opened Commands
  import opened Scheduler
  import opened Sums

  function HasId(id: int): Command -> nat {
    (c: Command) => if c.id == id then 1 else 0
  }

  function SlotHasId(id: int): Option<Command> -> nat {
    (o: Option<Command>) => if o.Some? && o.value.id == id then 1 else 0
  }

  function IsFinalFor(id: int): Note -> nat {
    (n: Note) => if n.Final? && n.id == id then 1 else 0
  }

  function Is(id: int): int -> nat {
    (x: int) => if x == id then 1 else 0
  }

  /** How often command `id` is queued, in a slot, finally reported, dropped or lost. */
  ghost function Places(s: State, id: int): nat {
    SumBy(HasId(id), s.queue) + SumBy(SlotHasId(id), s.slots) + SumBy(IsFinalFor(id), s.notes)
    + SumBy(Is(id), s.dropped) + SumBy(Is(id), s.lost)
  }

  lemma FinishCounts(c: Command, result: int, error: int, id: int)
    ensures SumBy(IsFinalFor(id), FinishNotes(c, result, error))
         == if Ends(c, error) then HasId(id)(c) else 0
  {
    var value := Reported(c, result);
    var progress := if c.hasListener && error == 0 then [Progress(c.id, value)] else [];
    var final := if Ends(c, error) then [Final(c.id, value, error, ReportChannel(c))] else [];
    SumByAppend(IsFinalFor(id), progress, final);
    if progress != [] { SumByOne(IsFinalFor(id), progress[0]); }
    if final != [] { SumByOne(IsFinalFor(id), final[0]); }
  }

  lemma LostGrows(lost: seq<int>, gone: int, id: int)
    ensures SumBy(Is(id), lost + [gone]) == SumBy(Is(id), lost) + if gone == id then 1 else 0
  {
    SumByAppend(Is(id), lost, [gone]);
    SumByOne(Is(id), gone);
  }

  lemma PlaceCounts(s: State, c: Command, ind: nat, id: int)
    requires ind < |s.slots|
    ensures Places(Place(s, c, ind), id) == Places(s, id) + HasId(id)(c)
  {
    SumByUpdate(SlotHasId(id), s.slots, ind, Some(c));
    assert s.lost + [] == s.lost;
    if s.slots[ind].Some? { LostGrows(s.lost, s.slots[ind].value.id, id); }
  }

  lemma CloseCounts(s: State, c: Command, error: int, id: int)
    ensures Places(Close(s, c, error), id) == Places(s, id) + HasId(id)(c)
  {
    FinishCounts(c, 0, error, id);
    SumByAppend(IsFinalFor(id), s.notes, FinishNotes(c, 0, error));
    assert s.lost + [] == s.lost;
    LostGrows(s.lost, c.id, id);
  }

  lemma LaunchConserves(p: Scan, c: Command, ind: nat, id: int)
    requires ScanOk(p) && p.k < |p.s.queue| && InTable(ind) && c.id == p.s.queue[p.k].id
    ensures Places(Launch(p, c, ind).s, id) == Places(p.s, id)
  {
    hide FinishNotes, Ends;
    var s := p.s.(queue := Without(p.s.queue, p.k));
    var d := c.(taskId := ind);
    SumBySplit(HasId(id), p.s.queue, p.k);
    assert Places(s, id) + HasId(id)(c) == Places(p.s, id);
    if SendFails(d) {
      CloseCounts(s, d, -4, id);
    } else {
      assert Places(MarkStarted(s, d), id) == Places(s, id);
      PlaceCounts(MarkStarted(s, d), Sent(d), ind, id);
      CloseCounts(MarkStarted(s, d), Sent(d), 0, id);
    }
  }

  lemma ScanStepConserves(p: Scan, dt: int, id: int)
    requires ScanOk(p) && p.k < |p.s.queue| && !p.over
    ensures Places(ScanStep(p, dt).s, id) == Places(p.s, id)
  {
    var c := Ticked(p.s.queue[p.k], dt);
    SumByUpdate(HasId(id), p.s.queue, p.k, c);
    if c.startTime <= 0 && SlotIndex(p) != 0 && !HeldBack(p.s.slots, c) {
      LaunchConserves(p, c, SlotIndex(p), id);
    }
  }

  lemma {:induction false} ScanConserves(p: Scan, dt: int, id: int)
    requires ScanOk(p)
    ensures Places(ScanAll(p, dt).s, id) == Places(p.s, id)
    decreases |p.s.queue| - p.k
  {
    if !p.over && p.k < |p.s.queue| {
      ScanStepConserves(p, dt, id);
      ScanConserves(ScanStep(p, dt), dt, id);
    }
  }

  lemma {:induction false} SweptSlotsConserve(w: Sweep, a: seq<Option<Command>>, b: seq<Option<Command>>, id: int)
    requires |a| == |b| && forall i :: 0 <= i < |a| ==> b[i] == SlotAfter(w, a[i])
    ensures SumBy(SlotHasId(id), b) + SumBy(IsFinalFor(id), SweepNotes(w, a)) == SumBy(SlotHasId(id), a)
  {
    if a != [] {
      SweptSlotsConserve(w, a[1..], b[1..], id);
      SumByAppend(IsFinalFor(id), SlotNotes(w, a[0]), SweepNotes(w, a[1..]));
      if a[0].Some? {
        FinishCounts(a[0].value, 0, -2, id);
        FinishCounts(a[0].value, 0, -3, id);
      }
    }
  }

  lemma SweepConserves(w: Sweep, s: State, id: int)
    ensures Places(SweepSlots(w, s), id) == Places(s, id)
  {
    SweptSlotsConserve(w, s.slots, SweepSlots(w, s).slots, id);
    SumByAppend(IsFinalFor(id), s.notes, SweepNotes(w, s.slots));
  }

  lemma {:induction false} SparedConserves(f: Filter, q: seq<Command>, id: int)
    ensures SumBy(HasId(id), Spared(f, q)) + SumBy(IsFinalFor(id), HitNotes(f, q)) == SumBy(HasId(id), q)
  {
    if q != [] {
      SparedConserves(f, q[1..], id);
      var kept := if Hits(f, q[0]) then [] else [q[0]];
      var notes := if Hits(f, q[0]) then FinishNotes(q[0], 0, -3) else [];
      SumByAppend(HasId(id), kept, Spared(f, q[1..]));
      SumByAppend(IsFinalFor(id), notes, HitNotes(f, q[1..]));
      SumByOne(HasId(id), q[0]);
      FinishCounts(q[0], 0, -3, id);
    }
  }

  lemma {:induction false} IdsCount(q: seq<Command>, id: int)
    ensures SumBy(Is(id), Ids(q)) == SumBy(HasId(id), q)
  {
    if q != [] {
      IdsCount(q[1..], id);
      assert Ids(q)[1..] == Ids(q[1..]);
    }
  }

  lemma ReplyConserves(s: State, task: int, result: int, flags: int, cmd: int, id: int)
    requires |s.slots| == TABLE
    ensures Places(OnCompletion(s, task, result, flags, cmd), id) == Places(s, id)
  {
    var j := FirstAnswering(s.slots, 1, task, flags, cmd);
    if j != TABLE {
      var c := s.slots[j].value;
      SumByUpdate(SlotHasId(id), s.slots, j, if Ends(c, 0) then None else Some(Finished(c, result)));
      FinishCounts(c, result, 0, id);
      SumByAppend(IsFinalFor(id), s.notes, FinishNotes(c, result, 0));
    }
  }

  /** No event creates, duplicates or forgets a command; only Add brings one in. */
  lemma ApplyConserves(s: State, e: Event, id: int)
    requires |s.slots| == TABLE
    ensures Places(Apply(s, e), id)
         == Places(s, id) + if e.Add? && !s.motorDisabled && e.c.id == id then 1 else 0
  {
    match e
    case Add(c) =>
      SumByAppend(HasId(id), s.queue, [c]);
      SumByOne(HasId(id), c);
    case Tick(dt) =>
      ScanConserves(Scan(0, 0, false, s), dt, id);
      SweepConserves(Expire(dt), ScanAll(Scan(0, 0, false, s), dt).s, id);
    case Reply(task, result, flags, cmd) =>
      ReplyConserves(s, task, result, flags, cmd, id);
    case Stop(cls) =>
      SweepConserves(Kill(OfClass(cls)), s, id);
      var t := SweepSlots(Kill(OfClass(cls)), s);
      SparedConserves(OfClass(cls), t.queue, id);
      SumByAppend(IsFinalFor(id), t.notes, HitNotes(OfClass(cls), t.queue));
    case Cancel(session) =>
      if session == 0 {
        var t := s.(queue := [], dropped := s.dropped + Ids(s.queue));
        IdsCount(s.queue, id);
        SumByAppend(Is(id), s.dropped, Ids(s.queue));
        SweepConserves(Kill(Everything), t, id);
      } else {
        SweepConserves(Kill(OfSession(session)), s, id);
        var t := SweepSlots(Kill(OfSession(session)), s);
        SparedConserves(OfSession(session), t.queue, id);
        SumByAppend(IsFinalFor(id), t.notes, HitNotes(OfSession(session), t.queue));
      }
    case LockMotors =>
  }

  lemma {:induction false} ScanKeepsAccepted(p: Scan, dt: int)
    requires ScanOk(p)
    ensures ScanAll(p, dt).s.accepted == p.s.accepted
    decreases |p.s.queue| - p.k
  {
    if !p.over && p.k < |p.s.queue| {
      ScanKeepsAccepted(ScanStep(p, dt), dt);
    }
  }

  ghost predicate Accounted(s: State) {
    forall id :: Places(s, id) == if id in s.accepted then 1 else 0
  }

  /** Exactly-once accounting: from an accounted state, and so from the empty scheduler, every
      accepted command is at every moment in exactly one place. A command reported once is
      therefore neither reported again nor still listed. */
  lemma {:induction false} RunAccounts(s: State, es: seq<Event>)
    requires |s.slots| == TABLE && Accounted(s) && Feasible(s, es)
    ensures Accounted(Run(s, es))
    decreases |es|
  {
    if es != [] {
      var t := Apply(s, es[0]);
      if es[0].Tick? { ScanKeepsAccepted(Scan(0, 0, false, s), es[0].dt); }
      forall id ensures Places(t, id) == if id in t.accepted then 1 else 0 {
        ApplyConserves(s, es[0], id);
      }
      RunAccounts(t, es[1..]);
    }
  }

  lemma {:induction false} EmptySlotsCount(slots: seq<Option<Command>>, id: int)
    requires forall i :: 0 <= i < |slots| ==> slots[i].None?
    ensures SumBy(SlotHasId(id), slots) == 0
  {
    if slots != [] {
      EmptySlotsCount(slots[1..], id);
    }
  }

  lemma InitialAccounted()
    ensures |Initial.slots| == TABLE && Accounted(Initial)
  {
    forall id ensures Places(Initial, id) == 0 {
      EmptySlotsCount(Initial.slots, id);
    }
  }

  lemma CountsOne<T>(f: T -> nat, s: seq<T>, k: nat)
    requires k < |s|
    ensures f(s[k]) <= SumBy(f, s)
  {
    SumBySplit(f, s, k);
  }

  lemma CountsTwo<T>(f: T -> nat, s: seq<T>, j: nat, k: nat)
    requires j < k < |s|
    ensures f(s[j]) + f(s[k]) <= SumBy(f, s)
  {
    SumBySplit(f, s, k);
    CountsOne(f, s[..k], j);
  }

  /** The same for runs of a new scheduler, without the counting: a command that has been reported
      finally was accepted, is reported finally by no other note, and is neither queued nor in a slot nor
      among the dropped or lost. */
  lemma ReportedOnceAndGone(es: seq<Event>, j: nat)
    requires Feasible(Initial, es) && j < |Run(Initial, es).notes| && Run(Initial, es).notes[j].Final?
    ensures var t := Run(Initial, es); var id := t.notes[j].id;
      && id in t.accepted
      && (forall k :: 0 <= k < |t.notes| && k != j && t.notes[k].Final? ==> t.notes[k].id != id)
      && (forall k :: 0 <= k < |t.queue| ==> t.queue[k].id != id)
      && (forall k :: 0 <= k < |t.slots| && t.slots[k].Some? ==> t.slots[k].value.id != id)
      && id !in t.dropped && id !in t.lost
  {
    InitialAccounted();
    RunAccounts(Initial, es);
    var t := Run(Initial, es);
    var id := t.notes[j].id;
    CountsOne(IsFinalFor(id), t.notes, j);
    assert Places(t, id) <= 1;
    forall k | 0 <= k < |t.notes| && k != j && t.notes[k].Final? ensures t.notes[k].id != id {
      if k < j { CountsTwo(IsFinalFor(id), t.notes, k, j); } else { CountsTwo(IsFinalFor(id), t.notes, j, k); }
    }
    forall k | 0 <= k < |t.queue| ensures t.queue[k].id != id { CountsOne(HasId(id), t.queue, k); }
    forall k | 0 <= k < |t.slots| && t.slots[k].Some? ensures t.slots[k].value.id != id {
      CountsOne(SlotHasId(id), t.slots, k);
    }
    forall k | 0 <= k < |t.dropped| ensures t.dropped[k] != id { CountsOne(Is(id), t.dropped, k); }
    forall k | 0 <= k < |t.lost| ensures t.lost[k] != id { CountsOne(Is(id), t.lost, k); }
  }
}
