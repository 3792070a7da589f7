/** From the queue into a slot: what an update makes of the queued command it starts, and how long that
    command then lives (server/RDSTask.cpp:79-149, 204-236). */
module SlotStart {
  import opened Basics
  import opened Commands
  import opened Scheduler
  import opened Draining
  import opened SlotLife
  import opened Accounting

  /** The command c, once an update of length dt has sent it from slot i. */
  function InSlot(c: Command, dt: int, i: int): Command
    requires !SendFails(c)
  {
    Sent(Ticked(c, dt).(taskId := i))
  }

  /** A command that is filed when it has been sent. */
  predicate Lasts(c: Command) {
    !SendFails(c) && Sent(c).timeout > 0
  }

  /** What Send sets does not depend on delay and slot. */
  lemma SendingIgnoresSlot(c: Command, dt: int, i: int)
    ensures var d := Ticked(c, dt).(taskId := i);
      && SendFails(d) == SendFails(c)
      && (!SendFails(c) ==> Sent(d) == Ticked(Sent(c), dt).(taskId := i) && Sent(c).id == c.id)
  {
  }

  predicate Listed(slots: seq<Option<Command>>, i: int, id: int)
    requires |slots| == TABLE
  {
    InTable(i) && slots[i].Some? && slots[i].value.id == id
  }

  /** What goes by the number of c is c itself, with its delay shortened where the scan has been,
      or as it was sent. */
  ghost predicate Traced(p: Scan, c: Command, dt: int)
    requires ScanOk(p)
  {
    && (forall k :: 0 <= k < |p.s.queue| && p.s.queue[k].id == c.id ==>
          p.s.queue[k] == if k < p.k then Ticked(c, dt) else c)
    && (forall i :: Listed(p.s.slots, i, c.id) ==> Lasts(c) && p.s.slots[i] == Some(InSlot(c, dt, i)))
  }

  /** Once started it is in a slot, unless a later command of the update has been put there. */
  ghost predicate Placed(p: Scan, c: Command)
    requires ScanOk(p)
  {
    c.id in p.s.started && Lasts(c) ==> c.id in p.s.lost || exists i :: Listed(p.s.slots, i, c.id)
  }

  lemma FilingTraces(p: Scan, c: Command, dt: int, d: Command, i: nat)
    requires ScanOk(p) && Traced(p, c, dt) && Placed(p, c) && InTable(i)
    requires d.id == c.id ==> Lasts(c) && d == InSlot(c, dt, i)
    ensures var q := p.(s := Place(p.s.(started := p.s.started + [d.id]), d, i)); Traced(q, c, dt) && Placed(q, c)
  {
    var t := Place(p.s.(started := p.s.started + [d.id]), d, i);
    if d.id == c.id {
      assert Listed(t.slots, i, c.id);
    } else if j :| Listed(p.s.slots, j, c.id) && j != i {
      assert Listed(t.slots, j, c.id);
    }
  }

  lemma TracedBySlots(p: Scan, q: Scan, c: Command, dt: int)
    requires ScanOk(p) && ScanOk(q) && q.k == p.k && q.s.queue == p.s.queue && q.s.slots == p.s.slots
    requires Traced(p, c, dt)
    ensures Traced(q, c, dt)
  {
  }

  lemma KnownCommand(p: Scan, c: Command, dt: int)
    requires ScanOk(p) && p.k < |p.s.queue| && Traced(p, c, dt)
    ensures p.s.queue[p.k].id == c.id ==> p.s.queue[p.k] == c
  {
  }

  lemma TakingOutTraces(p: Scan, c: Command, dt: int)
    requires ScanOk(p) && p.k < |p.s.queue| && Traced(p, c, dt)
    ensures Traced(p.(s := p.s.(queue := Without(p.s.queue, p.k))), c, dt)
  {
    var q := Without(p.s.queue, p.k);
    assert forall k :: 0 <= k < |q| ==> q[k] == p.s.queue[if k < p.k then k else k + 1];
  }

  lemma LaunchTraces(p: Scan, c: Command, dt: int, ind: nat)
    requires ScanOk(p) && p.k < |p.s.queue| && InTable(ind) && Traced(p, c, dt) && Placed(p, c)
    ensures var q := Launch(p, Ticked(p.s.queue[p.k], dt), ind); Traced(q, c, dt) && Placed(q, c)
  {
    var b := p.s.queue[p.k];
    var d := Ticked(b, dt).(taskId := ind);
    var s := p.s.(queue := Without(p.s.queue, p.k));
    TakingOutTraces(p, c, dt);
    SendingIgnoresSlot(b, dt, ind);
    hide Sent, SendFails, Traced, Ends, FinishNotes;
    if !SendFails(d) && Sent(d).timeout > 0 {
      var r := p.(s := s.(motorDisabled := s.motorDisabled && !EnablesMotors(d)));
      TracedBySlots(p.(s := s), r, c, dt);
      KnownCommand(p, c, dt);
      FilingTraces(r, c, dt, Sent(d), ind);
    } else {
      TracedBySlots(p.(s := s), Launch(p, Ticked(b, dt), ind), c, dt);
      KnownCommand(p, c, dt);
    }
  }

  lemma {:induction false} ScanTraces(p: Scan, c: Command, dt: int)
    requires ScanOk(p) && Traced(p, c, dt) && Placed(p, c)
    ensures Traced(ScanAll(p, dt), c, dt) && Placed(ScanAll(p, dt), c)
    decreases |p.s.queue| - p.k
  {
    if !p.over && p.k < |p.s.queue| {
      var ind := SlotIndex(p);
      if ind != 0 { LaunchTraces(p, c, dt, ind); }
      ScanTraces(ScanStep(p, dt), c, dt);
    }
  }

  lemma QueuedIsTraced(s: State, k: nat, dt: int)
    requires |s.slots| == TABLE && Accounted(s) && k < |s.queue|
    ensures Traced(Scan(0, 0, false, s), s.queue[k], dt)
  {
    var id := s.queue[k].id;
    assert Places(s, id) <= 1;
    CountsOne(HasId(id), s.queue, k);
    forall j | 0 <= j < |s.queue| && s.queue[j].id == id ensures j == k {
      if j < k { CountsTwo(HasId(id), s.queue, j, k); } else if k < j { CountsTwo(HasId(id), s.queue, k, j); }
    }
    forall i | Listed(s.slots, i, id) ensures false { CountsOne(SlotHasId(id), s.slots, i); }
  }

  /** The table when the scan of an update is over. */
  function Scanned(s: State, dt: int): (t: State)
    requires |s.slots| == TABLE
    ensures |t.slots| == TABLE
  {
    ScanAll(Scan(0, 0, false, s), dt).s
  }

  /** A queued command that an update starts is in a slot at the end of its scan, sent under the number of
      that slot, unless it does not wait at all or has been overwritten. */
  lemma StartedIsPlaced(s: State, k: nat, dt: int)
    requires |s.slots| == TABLE && Accounted(s) && k < |s.queue| && s.queue[k].id !in s.started
    ensures var c, t := s.queue[k], Scanned(s, dt);
      && (c.id in t.started && Lasts(c) && c.id !in t.lost ==> exists i :: Listed(t.slots, i, c.id))
      && (forall i :: Listed(t.slots, i, c.id) ==> Lasts(c) && t.slots[i] == Some(InSlot(c, dt, i)))
  {
    QueuedIsTraced(s, k, dt);
    ScanTraces(Scan(0, 0, false, s), s.queue[k], dt);
  }

  /** The command as the update sent it waits as long as Send says, and what other traffic must not
      single out is the same. */
  lemma InSlotIsSent(c: Command, dt: int, i: int, es: seq<Event>)
    requires !SendFails(c)
    ensures var d := InSlot(c, dt, i);
      && d.id == c.id && d.timeout == Sent(c).timeout && d.replies == Sent(c).replies
      && (AllQuiet(Sent(c), es) ==> AllQuiet(d, es))
  {
    SendingIgnoresSlot(c, dt, i);
    hide Sent, SendFails;
    if AllQuiet(Sent(c), es) {
      forall j | 0 <= j < |es| ensures Quiet(InSlot(c, dt, i), es[j]) { assert Quiet(Sent(c), es[j]); }
    }
  }

  /** With at most one pass to live, the update that starts the command reports its timeout. */
  lemma TimeoutInUpdate(s: State, k: nat, dt: int, i: nat)
    requires Inv(s) && Accounted(s) && k < |s.queue| && s.queue[k].id !in s.started && dt >= 1
    requires Listed(Scanned(s, dt).slots, i, s.queue[k].id)
    ensures Lasts(s.queue[k])
    ensures var c, n := s.queue[k], CeilDiv(Sent(s.queue[k]).timeout, dt);
      && (n == 1 <==> Update(s, dt).slots[i].None?)
      && (n == 1 ==> exists x :: x in Update(s, dt).notes && x.Final? && x.id == c.id && x.error == -2)
  {
    StartedIsPlaced(s, k, dt);
    ScanKeepsInv(Scan(0, 0, false, s), dt);
    var d := InSlot(s.queue[k], dt, i);
    InSlotIsSent(s.queue[k], dt, i, []);
    hide Sent, SendFails, ScanAll, InSlot, Inv, SweepSlots, Accounted;
    TimeoutAtOnce(Scanned(s, dt), dt, i, d);
  }

  /** Timeout exactness from the update that starts the command: with T as Send leaves it, the command
      is out after each pass before the ceil(T/dt)-th, that of this update being the first, and
      that pass reports it with -2. */
  lemma TimeoutFromUpdate(s: State, k: nat, dt: int, es: seq<Event>, i: nat)
    requires Inv(s) && Accounted(s) && k < |s.queue| && s.queue[k].id !in s.started && dt >= 1
    requires Listed(Scanned(s, dt).slots, i, s.queue[k].id) && Lasts(s.queue[k])
    requires AllQuiet(Sent(s.queue[k]), es) && EveryTick(es, dt) && RepliesIn(es, i) < Sent(s.queue[k]).replies
    requires Ticks(es) + 1 < CeilDiv(Sent(s.queue[k]).timeout, dt)
    ensures var c, n := s.queue[k], CeilDiv(Sent(s.queue[k]).timeout, dt);
      var t := Run(Update(s, dt), es);
      && t.slots[i].Some? && t.slots[i].value.id == c.id
      && (Ticks(es) + 2 == n <==> Update(t, dt).slots[i].None?)
      && (Ticks(es) + 2 == n ==>
            exists x :: x in Update(t, dt).notes && x.Final? && x.id == c.id && x.error == -2)
  {
    StartedIsPlaced(s, k, dt);
    ScanKeepsInv(Scan(0, 0, false, s), dt);
    InSlotIsSent(s.queue[k], dt, i, es);
    hide Sent, SendFails, ScanAll, InSlot, Inv, SweepSlots, Accounted, AllQuiet;
    TimeoutExact(Scanned(s, dt), dt, es, i, InSlot(s.queue[k], dt, i));
  }
}
