/** The slot invariant, and the bound within which an undisturbed scheduler empties itself. */
module Draining {
  import opened Basics
  import opened Commands
  import opened Scheduler
  import opened Sums

  // ---- the slot invariant is kept ----

  lemma LaunchKeepsInv(p: Scan, c: Command, ind: nat)
    requires ScanOk(p) && p.k < |p.s.queue| && InTable(ind) && Inv(p.s) && Fresh(c)
    ensures Inv(Launch(p, c, ind).s)
  {
    hide FinishNotes, Ends;
    var q := Launch(p, c, ind);
    forall k | 0 <= k < |q.s.queue| ensures Fresh(q.s.queue[k]) {
      assert q.s.queue[k] == p.s.queue[if k < p.k then k else k + 1];
    }
  }

  lemma ScanStepKeepsInv(p: Scan, dt: int)
    requires ScanOk(p) && p.k < |p.s.queue| && !p.over && Inv(p.s)
    ensures Inv(ScanStep(p, dt).s)
  {
    var c := Ticked(p.s.queue[p.k], dt);
    if c.startTime <= 0 && SlotIndex(p) != 0 && !HeldBack(p.s.slots, c) {
      LaunchKeepsInv(p, c, SlotIndex(p));
    }
  }

  lemma {:induction false} ScanKeepsInv(p: Scan, dt: int)
    requires ScanOk(p) && Inv(p.s)
    ensures Inv(ScanAll(p, dt).s)
    decreases |p.s.queue| - p.k
  {
    if !p.over && p.k < |p.s.queue| {
      ScanStepKeepsInv(p, dt);
      ScanKeepsInv(ScanStep(p, dt), dt);
    }
  }

  lemma {:induction false} SparedAreQueued(f: Filter, q: seq<Command>)
    ensures forall c :: c in Spared(f, q) ==> c in q && !Hits(f, c)
  {
    if q != [] { SparedAreQueued(f, q[1..]); }
  }

  lemma SweepQueueKeepsInv(f: Filter, s: State)
    requires Inv(s)
    ensures Inv(SweepQueue(f, s))
  {
    SparedAreQueued(f, s.queue);
    forall k | 0 <= k < |Spared(f, s.queue)| ensures Fresh(Spared(f, s.queue)[k]) {
      assert Spared(f, s.queue)[k] in s.queue;
    }
  }

  lemma ApplyKeepsInv(s: State, e: Event)
    requires Inv(s) && (e.Add? ==> Fresh(e.c))
    ensures Inv(Apply(s, e))
  {
    match e
    case Tick(dt) => ScanKeepsInv(Scan(0, 0, false, s), dt);
    case Stop(cls) => SweepQueueKeepsInv(OfClass(cls), SweepSlots(Kill(OfClass(cls)), s));
    case Cancel(session) =>
      if session != 0 { SweepQueueKeepsInv(OfSession(session), SweepSlots(Kill(OfSession(session)), s)); }
    case _ =>
  }

  /** Slot invariant: it holds after every feasible run. */
  lemma {:induction false} RunKeepsInv(s: State, es: seq<Event>)
    requires Inv(s) && Feasible(s, es)
    ensures Inv(Run(s, es))
    decreases |es|
  {
    if es != [] {
      ApplyKeepsInv(s, es[0]);
      RunKeepsInv(Apply(s, es[0]), es[1..]);
    }
  }

  lemma {:induction false} RunJoins(s: State, a: seq<Event>, b: seq<Event>)
    requires |s.slots| == TABLE && Feasible(s, a) && Feasible(Run(s, a), b)
    ensures Feasible(s, a + b) && Run(s, a + b) == Run(Run(s, a), b)
    decreases |a|
  {
    hide Apply;
    if a == [] {
      assert a + b == b;
    } else {
      assert (a + b)[0] == a[0] && (a + b)[1..] == a[1..] + b;
      RunJoins(Apply(s, a[0]), a[1..], b);
    }
  }

  // ---- the measure ----

  function Positive(x: int): nat {
    if x > 0 then x else 0
  }

  function TimeoutOnceSent(c: Command): int {
    if SendFails(c) then 0 else Sent(c).timeout
  }

  function QueueWeight(c: Command): nat {
    Positive(c.startTime) + Positive(TimeoutOnceSent(c)) + 1
  }

  function SlotWeight(o: Option<Command>): nat {
    if o.Some? then Positive(o.value.timeout) else 0
  }

  /** Delays left, reply times to come and reply times left. */
  ghost function Work(s: State): nat {
    SumBy(QueueWeight, s.queue) + SumBy(SlotWeight, s.slots)
  }

  ghost predicate Idle(s: State) {
    s.queue == [] && forall i :: 0 <= i < |s.slots| ==> s.slots[i].None?
  }

  lemma LaunchedWork(queue: seq<Command>, slots: seq<Option<Command>>, k: nat, ind: nat, o: Option<Command>)
    requires k < |queue| && ind < |slots| && SlotWeight(o) < QueueWeight(queue[k])
    ensures SumBy(QueueWeight, Without(queue, k)) + SumBy(SlotWeight, slots[ind := o])
            < SumBy(QueueWeight, queue) + SumBy(SlotWeight, slots)
    ensures SumBy(QueueWeight, Without(queue, k)) < SumBy(QueueWeight, queue)
  {
    SumBySplit(QueueWeight, queue, k);
    SumByUpdate(SlotWeight, slots, ind, o);
  }

  lemma LaunchWorks(p: Scan, c: Command, ind: nat)
    requires ScanOk(p) && p.k < |p.s.queue| && InTable(ind)
    requires QueueWeight(c) <= QueueWeight(p.s.queue[p.k])
    ensures Work(Launch(p, c, ind).s) < Work(p.s)
  {
    var d := c.(taskId := ind);
    LaunchedWork(p.s.queue, p.s.slots, p.k, ind, if SendFails(d) then None else Some(Sent(d)));
  }

  lemma EmptyHoldsNothing(slots: seq<Option<Command>>, c: Command)
    requires |slots| == TABLE && forall i :: InTable(i) ==> slots[i].None?
    ensures !HeldBack(slots, c) && LastFree(slots, LAST_SLOT) == LAST_SLOT
  {
  }

  lemma TickedWeighsLess(c: Command, dt: int)
    requires dt >= 1
    ensures QueueWeight(Ticked(c, dt)) <= QueueWeight(c)
    ensures Ticked(c, dt).startTime > 0 ==> QueueWeight(Ticked(c, dt)) < QueueWeight(c)
  {
  }

  lemma KeptWorks(s: State, k: nat, dt: int)
    requires k < |s.queue| && dt >= 1
    ensures var c := Ticked(s.queue[k], dt); var t := s.(queue := s.queue[k := c]);
      Work(t) <= Work(s) && (c.startTime > 0 ==> Work(t) < Work(s))
  {
    TickedWeighsLess(s.queue[k], dt);
    hide QueueWeight, SlotWeight;
    SumByUpdate(QueueWeight, s.queue, k, Ticked(s.queue[k], dt));
  }

  lemma ScanStepWorks(p: Scan, dt: int)
    requires ScanOk(p) && p.k < |p.s.queue| && !p.over && dt >= 1
    ensures Work(ScanStep(p, dt).s) <= Work(p.s)
    ensures p.k == 0 && Inv(p.s) && (forall i :: InTable(i) ==> p.s.slots[i].None?)
        ==> Work(ScanStep(p, dt).s) < Work(p.s)
  {
    hide HeldBack, Work, Launch, QueueWeight, SumBy;
    var c := Ticked(p.s.queue[p.k], dt);
    KeptWorks(p.s, p.k, dt);
    if forall i :: InTable(i) ==> p.s.slots[i].None? { EmptyHoldsNothing(p.s.slots, c); }
    if c.startTime <= 0 && SlotIndex(p) != 0 && !HeldBack(p.s.slots, c) {
      TickedWeighsLess(p.s.queue[p.k], dt);
      LaunchWorks(p, c, SlotIndex(p));
    }
  }

  lemma {:induction false} ScanWorks(p: Scan, dt: int)
    requires ScanOk(p) && dt >= 1
    ensures Work(ScanAll(p, dt).s) <= Work(p.s)
    decreases |p.s.queue| - p.k
  {
    if !p.over && p.k < |p.s.queue| {
      ScanStepWorks(p, dt);
      ScanWorks(ScanStep(p, dt), dt);
    }
  }

  lemma {:induction false} ScanOnlyFills(p: Scan, dt: int, i: nat)
    requires ScanOk(p) && i < TABLE && p.s.slots[i].Some?
    ensures ScanAll(p, dt).s.slots[i].Some?
    decreases |p.s.queue| - p.k
  {
    if !p.over && p.k < |p.s.queue| { ScanOnlyFills(ScanStep(p, dt), dt, i); }
  }

  lemma ExpiryWorks(s: State, dt: int)
    requires dt >= 1
    ensures Work(SweepSlots(Expire(dt), s)) <= Work(s)
    ensures Inv(s) && (exists i :: 0 <= i < TABLE && s.slots[i].Some?)
        ==> Work(SweepSlots(Expire(dt), s)) < Work(s)
  {
    var t := SweepSlots(Expire(dt), s);
    SumByMonotone(SlotWeight, t.slots, s.slots);
    if Inv(s) && exists i :: 0 <= i < TABLE && s.slots[i].Some? {
      var i :| 0 <= i < TABLE && s.slots[i].Some?;
      assert SlotWeight(t.slots[i]) < SlotWeight(s.slots[i]);
    }
  }

  /** Every update of a scheduler that is not idle uses up work, although Send may raise a
      timeout and held-back or late commands are passed over. */
  lemma UpdateWorks(s: State, dt: int)
    requires Inv(s) && dt >= 1
    ensures Work(Update(s, dt)) <= Work(s)
    ensures !Idle(s) ==> Work(Update(s, dt)) < Work(s)
  {
    var p := Scan(0, 0, false, s);
    var q := ScanAll(p, dt);
    ScanKeepsInv(p, dt);
    ScanWorks(p, dt);
    ExpiryWorks(q.s, dt);
    if i :| 0 <= i < TABLE && s.slots[i].Some? {
      ScanOnlyFills(p, dt, i);
    } else if s.queue != [] {
      ScanStepWorks(p, dt);
      ScanWorks(ScanStep(p, dt), dt);
    }
  }

  lemma {:induction false} SparedWorks(f: Filter, q: seq<Command>)
    ensures SumBy(QueueWeight, Spared(f, q)) <= SumBy(QueueWeight, q)
  {
    if q != [] {
      SparedWorks(f, q[1..]);
      SumByAppend(QueueWeight, if Hits(f, q[0]) then [] else [q[0]], Spared(f, q[1..]));
      SumByOne(QueueWeight, q[0]);
    }
  }

  lemma OtherEventsWork(s: State, e: Event)
    requires |s.slots| == TABLE && !e.Add? && !e.Tick?
    ensures Work(Apply(s, e)) <= Work(s)
  {
    match e
    case Reply(task, result, flags, cmd) =>
      var j := FirstAnswering(s.slots, 1, task, flags, cmd);
      if j != TABLE {
        var c := s.slots[j].value;
        SumByUpdate(SlotWeight, s.slots, j, if Ends(c, 0) then None else Some(Finished(c, result)));
      }
    case Stop(cls) =>
      SumByMonotone(SlotWeight, SweepSlots(Kill(OfClass(cls)), s).slots, s.slots);
      SparedWorks(OfClass(cls), s.queue);
    case Cancel(session) =>
      var f := if session == 0 then Everything else OfSession(session);
      SumByMonotone(SlotWeight, SweepSlots(Kill(f), s).slots, s.slots);
      SparedWorks(f, s.queue);
    case LockMotors =>
  }

  ghost predicate NoAdds(es: seq<Event>) {
    forall k :: 0 <= k < |es| ==> !es[k].Add? && (es[k].Tick? ==> es[k].dt >= 1)
  }

  function Ticks(es: seq<Event>): nat {
    if es == [] then 0 else (if es[0].Tick? then 1 else 0) + Ticks(es[1..])
  }

  lemma IdleStays(s: State, e: Event)
    requires Inv(s) && Idle(s) && !e.Add?
    ensures Idle(Apply(s, e))
  {
  }

  /** Scheduler drain: in any run that adds nothing, whatever else happens in it, as many
      updates as there is work leave the queue and every slot empty. */
  lemma {:induction false} Drain(s: State, es: seq<Event>)
    requires Inv(s) && NoAdds(es) && (Idle(s) || Ticks(es) >= Work(s))
    ensures Idle(Run(s, es))
    decreases |es|
  {
    if es == [] {
      forall i | 0 <= i < TABLE && s.slots[i].Some? ensures false {
        SumBySplit(SlotWeight, s.slots, i);
      }
    } else {
      var e := es[0];
      ApplyKeepsInv(s, e);
      if Idle(s) {
        IdleStays(s, e);
      } else if e.Tick? {
        UpdateWorks(s, e.dt);
      } else {
        OtherEventsWork(s, e);
      }
      Drain(Apply(s, e), es[1..]);
    }
  }
}
