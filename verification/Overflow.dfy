/** When does an update push a command out of an occupied slot? The free index found for one
    queued command is not reset for the next (server/RDSTask.cpp:82-122), so once the table fills
    up during an update, later commands of that update go into the slot filled last. */
module Overflow {
  import opened Basics
  import opened Commands
  import opened Scheduler
  import opened Draining
  import opened Blocking

  function FreeSlots(slots: seq<Option<Command>>): set<int>
    requires |slots| == TABLE
  {
    set i | 1 <= i <= LAST_SLOT && slots[i].None?
  }

  function Active(slots: seq<Option<Command>>): set<Command>
    requires |slots| == TABLE
  {
    set i | 1 <= i <= LAST_SLOT && slots[i].Some? :: slots[i].value
  }

  ghost predicate AnyBlocks(active: set<Command>, c: Command) {
    exists a :: a in active && Blocked(a, c)
  }

  /** How many of the queued commands an update would put out if the table had no end: those that
      are due, and held back neither by what is out nor by those put out before them. */
  ghost function Demand(active: set<Command>, todo: seq<Command>, dt: int): nat
    decreases |todo|
  {
    if todo == [] then 0
    else
      var c := Ticked(todo[0], dt);
      if c.startTime > 0 || AnyBlocks(active, c) then Demand(active, todo[1..], dt)
      else if SendFails(c) then 0
      else if Sent(c).timeout > 0 then 1 + Demand(active + {Sent(c)}, todo[1..], dt)
      else Demand(active, todo[1..], dt)
  }

  ghost predicate SameBlockers(active: set<Command>, slots: seq<Option<Command>>)
    requires |slots| == TABLE
  {
    forall c :: AnyBlocks(active, c) <==> HeldBack(slots, c)
  }

  lemma ActiveIsTable(slots: seq<Option<Command>>)
    requires |slots| == TABLE
    ensures SameBlockers(Active(slots), slots)
  {
    forall c ensures AnyBlocks(Active(slots), c) <==> HeldBack(slots, c) {
      if HeldBack(slots, c) {
        var i :| 1 <= i <= LAST_SLOT && slots[i].Some? && Blocked(slots[i].value, c);
        assert slots[i].value in Active(slots);
      }
    }
  }

  lemma PlaceBlockers(active: set<Command>, slots: seq<Option<Command>>, c: Command, ind: nat)
    requires |slots| == TABLE && InTable(ind) && slots[ind].None? && SameBlockers(active, slots) && !SendFails(c)
    ensures SameBlockers(active + {Sent(c)}, slots[ind := Some(Sent(c.(taskId := ind)))])
  {
    var e := Sent(c.(taskId := ind));
    var slots' := slots[ind := Some(e)];
    forall d ensures AnyBlocks(active + {Sent(c)}, d) <==> HeldBack(slots', d) {
      assert Blocked(Sent(c), d) == Blocked(e, d);
      if HeldBack(slots, d) {
        var i :| 1 <= i <= LAST_SLOT && slots[i].Some? && Blocked(slots[i].value, d);
        assert slots'[i] == slots[i];
      }
      if Blocked(e, d) {
        assert slots'[ind].value == e;
        assert Sent(c) in active + {Sent(c)};
      }
      if AnyBlocks(active, d) {
        var a :| a in active && Blocked(a, d);
        assert a in active + {Sent(c)};
      }
    }
  }

  lemma PlaceTakesOne(slots: seq<Option<Command>>, c: Command, ind: nat)
    requires |slots| == TABLE && InTable(ind) && slots[ind].None?
    ensures |FreeSlots(slots[ind := Some(c)])| == |FreeSlots(slots)| - 1
  {
    assert FreeSlots(slots[ind := Some(c)]) == FreeSlots(slots) - {ind};
  }

  lemma FreeMeansFound(p: Scan)
    requires ScanOk(p)
    ensures var f := LastFree(p.s.slots, LAST_SLOT);
      if FreeSlots(p.s.slots) == {} then f == 0 else f > 0 && |FreeSlots(p.s.slots)| > 0
  {
    var f := LastFree(p.s.slots, LAST_SLOT);
    if f > 0 {
      assert f in FreeSlots(p.s.slots);
    }
  }

  /** A started command that is not put out has been reported, not forgotten. */
  lemma NothingForgotten(s: State, c: Command, ind: nat)
    requires Fresh(c) && !SendFails(c) && Sent(c).timeout <= 0
    ensures Close(s, Sent(c.(taskId := ind)), 0).lost == s.lost
  {
  }

  /** The rest of the scan has a slot for everything it puts out. */
  ghost predicate Roomy(p: Scan, dt: int, active: set<Command>)
    requires ScanOk(p)
  {
    || (FreeSlots(p.s.slots) == {} && p.ind == 0)
    || Demand(active, p.s.queue[p.k..], dt) <= |FreeSlots(p.s.slots)|
  }

  lemma KeepingRoom(p: Scan, dt: int, active: set<Command>)
    requires ScanOk(p) && !p.over && p.k < |p.s.queue| && SameBlockers(active, p.s.slots)
    requires var c := Ticked(p.s.queue[p.k], dt); c.startTime > 0 || SlotIndex(p) == 0 || HeldBack(p.s.slots, c)
    ensures var q := ScanStep(p, dt);
      && q.s.lost == p.s.lost && q.s.slots == p.s.slots
      && (if q.over then Roomy(p, dt, active) else Roomy(q, dt, active) <==> Roomy(p, dt, active))
  {
    var q := ScanStep(p, dt);
    assert q.s.queue[q.k..] == p.s.queue[p.k..][1..];
    FreeMeansFound(p);
    assert AnyBlocks(active, Ticked(p.s.queue[p.k], dt)) <==> HeldBack(p.s.slots, Ticked(p.s.queue[p.k], dt));
  }

  ghost predicate Starts(p: Scan, dt: int, active: set<Command>, c: Command, ind: nat) {
    && ScanOk(p) && !p.over && p.k < |p.s.queue| && SameBlockers(active, p.s.slots)
    && c == Ticked(p.s.queue[p.k], dt) && Fresh(c) && c.startTime <= 0
    && ind == SlotIndex(p) && InTable(ind) && !HeldBack(p.s.slots, c)
  }

  lemma DemandOfStart(p: Scan, dt: int, active: set<Command>, c: Command, ind: nat)
    requires Starts(p, dt, active, c, ind)
    ensures var rest := p.s.queue[p.k + 1..];
      Demand(active, p.s.queue[p.k..], dt) ==
        if SendFails(c) then 0
        else if Sent(c).timeout > 0 then 1 + Demand(active + {Sent(c)}, rest, dt)
        else Demand(active, rest, dt)
    ensures Without(p.s.queue, p.k)[p.k..] == p.s.queue[p.k + 1..]
  {
    assert p.s.queue[p.k..][1..] == p.s.queue[p.k + 1..];
    assert !AnyBlocks(active, c);
  }

  /** Into a free slot. */
  lemma PuttingRoom(p: Scan, dt: int, active: set<Command>, c: Command, ind: nat)
    requires Starts(p, dt, active, c, ind)
    requires !SendFails(c) && Sent(c).timeout > 0 && p.s.slots[ind].None?
    ensures var q := Launch(p, c, ind);
      && !q.over && q.s.lost == p.s.lost && SameBlockers(active + {Sent(c)}, q.s.slots)
      && (Roomy(q, dt, active + {Sent(c)}) <==> Roomy(p, dt, active))
  {
    DemandOfStart(p, dt, active, c, ind);
    assert ind in FreeSlots(p.s.slots);
    PlaceTakesOne(p.s.slots, Sent(c.(taskId := ind)), ind);
    PlaceBlockers(active, p.s.slots, c, ind);
  }

  /** Nowhere, for want of a device; the update ends. */
  lemma FailingRoom(p: Scan, dt: int, active: set<Command>, c: Command, ind: nat)
    requires Starts(p, dt, active, c, ind) && SendFails(c)
    ensures var q := Launch(p, c, ind); q.over && q.s.lost == p.s.lost && Roomy(p, dt, active)
  {
    DemandOfStart(p, dt, active, c, ind);
  }

  /** Into a slot that is taken. */
  lemma OverwritingRoom(p: Scan, dt: int, active: set<Command>, c: Command, ind: nat)
    requires Starts(p, dt, active, c, ind)
    requires !SendFails(c) && Sent(c).timeout > 0 && p.s.slots[ind].Some?
    ensures Launch(p, c, ind).s.lost != p.s.lost && !Roomy(p, dt, active)
  {
    DemandOfStart(p, dt, active, c, ind);
    FreeMeansFound(p);
  }

  /** Nowhere, because no reply is waited for. */
  lemma FinishingRoom(p: Scan, dt: int, active: set<Command>, c: Command, ind: nat)
    requires Starts(p, dt, active, c, ind)
    requires !SendFails(c) && Sent(c).timeout <= 0
    ensures var q := Launch(p, c, ind);
      && !q.over && q.s.lost == p.s.lost && q.s.slots == p.s.slots
      && (Roomy(q, dt, active) <==> Roomy(p, dt, active))
  {
    DemandOfStart(p, dt, active, c, ind);
    FreeMeansFound(p);
    NothingForgotten(MarkStarted(p.s, c), c, ind);
  }

  lemma {:induction false} ScanOverflows(p: Scan, dt: int, active: set<Command>)
    requires ScanOk(p) && !p.over && Inv(p.s) && SameBlockers(active, p.s.slots)
    ensures ScanAll(p, dt).s.lost == p.s.lost <==> Roomy(p, dt, active)
    decreases |p.s.queue| - p.k
  {
    if p.k < |p.s.queue| {
      var c := Ticked(p.s.queue[p.k], dt);
      var q := ScanStep(p, dt);
      var ind := SlotIndex(p);
      ScanStepKeepsInv(p, dt);
      LostOnlyGrows(q, dt);
      LostStepGrows(p, dt);
      if c.startTime > 0 || ind == 0 || HeldBack(p.s.slots, c) {
        KeepingRoom(p, dt, active);
        if !q.over { ScanOverflows(q, dt, active); }
      } else {
        assert q == Launch(p, c, ind);
        if !SendFails(c) && Sent(c).timeout > 0 && p.s.slots[ind].None? {
          PuttingRoom(p, dt, active, c, ind);
          ScanOverflows(q, dt, active + {Sent(c)});
        } else if SendFails(c) {
          FailingRoom(p, dt, active, c, ind);
        } else if Sent(c).timeout > 0 {
          OverwritingRoom(p, dt, active, c, ind);
        } else {
          FinishingRoom(p, dt, active, c, ind);
          ScanOverflows(q, dt, active);
        }
      }
    }
  }

  /** The table is full when an update begins, or has room for all that it would put out. */
  ghost predicate HasRoom(s: State, dt: int)
    requires |s.slots| == TABLE
  {
    FreeSlots(s.slots) == {} || Demand(Active(s.slots), s.queue, dt) <= |FreeSlots(s.slots)|
  }

  /** Exact condition: an update overwrites no slot if and only if the table is full at its
      start, when nothing is started, or has room for all commands it would put out. */
  lemma OverwritesNothingIff(s: State, dt: int)
    requires Inv(s)
    ensures Update(s, dt).lost == s.lost <==> HasRoom(s, dt)
  {
    ActiveIsTable(s.slots);
    ScanOverflows(Scan(0, 0, false, s), dt, Active(s.slots));
    assert s.queue[0..] == s.queue;
  }

  ghost predicate AlwaysHasRoom(s: State, es: seq<Event>)
    requires |s.slots| == TABLE
    decreases |es|
  {
    es == [] || ((es[0].Tick? ==> HasRoom(s, es[0].dt)) && AlwaysHasRoom(Apply(s, es[0]), es[1..]))
  }

  lemma OnlyUpdatesLose(s: State, e: Event)
    requires Inv(s) && (e.Tick? ==> HasRoom(s, e.dt))
    ensures Apply(s, e).lost == s.lost
  {
    if e.Tick? { OverwritesNothingIff(s, e.dt); }
  }

  /** For whole runs: no command is ever overwritten if and only if each update of the run finds the
      table full or with room for all that it would put out. */
  lemma {:induction false} RunOverwritesNothingIff(s: State, es: seq<Event>)
    requires Inv(s) && Feasible(s, es)
    ensures Run(s, es).lost == s.lost <==> AlwaysHasRoom(s, es)
    decreases |es|
  {
    if es != [] {
      var t := Apply(s, es[0]);
      ApplyKeepsInv(s, es[0]);
      ApplyLost(s, es[0]);
      RunLost(t, es[1..]);
      RunOverwritesNothingIff(t, es[1..]);
      if es[0].Tick? { OverwritesNothingIff(s, es[0].dt); } else { OnlyUpdatesLose(s, es[0]); }
    }
  }

  // ---- a run that overwrites a slot ----

  /** An emotion command as constructed, the n-th created. */
  function Waiter(n: int): Command {
    Command(n, Emoji, 0, 0x35, false, false, 0, FIRST_TIMEOUT, UNSENT_TASK_ID, 1, false)
  }

  function Waiters(n: nat): seq<Command> {
    if n == 0 then [] else Waiters(n - 1) + [Waiter(n)]
  }

  /** The first n of them are added. */
  function Adds(n: nat): seq<Event> {
    if n == 0 then [] else Adds(n - 1) + [Add(Waiter(n))]
  }

  function UpTo(n: nat): set<int> {
    if n == 0 then {} else UpTo(n - 1) + {n}
  }

  lemma {:induction false} InUpTo(n: nat, i: int)
    ensures (i in UpTo(n) <==> 1 <= i <= n) && |UpTo(n)| == n
  {
    if n > 0 {
      InUpTo(n - 1, i);
      InUpTo(n - 1, n);
    }
  }

  lemma {:induction false} AddsQueue(n: nat)
    ensures Feasible(Initial, Adds(n))
    ensures Run(Initial, Adds(n)) == Initial.(queue := Waiters(n), accepted := UpTo(n))
  {
    if n > 0 {
      AddsQueue(n - 1);
      var s, last := Run(Initial, Adds(n - 1)), [Add(Waiter(n))];
      assert last[1..] == [];
      InUpTo(n - 1, n);
      RunJoins(Initial, Adds(n - 1), last);
      assert Run(s, last) == Apply(s, Add(Waiter(n)));
    }
  }

  /** All of them are due at once, and none holds another back. */
  lemma {:induction false} WaitersDemand(active: set<Command>, todo: seq<Command>)
    requires forall a, d :: a in active ==> !Blocked(a, d)
    requires forall k :: 0 <= k < |todo| ==> todo[k] == Waiter(todo[k].id)
    ensures Demand(active, todo, 100) == |todo|
    decreases |todo|
  {
    if todo != [] {
      var c := Ticked(todo[0], 100);
      assert Sent(c) == c && forall d :: !Blocked(c, d);
      WaitersDemand(active + {c}, todo[1..]);
    }
  }

  lemma {:induction false} WaitersAreWaiters(n: nat)
    ensures |Waiters(n)| == n && forall k :: 0 <= k < n ==> Waiters(n)[k] == Waiter(Waiters(n)[k].id)
  {
    if n > 0 { WaitersAreWaiters(n - 1); }
  }

  lemma NewTableIsFree()
    ensures |FreeSlots(Initial.slots)| == 251 && Active(Initial.slots) == {}
  {
    forall i ensures i in FreeSlots(Initial.slots) <==> i in UpTo(LAST_SLOT) { InUpTo(LAST_SLOT, i); }
    assert FreeSlots(Initial.slots) == UpTo(LAST_SLOT);
    InUpTo(LAST_SLOT, 0);
  }

  lemma WaitersOverflow(s: State)
    requires Inv(s) && s.slots == Initial.slots && s.queue == Waiters(252)
    ensures Update(s, 100).lost != s.lost
  {
    NewTableIsFree();
    WaitersAreWaiters(252);
    WaitersDemand({}, Waiters(252));
    OverwritesNothingIff(s, 100);
  }

  /** With 252 such commands, one more than there are slots, the first update of a new scheduler
      overwrites a slot. */
  lemma OverwriteHappens()
    ensures Feasible(Initial, Adds(252) + [Tick(100)])
    ensures Run(Initial, Adds(252) + [Tick(100)]).lost != []
  {
    hide Adds, Waiters, Update, Inv;
    var es := [Tick(100)];
    AddsQueue(252);
    var s := Run(Initial, Adds(252));
    RunKeepsInv(Initial, Adds(252));
    WaitersOverflow(s);
    assert es[1..] == [] && Run(s, es) == Update(s, 100);
    RunJoins(Initial, Adds(252), es);
  }
}
