/** When do commands that wait for the same thing start in the order they were queued? In every update
    that does not let one overtake another, and that happens only where a slot is overwritten
    (server/RDSTask.cpp:82-140). */
module StartOrders {
  import opened Basics
  import opened Commands
  import opened Scheduler
  import opened Draining
  import opened Blocking
  import opened Overflow

  // ---- in one update ----

  /** Whether a scan of `todo` starts y after it has passed over x. `last` is what is in the slot filled
      last, if any, `rest` what else is out, and `free` the number of free slots; in a full table the
      slot filled last is filled again. */
  ghost predicate Overtakes(rest: set<Command>, last: set<Command>, free: nat, todo: seq<Command>, dt: int,
                            x: int, y: int, passed: bool)
    decreases |todo|
  {
    todo != [] &&
    var c, tail := Ticked(todo[0], dt), todo[1..];
    if c.startTime > 0 then Overtakes(rest, last, free, tail, dt, x, y, passed || c.id == x)
    else if free == 0 && last == {} then false
    else if AnyBlocks(rest + last, c) then Overtakes(rest, last, free, tail, dt, x, y, passed || c.id == x)
    else if SendFails(c) then false
    else
      || (passed && c.id == y)
      || (if Sent(c).timeout <= 0 then Overtakes(rest, last, free, tail, dt, x, y, passed)
          else if free > 0 then Overtakes(rest + last, {Sent(c)}, free - 1, tail, dt, x, y, passed)
          else Overtakes(rest, {Sent(c)}, 0, tail, dt, x, y, passed))
  }

  /** The sets stand for the table of a scan, and x has been passed over or not. */
  ghost predicate Tracks(p: Scan, rest: set<Command>, last: set<Command>)
    requires ScanOk(p)
  {
    && SameBlockers(rest + last, p.s.slots)
    && (FreeSlots(p.s.slots) == {} ==>
          && (p.ind == 0 <==> last == {})
          && (p.ind != 0 ==> SameBlockers(rest, p.s.slots[p.ind := None])))
  }

  ghost predicate Passed(p: Scan, x: int)
    requires ScanOk(p)
  {
    exists a :: 0 <= a < p.k && p.s.queue[a].id == x
  }

  lemma KeptTracks(p: Scan, dt: int, rest: set<Command>, last: set<Command>, x: int)
    requires ScanOk(p) && !p.over && p.k < |p.s.queue| && Tracks(p, rest, last)
    requires var c := Ticked(p.s.queue[p.k], dt); c.startTime > 0 || (SlotIndex(p) != 0 && HeldBack(p.s.slots, c))
    ensures var q := ScanStep(p, dt);
      && Kept(p, q, dt) && !q.over && Tracks(q, rest, last) && q.s.queue[q.k..] == p.s.queue[p.k..][1..]
      && (Passed(q, x) <==> Passed(p, x) || p.s.queue[p.k].id == x)
  {
    var q := ScanStep(p, dt);
    FreeMeansFound(p);
    if p.s.queue[p.k].id == x { assert q.s.queue[p.k].id == x; }
    if a :| 0 <= a < p.k && p.s.queue[a].id == x { assert q.s.queue[a].id == x; }
  }

  lemma PlacedTracks(p: Scan, q: Scan, rest: set<Command>, last: set<Command>, c: Command, ind: nat)
    requires ScanOk(p) && ScanOk(q) && Tracks(p, rest, last) && InTable(ind) && ind == SlotIndex(p) == q.ind
    requires !SendFails(c) && q.s.slots == p.s.slots[ind := Some(Sent(c.(taskId := ind)))]
    ensures Tracks(q, if FreeSlots(p.s.slots) == {} then rest else rest + last, {Sent(c)})
    ensures |FreeSlots(q.s.slots)| == if FreeSlots(p.s.slots) == {} then 0 else |FreeSlots(p.s.slots)| - 1
  {
    FreeMeansFound(p);
    if FreeSlots(p.s.slots) == {} {
      var emptied := p.s.slots[ind := None];
      PlaceBlockers(rest, emptied, c, ind);
      assert emptied[ind := q.s.slots[ind]] == q.s.slots && q.s.slots[ind := None] == emptied;
      assert FreeSlots(q.s.slots) == {};
    } else {
      PlaceBlockers(rest + last, p.s.slots, c, ind);
      PlaceTakesOne(p.s.slots, Sent(c.(taskId := ind)), ind);
      assert q.s.slots[ind := None] == p.s.slots;
    }
  }

  lemma LeftPasses(p: Scan, q: Scan, x: int)
    requires ScanOk(p) && ScanOk(q) && p.k < |p.s.queue| && q.k == p.k && q.s.queue == Without(p.s.queue, p.k)
    ensures q.s.queue[q.k..] == p.s.queue[p.k..][1..] && (Passed(q, x) <==> Passed(p, x))
  {
    if a :| 0 <= a < p.k && p.s.queue[a].id == x { assert q.s.queue[a].id == x; }
  }

  /** A step that starts a command, and one that cannot send it. */
  ghost predicate Starting(p: Scan, c: Command, dt: int)
    requires ScanOk(p)
  {
    && !p.over && p.k < |p.s.queue| && c == Ticked(p.s.queue[p.k], dt)
    && c.startTime <= 0 && SlotIndex(p) != 0 && !HeldBack(p.s.slots, c)
  }

  lemma LaunchShape(p: Scan, c: Command, dt: int)
    requires ScanOk(p) && Starting(p, c, dt) && !SendFails(c)
    ensures var q, ind := ScanStep(p, dt), SlotIndex(p);
      && !q.over && q.k == p.k && q.ind == ind && InTable(ind) && q.s.queue == Without(p.s.queue, p.k)
      && q.s.slots ==
         if Sent(c).timeout > 0 then p.s.slots[ind := Some(Sent(c.(taskId := ind)))] else p.s.slots
  {
    assert ScanStep(p, dt) == Launch(p, c, SlotIndex(p));
  }

  lemma StartingTracks(p: Scan, c: Command, dt: int, rest: set<Command>, last: set<Command>, x: int)
    requires ScanOk(p) && Starting(p, c, dt) && !SendFails(c) && Tracks(p, rest, last)
    ensures var q := ScanStep(p, dt);
      && !q.over && q.s.queue[q.k..] == p.s.queue[p.k..][1..] && (Passed(q, x) <==> Passed(p, x))
      && (if Sent(c).timeout <= 0 then Tracks(q, rest, last) && |FreeSlots(q.s.slots)| == |FreeSlots(p.s.slots)|
          else if |FreeSlots(p.s.slots)| > 0 then
            Tracks(q, rest + last, {Sent(c)}) && |FreeSlots(q.s.slots)| == |FreeSlots(p.s.slots)| - 1
          else Tracks(q, rest, {Sent(c)}) && |FreeSlots(q.s.slots)| == 0)
  {
    var q := ScanStep(p, dt);
    var ind := SlotIndex(p);
    LaunchShape(p, c, dt);
    hide HeldBack, Sent, ScanStep, SameBlockers;
    LeftPasses(p, q, x);
    FreeMeansFound(p);
    if Sent(c).timeout > 0 { PlacedTracks(p, q, rest, last, c, ind); }
  }

  lemma OvertakingIsStarting(p: Scan, dt: int, x: int, y: int)
    requires ScanOk(p) && !p.over && p.k < |p.s.queue|
    ensures var c := Ticked(p.s.queue[p.k], dt);
      Overtaking(p, dt, x, y) <==> Starting(p, c, dt) && !SendFails(c) && c.id == y && Passed(p, x)
  {
    hide HeldBack, SlotIndex, SendFails;
  }

  lemma NotStarting(p: Scan, dt: int, rest: set<Command>, last: set<Command>)
    requires ScanOk(p) && !p.over && p.k < |p.s.queue| && Tracks(p, rest, last)
    ensures var c := Ticked(p.s.queue[p.k], dt); var free := |FreeSlots(p.s.slots)|;
      && (SlotIndex(p) == 0 <==> free == 0 && last == {})
      && (AnyBlocks(rest + last, c) <==> HeldBack(p.s.slots, c))
      && (c.startTime <= 0 && SlotIndex(p) == 0 ==> ScanStep(p, dt).over)
      && (Starting(p, c, dt) && SendFails(c) ==> ScanStep(p, dt).over)
  {
    FreeMeansFound(p);
    hide HeldBack, AnyBlocks, SendFails;
  }

  /** What the recursion says is what the scan does. */
  lemma {:induction false} ScanOvertakesIff(p: Scan, dt: int, rest: set<Command>, last: set<Command>, x: int, y: int)
    requires ScanOk(p) && !p.over && Tracks(p, rest, last)
    ensures ScanOvertakes(p, dt, x, y)
        <==> Overtakes(rest, last, |FreeSlots(p.s.slots)|, p.s.queue[p.k..], dt, x, y, Passed(p, x))
    decreases |p.s.queue| - p.k
  {
    hide Tracks, Passed, Overtaking, HeldBack, AnyBlocks, SendFails, Sent, ScanStep, FreeSlots, SlotIndex, Kept;
    if p.k < |p.s.queue| {
      var c := Ticked(p.s.queue[p.k], dt);
      var q := ScanStep(p, dt);
      OvertakingIsStarting(p, dt, x, y);
      NotStarting(p, dt, rest, last);
      if c.startTime > 0 || (SlotIndex(p) != 0 && HeldBack(p.s.slots, c)) {
        KeptTracks(p, dt, rest, last, x);
        KeptSlots(p, q, dt);
        ScanOvertakesIff(q, dt, rest, last, x, y);
      } else if SlotIndex(p) != 0 && !SendFails(c) {
        StartingTracks(p, c, dt, rest, last, x);
        if Sent(c).timeout <= 0 {
          ScanOvertakesIff(q, dt, rest, last, x, y);
        } else if |FreeSlots(p.s.slots)| > 0 {
          ScanOvertakesIff(q, dt, rest + last, {Sent(c)}, x, y);
        } else {
          ScanOvertakesIff(q, dt, rest, {Sent(c)}, x, y);
        }
      }
    }
  }

  lemma KeptSlots(p: Scan, q: Scan, dt: int)
    requires ScanOk(p) && p.k < |p.s.queue| && Kept(p, q, dt)
    ensures q.s.slots == p.s.slots
  {
  }

  /** Whether an update lets y overtake x: a question about queue, table and passed time alone. */
  ghost predicate UpdateOvertakes(s: State, dt: int, x: int, y: int)
    requires |s.slots| == TABLE
  {
    Overtakes(Active(s.slots), {}, |FreeSlots(s.slots)|, s.queue, dt, x, y, false)
  }

  lemma UpdateOvertakesIff(s: State, dt: int, x: int, y: int)
    requires |s.slots| == TABLE
    ensures UpdateOvertakes(s, dt, x, y) <==> ScanOvertakes(Scan(0, 0, false, s), dt, x, y)
  {
    var p := Scan(0, 0, false, s);
    ActiveIsTable(s.slots);
    assert Active(s.slots) + {} == Active(s.slots);
    assert s.queue[0..] == s.queue;
    ScanOvertakesIff(p, dt, Active(s.slots), {}, x, y);
  }

  // ---- what overtaking shows, and where it comes from ----

  lemma {:induction false} PassedStaysQueued(p: Scan, dt: int, x: int, y: int)
    requires ScanOk(p) && Passed(p, x) && y in p.s.started
    ensures Queued(ScanAll(p, dt).s, x) && y in ScanAll(p, dt).s.started
    decreases |p.s.queue| - p.k
  {
    if !p.over && p.k < |p.s.queue| {
      PassedStays(p, dt, x);
      hide ScanStep;
      PassedStaysQueued(ScanStep(p, dt), dt, x, y);
    }
  }

  lemma PassedStays(p: Scan, dt: int, x: int)
    requires ScanOk(p) && !p.over && p.k < |p.s.queue| && Passed(p, x)
    ensures Passed(ScanStep(p, dt), x)
    ensures forall y :: y in p.s.started ==> y in ScanStep(p, dt).s.started
  {
    var a :| 0 <= a < p.k && p.s.queue[a].id == x;
    assert ScanStep(p, dt).s.queue[a].id == x;
  }

  lemma OvertakingStarts(p: Scan, dt: int, x: int, y: int)
    requires ScanOk(p) && !p.over && p.k < |p.s.queue| && Overtaking(p, dt, x, y)
    ensures y in ScanStep(p, dt).s.started
  {
  }

  /** After an update in which y overtakes x, y has been started and x is still queued. */
  lemma {:induction false} OvertakenWaits(p: Scan, dt: int, x: int, y: int)
    requires ScanOk(p) && ScanOvertakes(p, dt, x, y)
    ensures Queued(ScanAll(p, dt).s, x) && y in ScanAll(p, dt).s.started
    decreases |p.s.queue| - p.k
  {
    if Overtaking(p, dt, x, y) {
      PassedStays(p, dt, x);
      OvertakingStarts(p, dt, x, y);
      PassedStaysQueued(ScanStep(p, dt), dt, x, y);
    } else {
      OvertakenWaits(ScanStep(p, dt), dt, x, y);
    }
  }

  /** A step of the scan overwrites the last command that held back the one passed over at a. */
  ghost predicate Releasing(p: Scan, dt: int, c: Command)
    requires ScanOk(p) && !p.over && p.k < |p.s.queue|
  {
    && HeldBack(p.s.slots, c) && !HeldBack(ScanStep(p, dt).s.slots, c)
    && |ScanStep(p, dt).s.lost| > |p.s.lost|
  }

  ghost predicate ScanReleases(p: Scan, dt: int, c: Command)
    requires ScanOk(p)
    decreases |p.s.queue| - p.k
  {
    && !p.over && p.k < |p.s.queue|
    && (Releasing(p, dt, c) || ScanReleases(ScanStep(p, dt), dt, c))
  }

  /** x waits at a and has been passed over; all that goes by y waits for the same thing. */
  ghost predicate InLine(p: Scan, c: Command, y: int)
    requires ScanOk(p)
  {
    forall k :: p.k <= k < |p.s.queue| && p.s.queue[k].id == y ==> SameLine(c, p.s.queue[k])
  }

  lemma InLineStep(p: Scan, dt: int, c: Command, y: int)
    requires ScanOk(p) && !p.over && p.k < |p.s.queue| && InLine(p, c, y)
    ensures InLine(ScanStep(p, dt), c, y)
  {
    var q := ScanStep(p, dt);
    StepShape(p, dt);
    forall k | q.k <= k < |q.s.queue| && q.s.queue[k].id == y ensures SameLine(c, q.s.queue[k]) {
      assert q.s.queue[k] == p.s.queue[if q.k == p.k then k + 1 else k];
    }
  }

  /** A command that is held back is overtaken only after its last blocker has been overwritten. */
  lemma {:induction false} OvertakenIsReleased(p: Scan, dt: int, c: Command, x: int, y: int)
    requires ScanOk(p) && HeldBack(p.s.slots, c) && InLine(p, c, y) && ScanOvertakes(p, dt, x, y)
    ensures ScanReleases(p, dt, c)
    decreases |p.s.queue| - p.k
  {
    var q := ScanStep(p, dt);
    if Overtaking(p, dt, x, y) {
      SameLineHeldBack(p.s.slots, c, Ticked(p.s.queue[p.k], dt));
    } else {
      LostStepGrows(p, dt);
      if HeldBack(q.s.slots, c) {
        InLineStep(p, dt, c, y);
        OvertakenIsReleased(q, dt, c, x, y);
      } else if q.s.lost == p.s.lost {
        StillHeldBack(p, dt, c);
      }
    }
  }

  // ---- room in the table keeps the order ----

  /** x is before y wherever both wait, with no longer delay. */
  ghost predicate Before(todo: seq<Command>, x: int, y: int) {
    forall i, j :: 0 <= i < j < |todo| && todo[i].id == x && todo[j].id == y
      ==> SameLine(todo[i], todo[j]) && todo[i].startTime <= todo[j].startTime
  }

  /** Having passed x, the scan does not get to start y. */
  ghost predicate Closed(active: set<Command>, todo: seq<Command>, dt: int, y: int) {
    forall k :: 0 <= k < |todo| && todo[k].id == y
      ==> Ticked(todo[k], dt).startTime > 0 || AnyBlocks(active, Ticked(todo[k], dt))
  }

  lemma PassingCloses(active: set<Command>, todo: seq<Command>, dt: int, x: int, y: int)
    requires todo != [] && Before(todo, x, y) && todo[0].id == x
    requires Ticked(todo[0], dt).startTime > 0 || AnyBlocks(active, Ticked(todo[0], dt))
    ensures Closed(active, todo[1..], dt, y)
  {
    forall k | 0 <= k < |todo| - 1 && todo[1..][k].id == y
      ensures Ticked(todo[1..][k], dt).startTime > 0 || AnyBlocks(active, Ticked(todo[1..][k], dt))
    {
      assert SameLine(todo[0], todo[k + 1]) && todo[0].startTime <= todo[k + 1].startTime;
      if Ticked(todo[0], dt).startTime <= 0 {
        var a :| a in active && Blocked(a, Ticked(todo[0], dt));
        assert Blocked(a, Ticked(todo[k + 1], dt));
      }
    }
  }

  lemma StaysClosed(active: set<Command>, more: set<Command>, todo: seq<Command>, dt: int, x: int, y: int)
    requires todo != []
    ensures Closed(active, todo, dt, y) ==> Closed(active + more, todo[1..], dt, y)
    ensures Before(todo, x, y) ==> Before(todo[1..], x, y)
  {
    if Closed(active, todo, dt, y) {
      forall k | 0 <= k < |todo| - 1 && todo[1..][k].id == y
        ensures Ticked(todo[1..][k], dt).startTime > 0 || AnyBlocks(active + more, Ticked(todo[1..][k], dt))
      {
        assert todo[k + 1].id == y;
        if Ticked(todo[k + 1], dt).startTime <= 0 {
          var a :| a in active && Blocked(a, Ticked(todo[k + 1], dt));
          assert a in active + more;
        }
      }
    }
    if Before(todo, x, y) {
      forall i, j | 0 <= i < j < |todo| - 1 && todo[1..][i].id == x && todo[1..][j].id == y
        ensures SameLine(todo[1..][i], todo[1..][j]) && todo[1..][i].startTime <= todo[1..][j].startTime
      {
        assert todo[i + 1].id == x && todo[j + 1].id == y;
      }
    }
  }

  lemma {:induction false} RoomKeepsOrder(rest: set<Command>, last: set<Command>, free: nat, todo: seq<Command>,
                                          dt: int, x: int, y: int, passed: bool)
    requires (free == 0 && last == {}) || Demand(rest + last, todo, dt) <= free
    requires Before(todo, x, y) && (passed ==> Closed(rest + last, todo, dt, y))
    ensures !Overtakes(rest, last, free, todo, dt, x, y, passed)
    decreases |todo|
  {
    hide Before, Closed, Blocked;
    if todo != [] {
      var c, tail := Ticked(todo[0], dt), todo[1..];
      StaysClosed(rest + last, {}, todo, dt, x, y);
      assert rest + last + {} == rest + last;
      if c.startTime > 0 || AnyBlocks(rest + last, c) {
        if c.id == x { PassingCloses(rest + last, todo, dt, x, y); }
        RoomKeepsOrder(rest, last, free, tail, dt, x, y, passed || c.id == x);
      } else if !(free == 0 && last == {}) && !SendFails(c) {
        if passed && c.id == y { ClosedIsHeld(rest + last, todo, dt, y); }
        if Sent(c).timeout <= 0 {
          RoomKeepsOrder(rest, last, free, tail, dt, x, y, passed);
        } else {
          StaysClosed(rest + last, {Sent(c)}, todo, dt, x, y);
          RoomKeepsOrder(rest + last, {Sent(c)}, free - 1, tail, dt, x, y, passed);
        }
      }
    }
  }

  lemma ClosedIsHeld(active: set<Command>, todo: seq<Command>, dt: int, y: int)
    requires todo != [] && Closed(active, todo, dt, y) && todo[0].id == y
    ensures Ticked(todo[0], dt).startTime > 0 || AnyBlocks(active, Ticked(todo[0], dt))
  {
  }

  // ---- in whole runs ----

  /** y has not been started before x, nor while x waits. */
  ghost predicate Ordered(s: State, x: int, y: int) {
    StartOrder(s, x, y) && (Queued(s, x) ==> y !in s.started)
  }

  /** So it is now and after each event. */
  ghost predicate AlwaysOrdered(s: State, es: seq<Event>, x: int, y: int)
    requires |s.slots| == TABLE
    decreases |es|
  {
    Ordered(s, x, y) && (es == [] || AlwaysOrdered(Apply(s, es[0]), es[1..], x, y))
  }

  /** No update of the run lets y overtake x. */
  ghost predicate NeverOvertakes(s: State, es: seq<Event>, x: int, y: int)
    requires |s.slots| == TABLE
    decreases |es|
  {
    es == [] ||
    ((es[0].Tick? ==> !UpdateOvertakes(s, es[0].dt, x, y)) && NeverOvertakes(Apply(s, es[0]), es[1..], x, y))
  }

  lemma UpdateOrders(s: State, dt: int, x: int, y: int)
    requires |s.slots| == TABLE && Lined(s) && Fair(s, x, y) && dt >= 0
    ensures if UpdateOvertakes(s, dt, x, y) then !Ordered(Update(s, dt), x, y)
            else Lined(Update(s, dt)) && Fair(Update(s, dt), x, y)
  {
    UpdateOvertakesIff(s, dt, x, y);
    if UpdateOvertakes(s, dt, x, y) {
      OvertakenWaits(Scan(0, 0, false, s), dt, x, y);
    } else {
      UpdateFair(s, dt, x, y);
    }
  }

  lemma ApplyOrders(s: State, e: Event, x: int, y: int)
    requires |s.slots| == TABLE && Lined(s) && Fair(s, x, y)
    requires (e.Add? ==> e.c.id !in s.accepted) && (e.Tick? ==> e.dt >= 0)
    ensures if e.Tick? && UpdateOvertakes(s, e.dt, x, y) then !Ordered(Apply(s, e), x, y)
            else Lined(Apply(s, e)) && Fair(Apply(s, e), x, y)
  {
    hide UpdateOvertakes, Ordered, Lined, Fair, Update;
    if e.Tick? { UpdateOrders(s, e.dt, x, y); } else { ApplyFair(s, e, x, y); }
  }

  lemma FairIsOrdered(s: State, x: int, y: int)
    requires |s.slots| == TABLE && Fair(s, x, y)
    ensures Ordered(s, x, y)
  {
  }

  lemma {:induction false} RunOrders(s: State, es: seq<Event>, x: int, y: int)
    requires |s.slots| == TABLE && Lined(s) && Feasible(s, es) && Fair(s, x, y)
    requires forall k :: 0 <= k < |es| && es[k].Tick? ==> es[k].dt >= 0
    ensures AlwaysOrdered(s, es, x, y) <==> NeverOvertakes(s, es, x, y)
    ensures NeverOvertakes(s, es, x, y) ==> Ordered(Run(s, es), x, y)
    decreases |es|
  {
    hide UpdateOvertakes, Ordered, Lined, Fair, Apply;
    FairIsOrdered(s, x, y);
    if es != [] {
      ApplyOrders(s, es[0], x, y);
      if !(es[0].Tick? && UpdateOvertakes(s, es[0].dt, x, y)) {
        assert forall k :: 0 <= k < |es| - 1 ==> es[1..][k] == es[k + 1];
        RunOrders(Apply(s, es[0]), es[1..], x, y);
      }
    }
  }

  /** Start order, exactly: of two queued commands that wait for the same thing, the one in front with no
      longer delay, the one behind is at no moment started before the other or while that waits, if
      and only if no update of the run lets it overtake. */
  lemma FirstStartedFirstIff(s: State, es: seq<Event>, a: int, b: int)
    requires |s.slots| == TABLE && Lined(s) && Feasible(s, es)
    requires 0 <= a < b < |s.queue| && SameLine(s.queue[a], s.queue[b])
    requires s.queue[a].startTime <= s.queue[b].startTime
    requires forall k :: 0 <= k < |es| && es[k].Tick? ==> es[k].dt >= 0
    ensures var x, y := s.queue[a].id, s.queue[b].id;
      && (AlwaysOrdered(s, es, x, y) <==> NeverOvertakes(s, es, x, y))
      && (NeverOvertakes(s, es, x, y) ==> Ordered(Run(s, es), x, y))
  {
    var x, y := s.queue[a].id, s.queue[b].id;
    assert Waiting(Scan(0, 0, false, s), 0, x, y, a, b);
    RunOrders(s, es, x, y);
  }

  lemma FairIsBefore(s: State, x: int, y: int)
    requires |s.slots| == TABLE && Lined(s) && Fair(s, x, y)
    ensures Before(s.queue, x, y)
  {
    forall i, j | 0 <= i < j < |s.queue| && s.queue[i].id == x && s.queue[j].id == y
      ensures SameLine(s.queue[i], s.queue[j]) && s.queue[i].startTime <= s.queue[j].startTime
    {
      assert Queued(s, x) && Queued(s, y);
      if !Settled(s, x, y) {
        var a, b :| Waiting(Scan(0, 0, false, s), 0, x, y, a, b);
        assert a == i && b == j;
      }
    }
  }

  lemma RoomIsEnough(s: State, dt: int, x: int, y: int)
    requires |s.slots| == TABLE && Lined(s) && Fair(s, x, y) && HasRoom(s, dt)
    ensures !UpdateOvertakes(s, dt, x, y)
  {
    FairIsBefore(s, x, y);
    assert Active(s.slots) + {} == Active(s.slots);
    RoomKeepsOrder(Active(s.slots), {}, |FreeSlots(s.slots)|, s.queue, dt, x, y, false);
  }

  lemma {:induction false} RoomNeverOvertakes(s: State, es: seq<Event>, x: int, y: int)
    requires |s.slots| == TABLE && Lined(s) && Feasible(s, es) && Fair(s, x, y) && AlwaysHasRoom(s, es)
    requires forall k :: 0 <= k < |es| && es[k].Tick? ==> es[k].dt >= 0
    ensures NeverOvertakes(s, es, x, y)
    decreases |es|
  {
    hide UpdateOvertakes, Ordered, Lined, Fair, Apply, HasRoom;
    if es != [] {
      if es[0].Tick? { RoomIsEnough(s, es[0].dt, x, y); }
      ApplyOrders(s, es[0], x, y);
      assert forall k :: 0 <= k < |es| - 1 ==> es[1..][k] == es[k + 1];
      RoomNeverOvertakes(Apply(s, es[0]), es[1..], x, y);
    }
  }

  /** Start order in every run whose updates find the table full or with room for all they would put out:
      the one behind never starts while the other is queued, and starts after it if both do. */
  lemma FirstQueuedFirstStarted(s: State, es: seq<Event>, a: int, b: int)
    requires |s.slots| == TABLE && Lined(s) && Feasible(s, es) && AlwaysHasRoom(s, es)
    requires 0 <= a < b < |s.queue| && SameLine(s.queue[a], s.queue[b])
    requires s.queue[a].startTime <= s.queue[b].startTime
    requires forall k :: 0 <= k < |es| && es[k].Tick? ==> es[k].dt >= 0
    ensures AlwaysOrdered(s, es, s.queue[a].id, s.queue[b].id)
    ensures Ordered(Run(s, es), s.queue[a].id, s.queue[b].id)
  {
    var x, y := s.queue[a].id, s.queue[b].id;
    assert Waiting(Scan(0, 0, false, s), 0, x, y, a, b);
    RoomNeverOvertakes(s, es, x, y);
    RunOrders(s, es, x, y);
  }

  // ---- a run in which a command is overtaken ----

  /** A command that turns the sensors on, the n-th created. */
  function Sensors(n: int, flags: int): Command {
    Command(n, Setting, flags, 0x03, false, false, 0, FIRST_TIMEOUT, UNSENT_TASK_ID, 1, false)
  }

  /** One that holds others back, one that it holds back, an emotion, and one more of the first kind. */
  const Four := [Sensors(251, 0x80), Sensors(252, 0), Waiter(253), Sensors(254, 0)]

  function Adding(cs: seq<Command>): seq<Event> {
    if cs == [] then [] else [Add(cs[0])] + Adding(cs[1..])
  }

  ghost predicate Harmless(active: set<Command>) {
    forall a, c :: a in active ==> !Blocked(a, c)
  }

  /** Commands that hold nothing back take their slots one after the other. */
  lemma {:induction false} WaitersGoOut(rest: set<Command>, last: set<Command>, free: nat, ws: seq<Command>,
                                        tail: seq<Command>, x: int, y: int)
    returns (rest': set<Command>, last': set<Command>)
    requires Harmless(rest + last) && |ws| <= free && forall k :: 0 <= k < |ws| ==> ws[k] == Waiter(ws[k].id)
    ensures Harmless(rest' + last')
    ensures Overtakes(rest, last, free, ws + tail, 100, x, y, false)
         == Overtakes(rest', last', free - |ws|, tail, 100, x, y, false)
    decreases |ws|
  {
    if ws == [] {
      assert ws + tail == tail;
      rest', last' := rest, last;
    } else {
      var c := Ticked(ws[0], 100);
      assert (ws + tail)[0] == ws[0] && (ws + tail)[1..] == ws[1..] + tail;
      assert Sent(c) == c && !AnyBlocks(rest + last, c);
      rest', last' := WaitersGoOut(rest + last, {c}, free - 1, ws[1..], tail, x, y);
    }
  }

  /** The last slot goes to the first of the four and then to the third, and the fourth starts. */
  lemma FourthOvertakes(rest: set<Command>, last: set<Command>)
    requires Harmless(rest + last)
    ensures Overtakes(rest, last, 1, Four, 100, 252, 254, false)
  {
    var f, c, z, y := Ticked(Four[0], 100), Ticked(Four[1], 100), Ticked(Four[2], 100), Ticked(Four[3], 100);
    var out := rest + last;
    assert Four[1..] == [Four[1], Four[2], Four[3]] && Four[1..][1..] == [Four[2], Four[3]];
    assert Four[1..][1..][1..] == [Four[3]];
    assert !AnyBlocks(rest + last, f);
    assert Blocked(Sent(f), c) && AnyBlocks(out + {Sent(f)}, c);
    assert !AnyBlocks(out + {Sent(f)}, z) && Sent(z) == z;
    assert !AnyBlocks(out + {z}, y);
    assert Overtakes(out, {z}, 0, [Four[3]], 100, 252, 254, true);
    assert Overtakes(out, {Sent(f)}, 0, [Four[2], Four[3]], 100, 252, 254, true);
    assert Overtakes(out, {Sent(f)}, 0, [Four[1], Four[2], Four[3]], 100, 252, 254, false);
  }

  lemma ReadyToOvertake(s: State)
    requires |s.slots| == TABLE && s.slots == Initial.slots && s.queue == Waiters(250) + Four
    ensures UpdateOvertakes(s, 100, 252, 254)
  {
    NewTableIsFree();
    WaitersAreWaiters(250);
    var rest, last := WaitersGoOut({}, {}, 251, Waiters(250), Four, 252, 254);
    FourthOvertakes(rest, last);
  }

  lemma AddIsQueued(s: State, c: Command)
    requires |s.slots| == TABLE && !s.motorDisabled
    ensures Apply(s, Add(c)) == s.(queue := s.queue + [c], accepted := s.accepted + {c.id})
  {
  }

  lemma RunFirst(s: State, e: Event, es: seq<Event>)
    requires |s.slots| == TABLE && Feasible(Apply(s, e), es) && (e.Add? ==> Fresh(e.c) && e.c.id !in s.accepted)
    ensures Feasible(s, [e] + es) && Run(s, [e] + es) == Run(Apply(s, e), es)
  {
    hide Apply, Fresh;
    assert ([e] + es)[1..] == es;
  }

  function IdsOf(cs: seq<Command>): set<int> {
    if cs == [] then {} else {cs[0].id} + IdsOf(cs[1..])
  }

  lemma {:induction false} NewOnesJoin(s: State, cs: seq<Command>)
    requires |s.slots| == TABLE && !s.motorDisabled && DistinctIds(cs)
    requires forall k :: 0 <= k < |cs| ==> Fresh(cs[k]) && cs[k].id !in s.accepted
    ensures Feasible(s, Adding(cs))
    ensures Run(s, Adding(cs)) == s.(queue := s.queue + cs, accepted := s.accepted + IdsOf(cs))
    decreases |cs|
  {
    if cs == [] {
      assert s.queue + [] == s.queue;
    } else {
      hide Apply, Fresh, Run, Feasible;
      var t, rest := Apply(s, Add(cs[0])), cs[1..];
      AddIsQueued(s, cs[0]);
      forall k | 0 <= k < |rest| ensures Fresh(rest[k]) && rest[k].id !in t.accepted {
        assert rest[k] == cs[k + 1] && cs[0].id != cs[k + 1].id;
      }
      NewOnesJoin(t, rest);
      RunFirst(s, Add(cs[0]), Adding(rest));
      assert t.queue + rest == s.queue + cs;
    }
  }

  lemma RunOfOneTick(s: State, dt: int)
    requires |s.slots| == TABLE
    ensures Feasible(s, [Tick(dt)]) && Run(s, [Tick(dt)]) == Update(s, dt)
  {
    hide Update;
    assert [Tick(dt)][1..] == [];
  }

  lemma UpdateKeepsStarted(s: State, dt: int)
    requires |s.slots| == TABLE
    ensures var t, u := Update(s, dt), ScanAll(Scan(0, 0, false, s), dt).s;
      t.started == u.started && t.queue == u.queue
  {
  }

  /** A new scheduler is given 250 emotions and these four, all due at once. Its first update starts the
      fourth, while the second, which waits for the same thing, is still queued. */
  lemma OvertakingHappens()
    ensures SameLine(Four[1], Four[3])
    ensures var es := Adds(250) + Adding(Four); var t := Run(Initial, es + [Tick(100)]);
      && Feasible(Initial, es + [Tick(100)])
      && Run(Initial, es).queue == Waiters(250) + Four
      && Queued(t, 252) && 254 in t.started && t == Update(Run(Initial, es), 100)
  {
    hide Adds, Adding, Waiters, Update, UpTo, Apply, Run, Feasible, IdsOf, ScanAll, ScanOvertakes, UpdateOvertakes;
    var es, last := Adds(250) + Adding(Four), [Tick(100)];
    AddsQueue(250);
    InUpTo(250, 251);
    InUpTo(250, 252);
    InUpTo(250, 253);
    InUpTo(250, 254);
    NewOnesJoin(Run(Initial, Adds(250)), Four);
    RunJoins(Initial, Adds(250), Adding(Four));
    var s := Run(Initial, es);
    ReadyToOvertake(s);
    UpdateOvertakesIff(s, 100, 252, 254);
    OvertakenWaits(Scan(0, 0, false, s), 100, 252, 254);
    RunOfOneTick(s, 100);
    RunJoins(Initial, es, last);
    UpdateKeepsStarted(s, 100);
  }
}
