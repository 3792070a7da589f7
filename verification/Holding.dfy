/** What holds a queued command back, and nothing else does (server/RDSTask.cpp:108-140,
    server/base/CommandObject.cpp:103-121, 405-422): said in classes, flags, device numbers and data blocks. */
module Holding {
  import opened Basics
  import opened Commands
  import opened Scheduler
  import opened Draining
  import opened Blocking
  import opened StartOrders

  /** Commands of one class. */
  predicate SameClass(a: Kind, b: Kind) {
    || (a.Setting? && b.Setting?) || (a.Motor? && b.Motor?) || (a.Action? && b.Action?)
    || (a.Position? && b.Position?) || (a.Emoji? && b.Emoji?) || (a.Controller? && b.Controller?)
  }

  /** Bit 7 of a number in two's complement. */
  predicate HasBit7(flags: int) {
    flags % 0x100 >= 0x80
  }

  /** The command that is out does not let the other start: it is flagged, of the same class, and for settings and
      controllers goes to the same device, and for motors is no data block and goes to the same joint. */
  predicate InTheWay(out: Command, c: Command) {
    && HasBit7(out.flags) && SameClass(out.kind, c.kind)
    && (out.kind.Setting? || out.kind.Controller? ==> out.coId == c.coId)
    && (out.kind.Motor? ==> out.kind.data == [] && out.coId == c.coId)
  }

  lemma BlockedIsInTheWay(out: Command, c: Command)
    ensures Blocked(out, c) <==> InTheWay(out, c)
  {
    assert out.flags / 128 % 2 == 1 <==> out.flags % 0x100 >= 0x80;
  }

  predicate SomeInTheWay(slots: seq<Option<Command>>, c: Command)
    requires |slots| == 255
  {
    exists i :: 1 <= i <= 251 && slots[i].Some? && InTheWay(slots[i].value, c)
  }

  lemma HeldBackIff(slots: seq<Option<Command>>, c: Command)
    requires |slots| == TABLE
    ensures HeldBack(slots, c) <==> SomeInTheWay(slots, c)
  {
    hide InTheWay, Blocked;
    if i :| 1 <= i <= LAST_SLOT && slots[i].Some? && Blocked(slots[i].value, c) {
      BlockedIsInTheWay(slots[i].value, c);
    }
    if i :| 1 <= i <= LAST_SLOT && slots[i].Some? && InTheWay(slots[i].value, c) {
      BlockedIsInTheWay(slots[i].value, c);
    }
  }

  /** A slot is free, or has been found in this update before. */
  predicate SlotFound(p: Scan)
    requires |p.s.slots| == 255
  {
    p.ind != 0 || exists i :: 1 <= i <= 251 && p.s.slots[i].None?
  }

  lemma SlotFoundIff(p: Scan)
    requires ScanOk(p)
    ensures SlotIndex(p) != 0 <==> SlotFound(p)
  {
    var f := LastFree(p.s.slots, LAST_SLOT);
    if f == 0 {
      assert forall i :: 1 <= i <= 251 ==> p.s.slots[i].Some?;
    } else {
      assert p.s.slots[f].None?;
    }
  }

  predicate CanBeSent(c: Command) {
    c.kind.Motor? ==> |c.kind.data| % 10 == 0
  }

  /** The k-th command at its turn, by the table at that moment: when its delay is over and there is a slot, it
      leaves the queue if and only if nothing is in its way, and then it has been started, unless it cannot
      be sent, which ends the update. Otherwise it stays with its delay shortened. */
  lemma TurnIff(p: Scan, dt: int)
    requires ScanOk(p) && !p.over && p.k < |p.s.queue|
    ensures var c, q := p.s.queue[p.k], ScanStep(p, dt);
      if c.startTime - dt <= 0 && SlotFound(p) && !SomeInTheWay(p.s.slots, c) then
        && q.k == p.k && q.s.queue == p.s.queue[..p.k] + p.s.queue[p.k + 1..]
        && (if CanBeSent(c) then !q.over && q.s.started == p.s.started + [c.id]
            else q.over && q.s.started == p.s.started)
      else
        && q.k == p.k + 1 && q.s.started == p.s.started && q.s.slots == p.s.slots && q.s.notes == p.s.notes
        && q.s.queue == p.s.queue[p.k := c.(startTime := c.startTime - dt)]
        && (q.over <==> c.startTime - dt <= 0 && !SlotFound(p))
  {
    var c := Ticked(p.s.queue[p.k], dt);
    HeldBackIff(p.s.slots, c);
    SlotFoundIff(p);
    assert InTheWaySame(c, p.s.queue[p.k]) by { InTheWayIgnoresDelay(p.s.queue[p.k], dt); }
    SameInTheWay(p.s.slots, c, p.s.queue[p.k]);
    hide HeldBack, SomeInTheWay, InTheWay, SlotFound, SlotIndex, InTheWaySame, Sent;
  }

  ghost predicate InTheWaySame(a: Command, b: Command) {
    forall out :: InTheWay(out, a) <==> InTheWay(out, b)
  }

  lemma InTheWayIgnoresDelay(c: Command, dt: int)
    ensures InTheWaySame(Ticked(c, dt), c)
  {
  }

  lemma SameInTheWay(slots: seq<Option<Command>>, a: Command, b: Command)
    requires |slots| == TABLE && InTheWaySame(a, b)
    ensures SomeInTheWay(slots, a) <==> SomeInTheWay(slots, b)
  {
    hide InTheWay;
  }

  lemma {:induction false} ScanKeepsLined(p: Scan, dt: int)
    requires ScanOk(p) && Lined(p.s)
    ensures Lined(ScanAll(p, dt).s) && p.s.started <= ScanAll(p, dt).s.started
    decreases |p.s.queue| - p.k
  {
    if !p.over && p.k < |p.s.queue| {
      ScanStepKeepsLined(p, dt);
      StepShape(p, dt);
      hide ScanStep, Lined;
      ScanKeepsLined(ScanStep(p, dt), dt);
    }
  }

  /** The first command of the queue is started by an update if and only if its delay is over, there is a free
      slot, nothing is in its way, and it can be sent. */
  lemma FirstStartsIff(s: State, dt: int)
    requires |s.slots| == TABLE && Lined(s) && s.queue != []
    ensures var c := s.queue[0];
      c.id in Update(s, dt).started <==>
        && c.startTime - dt <= 0 && CanBeSent(c)
        && (exists i :: 1 <= i <= 251 && s.slots[i].None?) && !SomeInTheWay(s.slots, c)
  {
    var p, c := Scan(0, 0, false, s), s.queue[0];
    var q := ScanStep(p, dt);
    TurnIff(p, dt);
    ScanStepKeepsLined(p, dt);
    ScanKeepsLined(q, dt);
    hide ScanStep, SomeInTheWay;
    if q.k == 1 {
      assert q.s.queue[0].id == c.id;
      PassedIsNotStarted(q, dt, c.id);
    } else if q.s.started == s.started + [c.id] {
      assert c.id in q.s.started && q.s.started <= ScanAll(q, dt).s.started;
    }
  }

  lemma {:induction false} PassedIsNotStarted(p: Scan, dt: int, x: int)
    requires ScanOk(p) && Lined(p.s) && Passed(p, x)
    ensures x !in ScanAll(p, dt).s.started
    decreases |p.s.queue| - p.k
  {
    if !p.over && p.k < |p.s.queue| {
      PassedStays(p, dt, x);
      ScanStepKeepsLined(p, dt);
      hide ScanStep;
      PassedIsNotStarted(ScanStep(p, dt), dt, x);
    }
  }
}
