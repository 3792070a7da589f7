/** What the 0x80 flag is for: commands of one family never run side by side, and commands of
    one line start in the order they were queued. */
module Blocking {
  import opened Basics
  import opened Commands
  import opened Scheduler
  import opened Draining

  // ---- at most one of a family is out ----

  /** Two flagged commands that must not be out together: same class and, where the class goes by
      command id, same command id. Data blocks go with nothing. */
  predicate Family(a: Command, b: Command) {
    && HoldsOthersBack(a) && HoldsOthersBack(b)
    && ClassId(a.kind) == ClassId(b.kind)
    && (a.kind.Setting? || a.kind.Controller? || a.kind.Motor? ==> a.coId == b.coId)
    && (a.kind.Motor? ==> a.kind.data == [] && b.kind.data == [])
  }

  ghost predicate Exclusive(slots: seq<Option<Command>>) {
    forall i, j :: 0 <= i < j < |slots| && slots[i].Some? && slots[j].Some?
      ==> !Family(slots[i].value, slots[j].value)
  }

  lemma FamilyBlocks(a: Command, b: Command)
    ensures Family(a, b) ==> Blocked(a, b) && Blocked(b, a) && Family(b, a)
    ensures !SendFails(b) && Family(a, Sent(b)) ==> Blocked(a, b)
  {
  }

  lemma LaunchKeepsExclusive(p: Scan, c: Command, ind: nat)
    requires ScanOk(p) && p.k < |p.s.queue| && InTable(ind) && Inv(p.s)
    requires Exclusive(p.s.slots) && !HeldBack(p.s.slots, c)
    ensures Exclusive(Launch(p, c, ind).s.slots)
  {
    var d := c.(taskId := ind);
    if !SendFails(d) {
      forall i | 0 <= i < TABLE && p.s.slots[i].Some?
        ensures !Family(p.s.slots[i].value, Sent(d)) && !Family(Sent(d), p.s.slots[i].value)
      {
        assert InTable(i) && !Blocked(p.s.slots[i].value, c);
        FamilyBlocks(p.s.slots[i].value, d);
        FamilyBlocks(Sent(d), p.s.slots[i].value);
      }
    }
  }

  lemma {:induction false} ScanKeepsExclusive(p: Scan, dt: int)
    requires ScanOk(p) && Inv(p.s) && Exclusive(p.s.slots)
    ensures Exclusive(ScanAll(p, dt).s.slots)
    decreases |p.s.queue| - p.k
  {
    if !p.over && p.k < |p.s.queue| {
      var c := Ticked(p.s.queue[p.k], dt);
      if c.startTime <= 0 && SlotIndex(p) != 0 && !HeldBack(p.s.slots, c) {
        LaunchKeepsExclusive(p, c, SlotIndex(p));
      }
      ScanStepKeepsInv(p, dt);
      ScanKeepsExclusive(ScanStep(p, dt), dt);
    }
  }

  /** What is out has at most gone, or counted down. */
  ghost predicate Fewer(a: seq<Option<Command>>, b: seq<Option<Command>>) {
    |a| == |b| && forall i :: 0 <= i < |b| && b[i].Some? ==>
      && a[i].Some? && b[i].value.kind == a[i].value.kind
      && b[i].value.coId == a[i].value.coId && b[i].value.flags == a[i].value.flags
  }

  lemma FewerAreExclusive(a: seq<Option<Command>>, b: seq<Option<Command>>)
    requires Fewer(a, b) && Exclusive(a)
    ensures Exclusive(b)
  {
    forall i, j | 0 <= i < j < |b| && b[i].Some? && b[j].Some? ensures !Family(b[i].value, b[j].value) {
      assert !Family(a[i].value, a[j].value);
    }
  }

  lemma SweepLeavesFewer(w: Sweep, s: State)
    ensures Fewer(s.slots, SweepSlots(w, s).slots)
  {
  }

  lemma ReplyLeavesFewer(s: State, task: int, result: int, flags: int, cmd: int)
    requires |s.slots| == TABLE
    ensures Fewer(s.slots, OnCompletion(s, task, result, flags, cmd).slots)
  {
  }

  lemma ApplyKeepsExclusive(s: State, e: Event)
    requires Inv(s) && Exclusive(s.slots)
    ensures Exclusive(Apply(s, e).slots)
  {
    hide Exclusive, Fewer, ScanAll;
    match e
    case Tick(dt) =>
      var t := ScanAll(Scan(0, 0, false, s), dt).s;
      ScanKeepsExclusive(Scan(0, 0, false, s), dt);
      SweepLeavesFewer(Expire(dt), t);
      FewerAreExclusive(t.slots, Apply(s, e).slots);
    case Reply(task, result, flags, cmd) =>
      ReplyLeavesFewer(s, task, result, flags, cmd);
      FewerAreExclusive(s.slots, Apply(s, e).slots);
    case Stop(cls) =>
      SweepLeavesFewer(Kill(OfClass(cls)), s);
      FewerAreExclusive(s.slots, Apply(s, e).slots);
    case Cancel(session) =>
      SweepLeavesFewer(Kill(OfSession(session)), s);
      SweepLeavesFewer(Kill(Everything), s.(queue := [], dropped := s.dropped + Ids(s.queue)));
      FewerAreExclusive(s.slots, Apply(s, e).slots);
    case _ =>
  }

  /** Serialisation: in every run, no two commands of a family are out at the same time. */
  lemma {:induction false} RunKeepsExclusive(s: State, es: seq<Event>)
    requires Inv(s) && Feasible(s, es) && Exclusive(s.slots)
    ensures Exclusive(Run(s, es).slots)
    decreases |es|
  {
    if es != [] {
      ApplyKeepsInv(s, es[0]);
      ApplyKeepsExclusive(s, es[0]);
      RunKeepsExclusive(Apply(s, es[0]), es[1..]);
    }
  }

  // ---- start order ----

  /** Commands that wait for the same thing. */
  predicate SameLine(a: Command, b: Command) {
    && ClassId(a.kind) == ClassId(b.kind)
    && (a.kind.Setting? || a.kind.Controller? || a.kind.Motor? ==> a.coId == b.coId)
  }

  ghost predicate DistinctIds(q: seq<Command>) {
    forall a, b :: 0 <= a < b < |q| ==> q[a].id != q[b].id
  }

  /** Ids name at most one queued command, and a started one is no longer queued. */
  ghost predicate Lined(s: State) {
    && DistinctIds(s.queue)
    && (forall a :: 0 <= a < |s.queue| ==> s.queue[a].id in s.accepted && s.queue[a].id !in s.started)
    && (forall i :: 0 <= i < |s.started| ==> s.started[i] in s.accepted)
  }

  ghost predicate Queued(s: State, x: int) {
    exists a :: 0 <= a < |s.queue| && s.queue[a].id == x
  }

  ghost predicate StartOrder(s: State, x: int, y: int) {
    forall i, j :: 0 <= i < |s.started| && 0 <= j < |s.started| && s.started[i] == x && s.started[j] == y ==> i < j
  }

  /** x and y wait at positions a and b of the queue. Between the visits to the two, only the delay of x
      has been shortened. */
  ghost predicate Waiting(p: Scan, dt: int, x: int, y: int, a: int, b: int)
    requires |p.s.slots| == TABLE
  {
    && 0 <= a < b < |p.s.queue|
    && p.s.queue[a].id == x && p.s.queue[b].id == y
    && SameLine(p.s.queue[a], p.s.queue[b])
    && y !in p.s.started
    && p.s.queue[a].startTime <= p.s.queue[b].startTime - if a < p.k <= b then dt else 0
  }

  /** x has left the queue, or y has left it without starting. */
  ghost predicate Settled(s: State, x: int, y: int) {
    && x in s.accepted && y in s.accepted
    && ((!Queued(s, x) && StartOrder(s, x, y)) || (!Queued(s, y) && y !in s.started))
  }

  ghost predicate FairScan(p: Scan, dt: int, x: int, y: int)
    requires |p.s.slots| == TABLE
  {
    Settled(p.s, x, y) || exists a, b :: Waiting(p, dt, x, y, a, b)
  }

  ghost predicate Fair(s: State, x: int, y: int)
    requires |s.slots| == TABLE
  {
    FairScan(Scan(0, 0, false, s), 0, x, y)
  }

  /** The command looked at stays in the queue. */
  ghost predicate Kept(p: Scan, q: Scan, dt: int)
    requires ScanOk(p) && p.k < |p.s.queue|
  {
    q.k == p.k + 1 && q.s == p.s.(queue := p.s.queue[p.k := Ticked(p.s.queue[p.k], dt)])
  }

  /** The command looked at leaves the queue. */
  ghost predicate Left(p: Scan, q: Scan)
    requires ScanOk(p) && p.k < |p.s.queue|
  {
    && q.k == p.k && !p.over && |q.s.slots| == TABLE
    && q.s.queue == Without(p.s.queue, p.k)
    && q.s.accepted == p.s.accepted
    && (q.s.started == p.s.started || q.s.started == p.s.started + [p.s.queue[p.k].id])
  }

  /** The command looked at is y and is started, while x has been passed over. */
  ghost predicate Overtaking(p: Scan, dt: int, x: int, y: int)
    requires ScanOk(p) && p.k < |p.s.queue|
  {
    && p.s.queue[p.k].id == y && (exists a :: 0 <= a < p.k && p.s.queue[a].id == x)
    && var c := Ticked(p.s.queue[p.k], dt);
       c.startTime <= 0 && SlotIndex(p) != 0 && !HeldBack(p.s.slots, c) && !SendFails(c)
  }

  ghost predicate ScanOvertakes(p: Scan, dt: int, x: int, y: int)
    requires ScanOk(p)
    decreases |p.s.queue| - p.k
  {
    && !p.over && p.k < |p.s.queue|
    && (Overtaking(p, dt, x, y) || ScanOvertakes(ScanStep(p, dt), dt, x, y))
  }

  lemma StepShape(p: Scan, dt: int)
    requires ScanOk(p) && p.k < |p.s.queue| && !p.over
    ensures Kept(p, ScanStep(p, dt), dt) || Left(p, ScanStep(p, dt))
  {
  }

  lemma LeftKeepsLined(p: Scan, q: Scan)
    requires ScanOk(p) && p.k < |p.s.queue| && Lined(p.s) && Left(p, q)
    ensures Lined(q.s) && !Queued(q.s, p.s.queue[p.k].id)
  {
    forall a | 0 <= a < |q.s.queue|
      ensures q.s.queue[a] == p.s.queue[if a < p.k then a else a + 1]
    {
    }
  }

  lemma ScanStepKeepsLined(p: Scan, dt: int)
    requires ScanOk(p) && p.k < |p.s.queue| && !p.over && Lined(p.s)
    ensures Lined(ScanStep(p, dt).s) && ScanStep(p, dt).s.accepted == p.s.accepted
  {
    StepShape(p, dt);
    if Left(p, ScanStep(p, dt)) { LeftKeepsLined(p, ScanStep(p, dt)); }
  }

  lemma SettledStep(p: Scan, dt: int, x: int, y: int)
    requires ScanOk(p) && p.k < |p.s.queue| && !p.over && Lined(p.s) && Settled(p.s, x, y)
    ensures Settled(ScanStep(p, dt).s, x, y)
  {
    StepShape(p, dt);
  }

  lemma {:induction false} LostOnlyGrows(p: Scan, dt: int)
    requires ScanOk(p)
    ensures p.s.lost <= ScanAll(p, dt).s.lost
    decreases |p.s.queue| - p.k
  {
    if !p.over && p.k < |p.s.queue| {
      LostStepGrows(p, dt);
      hide ScanStep;
      LostOnlyGrows(ScanStep(p, dt), dt);
    }
  }

  lemma LostStepGrows(p: Scan, dt: int)
    requires ScanOk(p) && p.k < |p.s.queue| && !p.over
    ensures p.s.lost <= ScanStep(p, dt).s.lost
  {
  }

  /** Nothing that holds a command back leaves the table while nothing is lost. */
  lemma StillHeldBack(p: Scan, dt: int, c: Command)
    requires ScanOk(p) && p.k < |p.s.queue| && !p.over
    requires ScanStep(p, dt).s.lost == p.s.lost && HeldBack(p.s.slots, c)
    ensures HeldBack(ScanStep(p, dt).s.slots, c)
  {
    var i :| 1 <= i <= LAST_SLOT && p.s.slots[i].Some? && Blocked(p.s.slots[i].value, c);
    assert ScanStep(p, dt).s.slots[i] == p.s.slots[i];
  }

  lemma SameLineHeldBack(slots: seq<Option<Command>>, a: Command, b: Command)
    requires |slots| == TABLE && SameLine(a, b) && HeldBack(slots, a)
    ensures HeldBack(slots, b)
  {
    var i :| 1 <= i <= LAST_SLOT && slots[i].Some? && Blocked(slots[i].value, a);
    assert Blocked(slots[i].value, b);
  }

  lemma WaitingKept(p: Scan, q: Scan, dt: int, x: int, y: int, a: int, b: int)
    requires ScanOk(p) && p.k < |p.s.queue| && !p.over && dt >= 0
    requires Waiting(p, dt, x, y, a, b) && Kept(p, q, dt)
    ensures Waiting(q, dt, x, y, a, b)
  {
  }

  lemma WaitingLeft(p: Scan, q: Scan, dt: int, x: int, y: int, a: int, b: int)
    requires ScanOk(p) && p.k < |p.s.queue| && Lined(p.s)
    requires Waiting(p, dt, x, y, a, b) && Left(p, q) && p.k != b
    ensures FairScan(q, dt, x, y)
  {
    LeftKeepsLined(p, q);
    if p.k == a {
      assert p.s.queue[b].id in p.s.accepted;
      assert Settled(q.s, x, y);
    } else {
      assert Waiting(q, dt, x, y, if p.k < a then a - 1 else a, if p.k < b then b - 1 else b);
    }
  }

  /** If y leaves the queue without overtaking x, it has not been started. */
  lemma SecondFails(p: Scan, dt: int, x: int, y: int, a: int)
    requires ScanOk(p) && p.k < |p.s.queue| && !p.over && Lined(p.s)
    requires Waiting(p, dt, x, y, a, p.k) && Left(p, ScanStep(p, dt)) && !Overtaking(p, dt, x, y)
    ensures Settled(ScanStep(p, dt).s, x, y)
  {
    LeftKeepsLined(p, ScanStep(p, dt));
    assert p.s.queue[a].id in p.s.accepted && p.s.queue[p.k].id in p.s.accepted;
  }

  lemma WaitingStep(p: Scan, dt: int, x: int, y: int, a: int, b: int)
    requires ScanOk(p) && p.k < |p.s.queue| && !p.over && Lined(p.s) && dt >= 0
    requires Waiting(p, dt, x, y, a, b) && !Overtaking(p, dt, x, y)
    ensures FairScan(ScanStep(p, dt), dt, x, y)
  {
    var q := ScanStep(p, dt);
    StepShape(p, dt);
    if Kept(p, q, dt) {
      WaitingKept(p, q, dt, x, y, a, b);
    } else if p.k == b {
      SecondFails(p, dt, x, y, a);
    } else {
      WaitingLeft(p, q, dt, x, y, a, b);
    }
  }

  lemma {:induction false} ScanKeepsFair(p: Scan, dt: int, x: int, y: int)
    requires ScanOk(p) && Lined(p.s) && dt >= 0 && FairScan(p, dt, x, y)
    requires !ScanOvertakes(p, dt, x, y)
    ensures var q := ScanAll(p, dt); Lined(q.s) && q.s.accepted == p.s.accepted && FairScan(q, dt, x, y)
    decreases |p.s.queue| - p.k
  {
    if !p.over && p.k < |p.s.queue| {
      var q := ScanStep(p, dt);
      ScanStepKeepsLined(p, dt);
      if Settled(p.s, x, y) {
        SettledStep(p, dt, x, y);
      } else {
        var a, b :| Waiting(p, dt, x, y, a, b);
        WaitingStep(p, dt, x, y, a, b);
      }
      ScanKeepsFair(q, dt, x, y);
    }
  }

  lemma {:induction false} SparedOrder(f: Filter, q: seq<Command>, a: int, b: int) returns (c: int, d: int)
    requires 0 <= a < b < |q| && !Hits(f, q[a]) && !Hits(f, q[b])
    ensures 0 <= c < d < |Spared(f, q)| && Spared(f, q)[c] == q[a] && Spared(f, q)[d] == q[b]
  {
    var head := if Hits(f, q[0]) then [] else [q[0]];
    if a == 0 {
      d := SparedIndex(f, q[1..], b - 1);
      c, d := 0, d + 1;
    } else {
      c, d := SparedOrder(f, q[1..], a - 1, b - 1);
      c, d := c + |head|, d + |head|;
    }
  }

  lemma {:induction false} SparedIndex(f: Filter, q: seq<Command>, b: int) returns (d: int)
    requires 0 <= b < |q| && !Hits(f, q[b])
    ensures 0 <= d < |Spared(f, q)| && Spared(f, q)[d] == q[b]
  {
    if b == 0 {
      d := 0;
    } else {
      d := SparedIndex(f, q[1..], b - 1);
      if !Hits(f, q[0]) { d := d + 1; }
    }
  }

  lemma {:induction false} SparedDistinct(f: Filter, q: seq<Command>)
    requires DistinctIds(q)
    ensures DistinctIds(Spared(f, q))
  {
    if q != [] {
      SparedDistinct(f, q[1..]);
      SparedAreQueued(f, q[1..]);
      var r := Spared(f, q[1..]);
      forall b | 0 <= b < |r| ensures r[b].id != q[0].id {
        assert r[b] in q[1..];
        var k :| 0 <= k < |q| - 1 && q[1..][k] == r[b];
        assert q[k + 1].id != q[0].id;
      }
    }
  }

  lemma SweepQueueFair(f: Filter, s: State, x: int, y: int)
    requires |s.slots| == TABLE && Lined(s) && Fair(s, x, y)
    ensures var t := SweepQueue(f, s); Lined(t) && Fair(t, x, y)
  {
    var t := SweepQueue(f, s);
    SparedAreQueued(f, s.queue);
    SparedDistinct(f, s.queue);
    forall k | 0 <= k < |t.queue| ensures t.queue[k] in s.queue && !Hits(f, t.queue[k]) {
      assert t.queue[k] in Spared(f, s.queue);
    }
    if !Settled(s, x, y) {
      var a, b :| Waiting(Scan(0, 0, false, s), 0, x, y, a, b);
      if !Hits(f, s.queue[a]) && !Hits(f, s.queue[b]) {
        var c, d := SparedOrder(f, s.queue, a, b);
        assert Waiting(Scan(0, 0, false, t), 0, x, y, c, d);
      } else {
        assert x in s.accepted && y in s.accepted;
        assert Settled(t, x, y);
      }
    }
  }

  lemma SweepSlotsFair(w: Sweep, s: State, x: int, y: int)
    requires |s.slots| == TABLE && Lined(s) && Fair(s, x, y)
    ensures var t := SweepSlots(w, s); Lined(t) && Fair(t, x, y)
  {
    if !Settled(s, x, y) {
      var a, b :| Waiting(Scan(0, 0, false, s), 0, x, y, a, b);
      assert Waiting(Scan(0, 0, false, SweepSlots(w, s)), 0, x, y, a, b);
    }
  }

  lemma UpdateFair(s: State, dt: int, x: int, y: int)
    requires |s.slots| == TABLE && Lined(s) && Fair(s, x, y) && dt >= 0
    requires !ScanOvertakes(Scan(0, 0, false, s), dt, x, y)
    ensures Lined(Update(s, dt)) && Fair(Update(s, dt), x, y)
  {
    var p := Scan(0, 0, false, s);
    if !Settled(s, x, y) {
      var a, b :| Waiting(p, 0, x, y, a, b);
      assert Waiting(p, dt, x, y, a, b);
    }
    ScanKeepsFair(p, dt, x, y);
    var q := ScanAll(p, dt);
    if !Settled(q.s, x, y) {
      var a, b :| Waiting(q, dt, x, y, a, b);
      assert Waiting(Scan(0, 0, false, q.s), 0, x, y, a, b);
    }
    SweepSlotsFair(Expire(dt), q.s, x, y);
  }

  lemma ApplyFair(s: State, e: Event, x: int, y: int)
    requires |s.slots| == TABLE && Lined(s) && Fair(s, x, y)
    requires (e.Add? ==> e.c.id !in s.accepted) && (e.Tick? ==> e.dt >= 0)
    requires e.Tick? ==> !ScanOvertakes(Scan(0, 0, false, s), e.dt, x, y)
    ensures Lined(Apply(s, e)) && Fair(Apply(s, e), x, y)
  {
    var t := Apply(s, e);
    match e
    case Tick(dt) => UpdateFair(s, dt, x, y);
    case Stop(cls) =>
      SweepSlotsFair(Kill(OfClass(cls)), s, x, y);
      SweepQueueFair(OfClass(cls), SweepSlots(Kill(OfClass(cls)), s), x, y);
    case Cancel(session) =>
      if session == 0 {
        if !Settled(s, x, y) {
          var a, b :| Waiting(Scan(0, 0, false, s), 0, x, y, a, b);
          assert Settled(t, x, y);
        }
      } else {
        SweepSlotsFair(Kill(OfSession(session)), s, x, y);
        SweepQueueFair(OfSession(session), SweepSlots(Kill(OfSession(session)), s), x, y);
      }
    case _ =>
      if !Settled(s, x, y) {
        var a, b :| Waiting(Scan(0, 0, false, s), 0, x, y, a, b);
        assert Waiting(Scan(0, 0, false, t), 0, x, y, a, b);
      }
  }

  lemma ApplyLost(s: State, e: Event)
    requires |s.slots| == TABLE
    ensures s.lost <= Apply(s, e).lost
  {
    if e.Tick? { LostOnlyGrows(Scan(0, 0, false, s), e.dt); }
  }

  lemma {:induction false} RunLost(s: State, es: seq<Event>)
    requires |s.slots| == TABLE
    ensures s.lost <= Run(s, es).lost
    decreases |es|
  {
    if es != [] {
      ApplyLost(s, es[0]);
      RunLost(Apply(s, es[0]), es[1..]);
    }
  }

  /** The lemmas about runs apply to a new scheduler. */
  lemma InitialIsSound()
    ensures Inv(Initial) && Exclusive(Initial.slots) && Lined(Initial)
  {
  }
}
