/** The life of one command in its slot: replies find it by its slot, other traffic leaves it
    alone, and it ends on its last due reply or on the pass that uses up its time. */
module SlotLife {
  import opened Basics
  import opened Commands
  import opened Scheduler
  import opened Draining

  /** Reply routing: the search through the table is an index by task id. A reply for any other
      number, such as the 0xFF of direct sends, changes nothing. */
  lemma ReplyRouting(s: State, task: int, result: int, flags: int, cmd: int)
    requires Inv(s) && flags % 16 == 0
    ensures var t := OnCompletion(s, task, result, flags, cmd);
      if InTable(task) && s.slots[task].Some? then
        var c := s.slots[task].value;
        && (forall i :: 0 <= i < TABLE && i != task ==> t.slots[i] == s.slots[i])
        && t.slots[task] == (if c.replies == 1 then None else Some(Finished(c, result)))
        && t.notes == s.notes + FinishNotes(c, result, 0)
        && t == s.(slots := t.slots, notes := t.notes)
      else t == s
    ensures task == UNSENT_TASK_ID ==> OnCompletion(s, task, result, flags, cmd) == s
  {
    assert InTable(task) && s.slots[task].Some? ==> FirstAnswering(s.slots, 1, task, flags, cmd) == task;
  }

  /** A slot that was taken before the scan, or by an earlier round of it, keeps its command as
      long as the scan carries another index. */
  lemma {:induction false} ScanSpares(p: Scan, dt: int, i: nat)
    requires ScanOk(p) && InTable(i) && p.s.slots[i].Some? && p.ind != i
    ensures ScanAll(p, dt).s.slots[i] == p.s.slots[i]
    decreases |p.s.queue| - p.k
  {
    if !p.over && p.k < |p.s.queue| {
      ScanSpares(ScanStep(p, dt), dt, i);
    }
  }

  /** Events that do not single out the command c in slot i, except replies to it by task id. */
  ghost predicate Quiet(c: Command, e: Event) {
    match e
    case Add(d) => Fresh(d)
    case Tick(dt) => dt >= 1
    case Reply(_, _, flags, cmd) => flags % 16 == 1 ==> cmd != c.coId
    case Stop(cls) => cls != ClassId(c.kind)
    case Cancel(session) => session != 0 && session != c.id
    case LockMotors => true
  }

  ghost predicate AllQuiet(c: Command, es: seq<Event>) {
    forall k :: 0 <= k < |es| ==> Quiet(c, es[k])
  }

  function Elapsed(es: seq<Event>): int {
    if es == [] then 0 else (if es[0].Tick? then es[0].dt else 0) + Elapsed(es[1..])
  }

  predicate RepliesTo(e: Event, i: int) {
    e.Reply? && e.flags % 16 == 0 && e.task == i
  }

  function RepliesIn(es: seq<Event>, i: int): nat {
    if es == [] then 0 else (if RepliesTo(es[0], i) then 1 else 0) + RepliesIn(es[1..], i)
  }

  /** c as it is after some time and some good replies. */
  predicate Aged(c: Command, d: Command, time: int, replies: int) {
    d == c.(timeout := c.timeout - time, replies := c.replies - replies, enabled := d.enabled)
  }

  lemma QuietStep(s: State, e: Event, i: nat, c: Command)
    requires Inv(s) && InTable(i) && s.slots[i] == Some(c) && Quiet(c, e)
    requires e.Tick? ==> e.dt < c.timeout
    requires RepliesTo(e, i) ==> c.replies > 1
    ensures Inv(Apply(s, e))
    ensures var o := Apply(s, e).slots[i];
      o.Some? && Aged(c, o.value, if e.Tick? then e.dt else 0, if RepliesTo(e, i) then 1 else 0)
  {
    ApplyKeepsInv(s, e);
    match e
    case Tick(dt) => ScanSpares(Scan(0, 0, false, s), dt, i);
    case Reply(task, result, flags, cmd) =>
      if flags % 16 == 0 { ReplyRouting(s, task, result, flags, cmd); }
    case _ =>
  }

  lemma {:induction false} ElapsedNonNegative(c: Command, es: seq<Event>)
    requires AllQuiet(c, es)
    ensures Elapsed(es) >= 0
  {
    if es != [] {
      assert Quiet(c, es[0]);
      ElapsedNonNegative(c, es[1..]);
    }
  }

  /** As long as time and replies remain, a command keeps its slot through any other traffic,
      and its counters tell exactly what has passed. */
  lemma {:induction false} StillOut(s: State, es: seq<Event>, i: nat, c: Command)
    requires Inv(s) && InTable(i) && s.slots[i] == Some(c) && AllQuiet(c, es)
    requires Elapsed(es) < c.timeout && RepliesIn(es, i) < c.replies
    ensures Inv(Run(s, es))
    ensures var o := Run(s, es).slots[i]; o.Some? && Aged(c, o.value, Elapsed(es), RepliesIn(es, i))
    decreases |es|
  {
    hide Apply;
    if es != [] {
      assert Quiet(c, es[0]);
      forall k | 0 <= k < |es| - 1 ensures Quiet(c, es[1..][k]) { assert Quiet(c, es[k + 1]); }
      ElapsedNonNegative(c, es[1..]);
      QuietStep(s, es[0], i, c);
      var d := Apply(s, es[0]).slots[i].value;
      forall k | 0 <= k < |es| - 1 ensures Quiet(d, es[1..][k]) { assert Quiet(c, es[1..][k]); }
      StillOut(Apply(s, es[0]), es[1..], i, d);
    }
  }

  /** The k-th good reply of a command that waits for k, and no earlier one, reports it: before it
      the command is still out, with it the slot is free and the final note says success. */
  lemma LastReplyEnds(s: State, es: seq<Event>, i: nat, c: Command, result: int, flags: int, cmd: int)
    requires Inv(s) && InTable(i) && s.slots[i] == Some(c) && AllQuiet(c, es)
    requires Elapsed(es) < c.timeout && RepliesIn(es, i) == c.replies - 1 && flags % 16 == 0
    ensures var t := Run(s, es); var u := OnCompletion(t, i, result, flags, cmd);
      && t.slots[i].Some? && u.slots[i].None?
      && u.notes == t.notes + FinishNotes(t.slots[i].value, result, 0)
      && u.notes[|u.notes| - 1] == Final(c.id, Reported(t.slots[i].value, result), 0, ReportChannel(c))
  {
    StillOut(s, es, i, c);
    ReplyRouting(Run(s, es), i, result, flags, cmd);
  }

  lemma {:induction false} SweepNotesHave(w: Sweep, slots: seq<Option<Command>>, i: nat, n: Note)
    requires i < |slots| && n in SlotNotes(w, slots[i])
    ensures n in SweepNotes(w, slots)
  {
    if i > 0 {
      assert slots[1..][i - 1] == slots[i];
      SweepNotesHave(w, slots[1..], i - 1, n);
    }
  }

  lemma ExpiryReports(s: State, dt: int, i: nat, c: Command)
    requires Inv(s) && InTable(i) && s.slots[i] == Some(c) && c.timeout <= dt
    ensures var t := SweepSlots(Expire(dt), s);
      t.slots[i].None? && Final(c.id, Reported(c, 0), -2, ReportChannel(c)) in t.notes
  {
    SweepNotesHave(Expire(dt), s.slots, i, Final(c.id, Reported(c, 0), -2, ReportChannel(c)));
  }

  predicate EveryTick(es: seq<Event>, dt: int) {
    forall k :: 0 <= k < |es| && es[k].Tick? ==> es[k].dt == dt
  }

  lemma {:induction false} ElapsedIsTicks(es: seq<Event>, dt: int)
    requires EveryTick(es, dt)
    ensures Elapsed(es) == dt * Ticks(es)
  {
    if es != [] {
      forall k | 0 <= k < |es| - 1 && es[1..][k].Tick? ensures es[1..][k].dt == dt {
        assert es[k + 1].Tick?;
      }
      ElapsedIsTicks(es[1..], dt);
    }
  }

  lemma UpdateReports(s: State, dt: int, i: nat, c: Command)
    requires Inv(s) && InTable(i) && s.slots[i] == Some(c) && c.timeout <= dt
    ensures var t := Update(s, dt);
      t.slots[i].None? && Final(c.id, Reported(c, 0), -2, ReportChannel(c)) in t.notes
  {
    var p := Scan(0, 0, false, s);
    ScanSpares(p, dt, i);
    ScanKeepsInv(p, dt);
    ExpiryReports(ScanAll(p, dt).s, dt, i, c);
  }

  lemma OutAfterPasses(s: State, dt: int, es: seq<Event>, i: nat, c: Command)
    requires Inv(s) && InTable(i) && s.slots[i] == Some(c) && dt >= 1
    requires AllQuiet(c, es) && EveryTick(es, dt) && RepliesIn(es, i) < c.replies
    requires (Ticks(es) + 1) * dt < c.timeout
    ensures var t := Run(SweepSlots(Expire(dt), s), es);
      Inv(t) && t.slots[i].Some? && Aged(c, t.slots[i].value, (Ticks(es) + 1) * dt, RepliesIn(es, i))
  {
    hide Apply;
    ElapsedIsTicks(es, dt);
    assert (Ticks(es) + 1) * dt == dt * Ticks(es) + dt;
    assert dt * Ticks(es) >= 0;
    var c1 := c.(timeout := c.timeout - dt);
    forall k | 0 <= k < |es| ensures Quiet(c1, es[k]) { assert Quiet(c, es[k]); }
    StillOut(SweepSlots(Expire(dt), s), es, i, c1);
  }

  lemma NextPassEndsIff(t: State, dt: int, i: nat, d: Command)
    requires Inv(t) && InTable(i) && t.slots[i] == Some(d) && dt >= 1
    ensures d.timeout <= dt <==> Update(t, dt).slots[i].None?
    ensures d.timeout <= dt ==> exists n :: n in Update(t, dt).notes && n.Final? && n.id == d.id && n.error == -2
  {
    if d.timeout <= dt { UpdateReports(t, dt, i, d); } else { QuietStep(t, Tick(dt), i, d); }
  }

  /** Timeout exactness: s is the table when the scan of the placing update has put c into slot i;
      then come the expiry pass of that update, any other traffic, and later updates of the same
      length. The command is out after each pass before the ceil(T/dt)-th, and that pass
      reports it with -2. */
  lemma TimeoutExact(s: State, dt: int, es: seq<Event>, i: nat, c: Command)
    requires Inv(s) && InTable(i) && s.slots[i] == Some(c) && dt >= 1
    requires AllQuiet(c, es) && EveryTick(es, dt) && RepliesIn(es, i) < c.replies
    requires Ticks(es) + 1 < CeilDiv(c.timeout, dt)
    ensures var t := Run(SweepSlots(Expire(dt), s), es);
      && t.slots[i].Some? && t.slots[i].value.id == c.id
      && (Ticks(es) + 2 == CeilDiv(c.timeout, dt) <==> Update(t, dt).slots[i].None?)
      && (Ticks(es) + 2 == CeilDiv(c.timeout, dt) ==>
            exists n :: n in Update(t, dt).notes && n.Final? && n.id == c.id && n.error == -2)
  {
    hide Apply;
    CeilDivBounds(c.timeout, dt, Ticks(es) + 1);
    CeilDivBounds(c.timeout, dt, Ticks(es) + 2);
    OutAfterPasses(s, dt, es, i, c);
    var t := Run(SweepSlots(Expire(dt), s), es);
    assert (Ticks(es) + 2) * dt == (Ticks(es) + 1) * dt + dt;
    NextPassEndsIff(t, dt, i, t.slots[i].value);
  }

  /** With at most one pass to live, the placing update itself reports the timeout. */
  lemma TimeoutAtOnce(s: State, dt: int, i: nat, c: Command)
    requires Inv(s) && InTable(i) && s.slots[i] == Some(c) && dt >= 1
    ensures CeilDiv(c.timeout, dt) == 1 <==> SweepSlots(Expire(dt), s).slots[i].None?
    ensures CeilDiv(c.timeout, dt) == 1 ==>
      Final(c.id, Reported(c, 0), -2, ReportChannel(c)) in SweepSlots(Expire(dt), s).notes
  {
    CeilDivBounds(c.timeout, dt, 0);
    CeilDivBounds(c.timeout, dt, 1);
    if c.timeout <= dt { ExpiryReports(s, dt, i, c); }
  }
}
