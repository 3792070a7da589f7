/** The scheduler's queue and slot table on values: one function per locked section of
    server/RDSTask.cpp, and runs of them. */
module Scheduler {
  import opened Basics
  import opened Commands

  const TABLE := 255
  const LAST_SLOT := 251

  /** `dropped` are the queued commands a cancel-all discards unreported; `lost` are those pushed
      out of an occupied slot by a later placement. `started` lists commands in sending order. */
  datatype State = State(
    queue: seq<Command>,
    slots: seq<Option<Command>>,
    motorDisabled: bool,
    accepted: set<int>,
    started: seq<int>,
    notes: seq<Note>,
    dropped: seq<int>,
    lost: seq<int>)

  const Initial := State([], seq(TABLE, _ => None), false, {}, [], [], [], [])

  predicate InTable(i: int) { 1 <= i <= LAST_SLOT }

  /** The last free slot up to i, 0 if there is none. */
  function LastFree(slots: seq<Option<Command>>, i: nat): (f: nat)
    requires i < |slots|
    ensures f <= i
    ensures f > 0 ==> slots[f].None?
    ensures forall j :: f < j <= i ==> slots[j].Some?
  {
    if i == 0 then 0 else if slots[i].None? then i else LastFree(slots, i - 1)
  }

  predicate HeldBack(slots: seq<Option<Command>>, c: Command)
    requires |slots| == TABLE
  {
    exists i :: 1 <= i <= LAST_SLOT && slots[i].Some? && Blocked(slots[i].value, c)
  }

  /** The scan of update: position in the queue, the slot index it carries along, and
      whether it has broken off. */
  datatype Scan = Scan(k: nat, ind: nat, over: bool, s: State)

  ghost predicate ScanOk(p: Scan) {
    && p.k <= |p.s.queue|
    && |p.s.slots| == TABLE
    && p.ind <= LAST_SLOT
  }

  /** The index found by looking through the table; a full table keeps the previous one. */
  function SlotIndex(p: Scan): nat
    requires |p.s.slots| == TABLE
  {
    var f := LastFree(p.s.slots, LAST_SLOT);
    if f == 0 then p.ind else f
  }

  function Ticked(c: Command, dt: int): Command {
    c.(startTime := c.startTime - dt)
  }

  /** Puts `c` into slot ind; a command already there is forgotten. */
  function Place(s: State, c: Command, ind: nat): State
    requires ind < |s.slots|
  {
    s.(slots := s.slots[ind := Some(c)],
       lost := s.lost + (if s.slots[ind].Some? then [s.slots[ind].value.id] else []))
  }

  /** Finishes a command that is listed nowhere; if it still waits for replies it is forgotten. */
  function Close(s: State, c: Command, error: int): State {
    s.(notes := s.notes + FinishNotes(c, 0, error),
       lost := s.lost + (if Ends(c, error) then [] else [c.id]))
  }

  function MarkStarted(s: State, c: Command): State {
    s.(started := s.started + [c.id], motorDisabled := s.motorDisabled && !EnablesMotors(c))
  }

  /** Takes `c` out of the queue, sends it, and files it. */
  function Launch(p: Scan, c: Command, ind: nat): (q: Scan)
    requires ScanOk(p) && p.k < |p.s.queue| && InTable(ind)
    ensures ScanOk(q)
  {
    var s := p.s.(queue := Without(p.s.queue, p.k));
    var d := c.(taskId := ind);
    if SendFails(d) then Scan(p.k, ind, true, Close(s, d, -4))
    else
      var e := Sent(d);
      Scan(p.k, ind, false,
           if e.timeout > 0 then Place(MarkStarted(s, d), e, ind) else Close(MarkStarted(s, d), e, 0))
  }

  /** One round of the loop in update. */
  function ScanStep(p: Scan, dt: int): (q: Scan)
    requires ScanOk(p) && p.k < |p.s.queue| && !p.over
    ensures ScanOk(q)
    ensures |q.s.queue| - q.k < |p.s.queue| - p.k
  {
    var c := Ticked(p.s.queue[p.k], dt);
    var kept := p.s.(queue := p.s.queue[p.k := c]);
    var ind := SlotIndex(p);
    if c.startTime > 0 then Scan(p.k + 1, p.ind, false, kept)
    else if ind == 0 then Scan(p.k + 1, 0, true, kept)
    else if HeldBack(p.s.slots, c) then Scan(p.k + 1, ind, false, kept)
    else Launch(p, c, ind)
  }

  function ScanAll(p: Scan, dt: int): (q: Scan)
    requires ScanOk(p)
    ensures ScanOk(q) && (q.over || q.k == |q.s.queue|)
    decreases |p.s.queue| - p.k
  {
    if p.over || p.k == |p.s.queue| then p else ScanAll(ScanStep(p, dt), dt)
  }

  /** A walk over the slots that finishes some of the commands in them. */
  datatype Sweep = Expire(dt: int) | Kill(f: Filter)

  function SlotAfter(w: Sweep, o: Option<Command>): Option<Command> {
    match o
    case None => None
    case Some(c) =>
      match w
      case Expire(dt) =>
        if c.timeout - dt <= 0 then None else Some(c.(timeout := c.timeout - dt))
      case Kill(f) => if Hits(f, c) then None else o
  }

  function SlotNotes(w: Sweep, o: Option<Command>): seq<Note> {
    match o
    case None => []
    case Some(c) =>
      match w
      case Expire(dt) => if c.timeout - dt <= 0 then FinishNotes(c, 0, -2) else []
      case Kill(f) => if Hits(f, c) then FinishNotes(c, 0, -3) else []
  }

  function SweepNotes(w: Sweep, slots: seq<Option<Command>>): seq<Note> {
    if slots == [] then [] else SlotNotes(w, slots[0]) + SweepNotes(w, slots[1..])
  }

  lemma {:induction false} NoSlotsNoNotes(w: Sweep, slots: seq<Option<Command>>)
    requires forall i :: 0 <= i < |slots| ==> slots[i].None?
    ensures SweepNotes(w, slots) == []
  {
    if slots != [] { NoSlotsNoNotes(w, slots[1..]); }
  }

  function SweepSlots(w: Sweep, s: State): State {
    s.(slots := seq(|s.slots|, i requires 0 <= i < |s.slots| => SlotAfter(w, s.slots[i])),
       notes := s.notes + SweepNotes(w, s.slots))
  }

  function Spared(f: Filter, queue: seq<Command>): seq<Command> {
    if queue == [] then []
    else (if Hits(f, queue[0]) then [] else [queue[0]]) + Spared(f, queue[1..])
  }

  function HitNotes(f: Filter, queue: seq<Command>): seq<Note> {
    if queue == [] then []
    else (if Hits(f, queue[0]) then FinishNotes(queue[0], 0, -3) else []) + HitNotes(f, queue[1..])
  }

  function SweepQueue(f: Filter, s: State): State {
    s.(queue := Spared(f, s.queue), notes := s.notes + HitNotes(f, s.queue))
  }

  function Update(s: State, dt: int): State
    requires |s.slots| == TABLE
  {
    SweepSlots(Expire(dt), ScanAll(Scan(0, 0, false, s), dt).s)
  }

  function AddCommand(s: State, c: Command): State {
    if s.motorDisabled then s else s.(queue := s.queue + [c], accepted := s.accepted + {c.id})
  }

  function StopMotion(s: State, cls: int): State {
    SweepQueue(OfClass(cls), SweepSlots(Kill(OfClass(cls)), s))
  }

  function Ids(queue: seq<Command>): seq<int> {
    seq(|queue|, i requires 0 <= i < |queue| => queue[i].id)
  }

  function CancelCommand(s: State, session: int): State {
    if session == 0 then
      SweepSlots(Kill(Everything), s.(queue := [], dropped := s.dropped + Ids(s.queue)))
    else
      SweepQueue(OfSession(session), SweepSlots(Kill(OfSession(session)), s))
  }

  /** A reply matches by task id, or, as a system control reply, by the command `cmd`
      that the device table gives for it. */
  predicate Answers(c: Command, task: int, flags: int, cmd: int) {
    || (flags % 16 == 0 && c.taskId == task)
    || (flags % 16 == 1 && c.coId == cmd)
  }

  /** The first slot from i on that the reply matches, TABLE if there is none. */
  function FirstAnswering(slots: seq<Option<Command>>, i: nat, task: int, flags: int, cmd: int): (j: nat)
    requires |slots| == TABLE && 1 <= i <= LAST_SLOT + 1
    ensures j == TABLE || (i <= j <= LAST_SLOT && slots[j].Some? && Answers(slots[j].value, task, flags, cmd))
    ensures forall m :: i <= m < j && m <= LAST_SLOT && slots[m].Some? ==> !Answers(slots[m].value, task, flags, cmd)
    decreases LAST_SLOT + 1 - i
  {
    if i > LAST_SLOT then TABLE
    else if slots[i].Some? && Answers(slots[i].value, task, flags, cmd) then i
    else FirstAnswering(slots, i + 1, task, flags, cmd)
  }

  function OnCompletion(s: State, task: int, result: int, flags: int, cmd: int): State
    requires |s.slots| == TABLE
  {
    var j := FirstAnswering(s.slots, 1, task, flags, cmd);
    if j == TABLE then s
    else
      var c := s.slots[j].value;
      s.(slots := s.slots[j := if Ends(c, 0) then None else Some(Finished(c, result))],
         notes := s.notes + FinishNotes(c, result, 0))
  }

  // ---- runs ----

  datatype Event =
    | Add(c: Command)
    | Tick(dt: int)
    | Reply(task: int, result: int, flags: int, cmd: int)
    | Stop(cls: int)
    | Cancel(session: int)
    | LockMotors

  function Apply(s: State, e: Event): (t: State)
    requires |s.slots| == TABLE
    ensures |t.slots| == TABLE
  {
    match e
    case Add(c) => AddCommand(s, c)
    case Tick(dt) => Update(s, dt)
    case Reply(task, result, flags, cmd) => OnCompletion(s, task, result, flags, cmd)
    case Stop(cls) => StopMotion(s, cls)
    case Cancel(session) => CancelCommand(s, session)
    case LockMotors => s.(motorDisabled := true)
  }

  function Run(s: State, es: seq<Event>): (t: State)
    requires |s.slots| == TABLE
    ensures |t.slots| == TABLE
    decreases |es|
  {
    if es == [] then s else Run(Apply(s, es[0]), es[1..])
  }

  /** Every added command is a new object, as its constructor leaves it. */
  ghost predicate Feasible(s: State, es: seq<Event>)
    requires |s.slots| == TABLE
    decreases |es|
  {
    es == [] ||
    (&& (es[0].Add? ==> Fresh(es[0].c) && es[0].c.id !in s.accepted)
     && Feasible(Apply(s, es[0]), es[1..]))
  }

  // ---- the slot invariant ----

  predicate Holds(c: Command, i: int) {
    c.taskId == i && c.timeout > 0 && c.replies >= 1
  }

  /** Slot i holds only a command that carries i as its task id and still has time and
      replies due; queued commands are as constructed. */
  ghost predicate Inv(s: State) {
    && |s.slots| == TABLE
    && (forall i :: 0 <= i < TABLE && s.slots[i].Some? ==> InTable(i) && Holds(s.slots[i].value, i))
    && (forall k :: 0 <= k < |s.queue| ==> Fresh(s.queue[k]))
  }
}
