/** What a command is told to be when it is sent, where it is filed, and what is reported of it when it ends
    (server/base/CommandObject.cpp:48-72, 150-247, 286-545, server/RDSTask.cpp:79-276): said class by class in
    numbers. */
module Outcomes {
  import opened Basics
  import opened Commands
  import opened Scheduler
  import opened Draining
  import opened Blocking
  import opened StartOrders
  import opened Holding

  // ---- sending ----

  /** How long a reply is waited for, in milliseconds; the marked distance means as long as it takes, except for
      walks and turns. */
  function Waits(c: Command): int {
    match c.kind
    case Setting | Action => 15000
    case Motor(_) | Emoji | Controller => c.timeout
    case Position(d) =>
      if d == 0 then c.timeout
      else if c.coId == 0x32 || c.coId == 0x34 then (if d == 43690 || d == -43690 then -1 else 600000)
      else if d == 43690 || d == -43690 then 30000 else 60000
  }

  /** As many replies as a data block has units, its last unit's device, and for settings that turn something on
      the expectation that it is. */
  lemma SendSets(c: Command)
    ensures SendFails(c) <==> c.kind.Motor? && |c.kind.data| % 10 != 0
    ensures !SendFails(c) ==>
      var r := Sent(c);
      && r.timeout == Waits(c)
      && (c.kind.Motor? && c.kind.data != [] ==>
           10 * r.replies == |c.kind.data| && r.coId == c.kind.data[10 * (r.replies - 1) + 3])
      && (!c.kind.Motor? || c.kind.data == [] ==> r.replies == c.replies && r.coId == c.coId)
      && (c.kind.Setting? ==> (r.enabled <==> c.coId == 1 || c.coId == 3))
      && (!c.kind.Setting? ==> r.enabled == c.enabled)
      && r.id == c.id && r.kind == c.kind && r.flags == c.flags && r.hasCallback == c.hasCallback
      && r.hasListener == c.hasListener && r.startTime == c.startTime && r.taskId == c.taskId
  {
  }

  // ---- reporting ----

  /** What a setting says of the device after a reply. */
  predicate TurnsOut(coId: int, enabled: bool, result: int) {
    if coId == 1 || coId == 3 then enabled && result == 0
    else if coId == 2 then enabled || result == 0
    else if coId == 4 || coId == 6 then enabled || result != 0
    else enabled
  }

  function Value(c: Command, result: int): int {
    if c.kind.Setting? && c.coId != 5 then (if TurnsOut(c.coId, c.enabled, result) then 1 else 0) else result
  }

  predicate IsEnd(n: Note, c: Command, result: int, error: int) {
    && n.Final? && n.id == c.id && n.result == Value(c, result) && n.error == error
    && (n.channel.ToCallback? <==> c.hasCallback)
    && (n.channel.ToService? <==> !c.hasCallback && !c.hasListener)
  }

  /** A good reply is first told to the listener, if there is one; a command that is out of replies, or fails, has
      its end told to the callback, or if there is none and no listener either, to the service. */
  lemma FinishTells(c: Command, result: int, error: int)
    ensures var ns := FinishNotes(c, result, error);
      var told := c.hasListener && error == 0; var ends := c.replies <= 1 || error != 0;
      && |ns| == (if told then 1 else 0) + (if ends then 1 else 0)
      && (told ==> ns[0] == Progress(c.id, Value(c, result)))
      && (ends ==> IsEnd(ns[|ns| - 1], c, result, error))
  {
  }

  /** So a setting that was just sent reports success of its device: for those that turn something on and for the
      question about motors a result of 0, for the questions about sensors a result other than 0. */
  lemma SettingReports(c: Command, result: int)
    requires c.kind.Setting? && !c.enabled && c.replies <= 1
    ensures var ns := FinishNotes(Sent(c), result, 0);
      && |ns| > 0 && ns[|ns| - 1].Final?
      && var n := ns[|ns| - 1];
        && n.error == 0
        && (c.coId == 1 || c.coId == 2 || c.coId == 3 ==> (n.result == 1 <==> result == 0))
        && (c.coId == 4 || c.coId == 6 ==> (n.result == 1 <==> result != 0))
        && (c.coId == 5 ==> n.result == result)
  {
  }

  // ---- replies ----

  /** A reply is for the command under its task number, or, when it is flagged as one of the control channel, for
      one of its device number. */
  predicate IsFor(c: Command, task: int, flags: int, cmd: int) {
    (flags % 16 == 0 && c.taskId == task) || (flags % 16 == 1 && c.coId == cmd)
  }

  /** The first slot with such a command gets the reply: it counts down, or ends and frees its slot on the last
      one, and all else stays. */
  lemma ReplyReaches(s: State, j: nat, task: int, result: int, flags: int, cmd: int)
    requires |s.slots| == 255 && 1 <= j <= 251 && s.slots[j].Some? && IsFor(s.slots[j].value, task, flags, cmd)
    requires forall i :: 1 <= i < j && s.slots[i].Some? ==> !IsFor(s.slots[i].value, task, flags, cmd)
    ensures var t, c := OnCompletion(s, task, result, flags, cmd), s.slots[j].value;
      && |t.slots| == 255 && (forall i :: 0 <= i < 255 && i != j ==> t.slots[i] == s.slots[i])
      && (if c.replies <= 1 then t.slots[j].None?
          else
            && t.slots[j].Some? && t.slots[j].value == c.(replies := c.replies - 1, enabled := t.slots[j].value.enabled)
            && t.slots[j].value.enabled == if c.kind.Setting? then TurnsOut(c.coId, c.enabled, result) else c.enabled)
      && t == s.(slots := t.slots, notes := s.notes + FinishNotes(c, result, 0))
  {
    var k := FirstAnswering(s.slots, 1, task, flags, cmd);
    assert k == j;
    hide FinishNotes;
  }

  /** Without one nothing happens. */
  lemma ReplyMisses(s: State, task: int, result: int, flags: int, cmd: int)
    requires |s.slots| == 255
    requires forall i :: 1 <= i <= 251 && s.slots[i].Some? ==> !IsFor(s.slots[i].value, task, flags, cmd)
    ensures OnCompletion(s, task, result, flags, cmd) == s
  {
    var k := FirstAnswering(s.slots, 1, task, flags, cmd);
  }

  // ---- filing ----

  /** The slot a command gets: the last one that is free, or if none is the one found before. */
  predicate IsItsSlot(p: Scan, i: int)
    requires |p.s.slots| == 255
  {
    if exists j :: 1 <= j <= 251 && p.s.slots[j].None?
    then 1 <= i <= 251 && p.s.slots[i].None? && forall j :: i < j <= 251 ==> p.s.slots[j].Some?
    else i == p.ind
  }

  lemma ItsSlot(p: Scan)
    requires ScanOk(p)
    ensures IsItsSlot(p, SlotIndex(p))
  {
    var f := LastFree(p.s.slots, LAST_SLOT);
    if f > 0 { assert p.s.slots[f].None?; }
  }

  /** The command, under the number of slot i, with its delay shortened. */
  function Numbered(c: Command, dt: int, i: int): Command {
    c.(startTime := c.startTime - dt, taskId := i)
  }

  /** It is in that slot as Send leaves it; or if it waits for no time, its end is reported at once with 0; or if it
      cannot be sent, with -4. What was in the slot is lost. */
  ghost predicate IsFiled(p: Scan, q: Scan, c: Command, dt: int, i: int)
    requires |p.s.slots| == 255 && |q.s.slots| == 255
  {
    var d := Numbered(c, dt, i);
    && 1 <= i <= 251
    && (if !CanBeSent(c) then q.s.slots == p.s.slots && q.s.notes == p.s.notes + FinishNotes(d, 0, -4)
        else if SendFails(d) then false
        else if Waits(c) <= 0 then q.s.slots == p.s.slots && q.s.notes == p.s.notes + FinishNotes(Sent(d), 0, 0)
        else
          && q.s.slots == p.s.slots[i := Some(Sent(d))] && q.s.notes == p.s.notes
          && q.s.lost == p.s.lost + if p.s.slots[i].Some? then [p.s.slots[i].value.id] else [])
  }

  lemma LaunchFiles(p: Scan, dt: int, i: nat)
    requires ScanOk(p) && p.k < |p.s.queue| && InTable(i)
    ensures IsFiled(p, Launch(p, Ticked(p.s.queue[p.k], dt), i), p.s.queue[p.k], dt, i)
  {
    SendSets(Numbered(p.s.queue[p.k], dt, i));
    hide Sent, FinishNotes;
  }

  lemma StartingLaunches(p: Scan, dt: int)
    requires ScanOk(p) && !p.over && p.k < |p.s.queue|
    requires p.s.queue[p.k].startTime - dt <= 0 && SlotFound(p) && !SomeInTheWay(p.s.slots, p.s.queue[p.k])
    ensures InTable(SlotIndex(p)) && ScanStep(p, dt) == Launch(p, Ticked(p.s.queue[p.k], dt), SlotIndex(p))
  {
    SlotFoundIff(p);
    var c := p.s.queue[p.k];
    HeldBackIff(p.s.slots, Ticked(c, dt));
    InTheWayIgnoresDelay(c, dt);
    SameInTheWay(p.s.slots, Ticked(c, dt), c);
    hide HeldBack, SomeInTheWay, InTheWay, SlotFound, InTheWaySame, Launch;
  }

  /** What becomes of a command that is started at its turn. */
  lemma StartedIsFiled(p: Scan, dt: int)
    requires ScanOk(p) && !p.over && p.k < |p.s.queue|
    requires p.s.queue[p.k].startTime - dt <= 0 && SlotFound(p) && !SomeInTheWay(p.s.slots, p.s.queue[p.k])
    ensures exists i: nat :: IsItsSlot(p, i) && IsFiled(p, ScanStep(p, dt), p.s.queue[p.k], dt, i)
  {
    StartingLaunches(p, dt);
    ItsSlot(p);
    LaunchFiles(p, dt, SlotIndex(p));
    hide IsItsSlot, IsFiled, SlotIndex;
    var i := SlotIndex(p);
    assert IsItsSlot(p, i);
  }

  // ---- the lock ----

  /** A command is refused while motors are disabled, and otherwise joins the end of the queue. */
  lemma AddedIff(s: State, c: Command)
    ensures var t := AddCommand(s, c);
      if s.motorDisabled then t == s
      else t == s.(queue := t.queue, accepted := s.accepted + {c.id})
           && |t.queue| == |s.queue| + 1 && t.queue[..|s.queue|] == s.queue && t.queue[|s.queue|] == c
  {
  }

  /** The command turns motors on. */
  predicate TurnsOn(c: Command) {
    c.kind.Setting? && c.coId == 0x01 && c.replies > 0
  }

  /** A step of the scan lifts the lock if and only if it starts a command that turns motors on. */
  lemma TurnLifts(p: Scan, dt: int)
    requires ScanOk(p) && !p.over && p.k < |p.s.queue|
    ensures var c, q := p.s.queue[p.k], ScanStep(p, dt);
      q.s.motorDisabled <==> p.s.motorDisabled && !(TurnsOn(c) && q.s.started == p.s.started + [c.id])
  {
    TurnIff(p, dt);
    hide Sent, FinishNotes, HeldBack, SomeInTheWay, SlotFound;
    assert |p.s.started + [p.s.queue[p.k].id]| > |p.s.started|;
  }

  /** And nothing else does; the lock is set by the setting that turns motors off alone. */
  lemma OthersKeepLock(s: State, e: Event)
    requires |s.slots| == TABLE && !e.Tick?
    ensures Apply(s, e).motorDisabled == (s.motorDisabled || e.LockMotors?)
  {
  }
}
