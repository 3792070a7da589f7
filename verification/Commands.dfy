/** The life of one motion or setting command: what Send does to its timers and counters,
    what Finish reports, and which commands hold which others back
    (server/base/CommandObject.cpp and CommandObject.h). */
module Commands {
  import opened Basics

  /** The subclass of a command, with the fields its Send and Equal consult. */
  datatype Kind =
    | Setting
    | Motor(data: seq<byte>)
    | Action
    | Position(distance: int)
    | Emoji
    | Controller

  /** A command as the scheduler sees it. `id` is the session id, unique per object. */
  datatype Command = Command(
    id: int,
    kind: Kind,
    flags: int,
    coId: int,
    hasCallback: bool,
    hasListener: bool,
    startTime: int,
    timeout: int,
    taskId: int,
    replies: int,
    enabled: bool)

  /** Where the final report of a command goes; a command with only a result listener has none. */
  datatype Channel = ToService | ToCallback | Nobody

  datatype Note =
    | Progress(id: int, result: int)
    | Final(id: int, result: int, error: int, channel: Channel)

  const FIRST_TIMEOUT := 5000
  const UNSENT_TASK_ID := 0xFF
  const MAZE_MARK := 0xAAAA
  const UNIT_SIZE := 10

  function ClassId(kind: Kind): int {
    match kind
    case Setting => 0x01
    case Motor(_) => 0x02
    case Action => 0x04
    case Position(_) => 0x08
    case Emoji => 0x0A
    case Controller => 0x1000
  }

  /** Bit 0x80 of the flags, two's complement. */
  predicate HoldsOthersBack(c: Command) {
    c.flags / 128 % 2 == 1
  }

  predicate Equal(a: Command, b: Command) {
    && ClassId(a.kind) == ClassId(b.kind)
    && match a.kind
       case Setting | Controller => a.coId == b.coId
       case Motor(data) => data == [] && a.coId == b.coId
       case _ => true
  }

  /** `a`, already out, holds `b` back. */
  predicate Blocked(a: Command, b: Command) {
    Equal(a, b) && HoldsOthersBack(a)
  }

  function Abs(x: int): nat {
    if x < 0 then -x else x
  }

  /** A data block whose length is not a whole number of units cannot be sent. */
  predicate SendFails(c: Command) {
    c.kind.Motor? && |c.kind.data| % UNIT_SIZE != 0
  }

  /** The command after a successful Send. */
  function Sent(c: Command): Command
    requires !SendFails(c)
  {
    match c.kind
    case Setting => c.(timeout := 15000, enabled := c.coId == 0x01 || c.coId == 0x03)
    case Motor(data) =>
      if data == [] then c
      else c.(replies := |data| / UNIT_SIZE, coId := data[|data| - UNIT_SIZE + 3])
    case Action => c.(timeout := 15000)
    case Position(distance) =>
      if distance == 0 then c
      else if c.coId == 0x32 || c.coId == 0x34 then
        c.(timeout := if Abs(distance) == MAZE_MARK then -1 else 600000)
      else
        c.(timeout := if Abs(distance) == MAZE_MARK then 30000 else 60000)
    case Emoji | Controller => c
  }

  /** Sending a "motion on" setting lifts the motor lock. */
  predicate EnablesMotors(c: Command) {
    c.kind.Setting? && c.coId == 0x01 && c.replies > 0
  }

  function EnabledAfter(c: Command, result: int): bool {
    match c.coId
    case 0x01 | 0x03 => c.enabled && result == 0
    case 0x02 => c.enabled || result == 0
    case 0x04 | 0x06 => c.enabled || result != 0
    case _ => c.enabled
  }

  /** The result value a command reports for a device result. */
  function Reported(c: Command, result: int): int {
    if !c.kind.Setting? || c.coId == 0x05 then result
    else if EnabledAfter(c, result) then 1 else 0
  }

  function ReportChannel(c: Command): Channel {
    if c.hasCallback then ToCallback else if c.hasListener then Nobody else ToService
  }

  /** Finish ends the command unless this was a good reply and more are due. */
  predicate Ends(c: Command, error: int) {
    c.replies <= 1 || error != 0
  }

  function FinishNotes(c: Command, result: int, error: int): seq<Note> {
    var value := Reported(c, result);
    (if c.hasListener && error == 0 then [Progress(c.id, value)] else [])
    + (if Ends(c, error) then [Final(c.id, value, error, ReportChannel(c))] else [])
  }

  /** The command's own fields after Finish. */
  function Finished(c: Command, result: int): Command {
    c.(replies := c.replies - 1,
       enabled := if c.kind.Setting? then EnabledAfter(c, result) else c.enabled)
  }

  /** What the constructors and Run methods leave behind before a command is queued. */
  predicate Fresh(c: Command) {
    && c.timeout == FIRST_TIMEOUT
    && c.taskId == UNSENT_TASK_ID
    && c.replies >= 1
    && (c.kind.Position? ==> c.replies == 1)
  }

  /** The commands that a given cancellation removes. */
  datatype Filter = OfClass(cls: int) | OfSession(id: int) | Everything

  predicate Hits(f: Filter, c: Command) {
    match f
    case OfClass(cls) => ClassId(c.kind) == cls
    case OfSession(id) => c.id == id
    case Everything => true
  }
}
