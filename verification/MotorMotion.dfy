/** The decoder of the 10-byte command units that a motion frame carries
    (server/base/CommandObject.cpp). The device table is a parameter; what is given to
    RDSTask::sendCommand is a log. */
module Motors {
  import opened Basics
  import Commands

  /** The lookups of the device table, and two constants of the robot's headers: the board of the
      trajectory controller and the code that runs a motor. */
  datatype Devices = Devices(
    motor: byte -> byte,
    board: byte -> int,
    part: byte -> byte,
    emoji: byte -> byte,
    trajectory: int,
    runMotor: byte)

  /** A call of sendCommand, or of stopMotion, which sends too and then ends all position commands. */
  datatype Frame =
    | Frame(board: int, bytes: seq<byte>)
    | StopPositions(board: int, bytes: seq<byte>)

  /** One command of a data block. */
  type Unit = u: seq<byte> | |u| == 10 witness seq(10, _ => 0)

  const RESET: byte := 0x3E
  const STOP: byte := 0x3F
  const STOP_MOVING: byte := 0x33
  const EXPRESSION: byte := 0x35
  const DIRECT: byte := 0xFF
  const WHEELS: byte := 4

  function LowByte(x: int): byte {
    x % 0x100
  }

  /** ResetMotion::Run. */
  function ResetFrames(d: Devices, id: byte): seq<Frame> {
    if id == 0x08 then
      if d.board(EXPRESSION) <= 0 then []
      else [Frame(d.board(EXPRESSION), [d.motor(EXPRESSION), 4, DIRECT, d.emoji(d.emoji(0x02))])]
    else [Frame(d.board(RESET), [d.motor(RESET), 5, DIRECT, d.part(id), 1])]
  }

  /** StopMotion::Run, called with one argument, which it does not look at. */
  function StopFrames(d: Devices): seq<Frame> {
    [Frame(d.board(STOP), [d.motor(STOP), 5, DIRECT, d.part(0), 0])]
  }

  /** PositionMotion::Stop. */
  function StopMovingFrames(d: Devices): seq<Frame> {
    [StopPositions(d.board(STOP), [d.motor(STOP), 5, DIRECT, WHEELS, 0])]
  }

  /** PositionMotion::Send of a unit; two kinds of motion send no distance, and one stops. */
  function PositionFrames(d: Devices, taskId: int, coId: byte, distance: int, speed: byte): seq<Frame> {
    if distance == 0 then []
    else if coId == STOP_MOVING then StopMovingFrames(d)
    else
      var val := if distance < 0 then -distance else distance;
      var len := if coId == 0x32 || coId == 0x34 then 4 else 8;
      [Frame(d.board(coId),
             [d.motor(coId), len, LowByte(taskId), if distance > 0 then 1 else 0,
              LowByte(val), LowByte(val / 0x100), speed, 0][..len])]
  }

  /** The distance in a unit's last six bytes. */
  function Distance(u: Unit): int {
    var value := u[4] as int + 0x100 * u[5] as int;
    if u[8] == 0 then -value else value
  }

  /** The time byte of a motor frame, in 0.1 s: the frame's own duration counts before the unit's. */
  function RunTime(val: byte, duration: int): byte {
    if duration > 0 then LowByte(duration / 100)
    else if val == 0 || val > 100 then 1
    else val
  }

  function MotorFrame(d: Devices, taskId: int, duration: int, coId: byte, board: int,
                      low: byte, high: byte, flags: byte, val: byte): Frame {
    Frame(board, [d.runMotor, 8, LowByte(taskId), d.motor(coId), low, high, flags, RunTime(val, duration)])
  }

  /** What one unit makes the robot do. */
  function UnitFrames(d: Devices, taskId: int, duration: int, u: Unit): seq<Frame> {
    var coId := u[3];
    if coId == RESET then ResetFrames(d, u[4])
    else if coId == STOP then StopFrames(d)
    else if d.board(coId) <= 0 then []
    else if d.board(coId) == d.trajectory then PositionFrames(d, taskId, coId, Distance(u), u[7])
    else [MotorFrame(d, taskId, duration, coId, d.board(coId), u[4], u[5], u[6], u[7])]
  }

  function Decoder(d: Devices, taskId: int, duration: int): Unit -> seq<Frame> {
    (u: Unit) => UnitFrames(d, taskId, duration, u)
  }

  /** What a data block makes of its units, one after the other. */
  function Blocks<T>(f: Unit -> seq<T>, data: seq<byte>): seq<T>
    decreases |data|
  {
    if |data| < 10 then [] else f(data[..10]) + Blocks(f, data[10..])
  }

  function UnitAt(data: seq<byte>, k: nat): Unit
    requires 10 * (k + 1) <= |data|
  {
    data[10 * k..10 * k + 10]
  }

  /** What it makes of the first k units. */
  function FirstUnits<T>(f: Unit -> seq<T>, data: seq<byte>, k: nat): seq<T>
    requires 10 * k <= |data|
  {
    if k == 0 then [] else FirstUnits(f, data, k - 1) + f(UnitAt(data, k - 1))
  }

  /** A block can be cut between any two units. */
  lemma {:induction false} BlockSplits<T>(f: Unit -> seq<T>, data: seq<byte>, k: nat)
    requires 10 * k <= |data|
    ensures Blocks(f, data) == FirstUnits(f, data, k) + Blocks(f, data[10 * k..])
  {
    if k == 0 {
      assert data[0..] == data;
    } else {
      BlockSplits(f, data, k - 1);
      var rest := data[10 * (k - 1)..];
      assert rest[..10] == UnitAt(data, k - 1) && rest[10..] == data[10 * k..];
    }
  }

  function BlockFrames(d: Devices, taskId: int, duration: int, data: seq<byte>): seq<Frame> {
    Blocks(Decoder(d, taskId, duration), data)
  }

  /** Each unit makes at most one frame, and a frame's second byte is its length. */
  lemma UnitIsWellFormed(d: Devices, taskId: int, duration: int, u: Unit)
    ensures var fs := UnitFrames(d, taskId, duration, u);
      |fs| <= 1 && (fs != [] ==> |fs[0].bytes| == fs[0].bytes[1] && |fs[0].bytes| in {4, 5, 8})
  {
  }

  lemma {:induction false} BlockIsWellFormed(d: Devices, taskId: int, duration: int, data: seq<byte>)
    ensures var fs := BlockFrames(d, taskId, duration, data);
      && 10 * |fs| <= |data|
      && forall i :: 0 <= i < |fs| ==> |fs[i].bytes| in {4, 5, 8} && |fs[i].bytes| == fs[i].bytes[1]
    decreases |data|
  {
    if |data| >= 10 {
      UnitIsWellFormed(d, taskId, duration, data[..10]);
      BlockIsWellFormed(d, taskId, duration, data[10..]);
    }
  }

  /** The distance that a frame of the trajectory controller tells it, and in which direction. */
  function FrameDistance(bytes: seq<byte>): int
    requires |bytes| == 8
  {
    var value := bytes[4] as int + 0x100 * bytes[5] as int;
    if bytes[3] == 1 then value else -value
  }

  /** A unit for the trajectory controller makes a frame if and only if its distance is not zero;
      the frame keeps direction, and distance and speed too if and only if it is not one of the two
      kinds whose frames have no room for them. One kind of unit stops the wheels instead. */
  lemma DistanceIsKept(d: Devices, taskId: int, duration: int, u: Unit)
    requires u[3] != RESET && u[3] != STOP && d.board(u[3]) == d.trajectory > 0
    ensures var fs := UnitFrames(d, taskId, duration, u);
      && |fs| == (if u[4] == 0 && u[5] == 0 then 0 else 1)
      && (fs != [] && u[3] == STOP_MOVING ==> fs == StopMovingFrames(d))
      && (fs != [] && u[3] != STOP_MOVING ==>
           var b := fs[0].bytes;
           && fs[0].Frame? && fs[0].board == d.trajectory && b[0] == d.motor(u[3]) && b[2] == LowByte(taskId)
           && (b[3] == 1 <==> u[8] != 0)
           && (|b| == 8 <==> u[3] != 0x32 && u[3] != 0x34)
           && (|b| == 8 ==> FrameDistance(b) == Distance(u) && b[6] == u[7]))
  {
    if u[4] != 0 || u[5] != 0 {
      var v := u[4] as int + 0x100 * u[5] as int;
      assert LowByte(v) == u[4] && LowByte(v / 0x100) == u[5];
    }
  }

  /** A unit whose frame carries the task id of its command, and so can be replied to. */
  predicate Answerable(d: Devices, u: Unit) {
    && u[3] != RESET && u[3] != STOP && d.board(u[3]) > 0
    && (d.board(u[3]) == d.trajectory ==> Distance(u) != 0 && u[3] != STOP_MOVING)
  }

  /** How many of the frames carry a task id. */
  function Carrying(fs: seq<Frame>, taskId: int): nat {
    if fs == [] then 0
    else Carrying(fs[1..], taskId) + if |fs[0].bytes| > 2 && fs[0].bytes[2] == taskId then 1 else 0
  }

  lemma UnitCarries(d: Devices, taskId: int, duration: int, u: Unit)
    requires 1 <= taskId <= 251
    ensures |UnitFrames(d, taskId, duration, u)| <= 1
    ensures Carrying(UnitFrames(d, taskId, duration, u), taskId) == if Answerable(d, u) then 1 else 0
  {
    var fs := UnitFrames(d, taskId, duration, u);
    assert LowByte(taskId) == taskId;
    if fs != [] { assert fs[1..] == []; }
  }

  /** A scheduled block expects as many replies as it has units; the frames that can be replied to
      are that many if and only if every unit is answerable. With one reply to a frame, any
      other block ends by a timeout, a failure or a cancellation. */
  lemma {:induction false} RepliesReachCount(d: Devices, taskId: int, duration: int, data: seq<byte>, m: nat)
    requires 1 <= taskId <= 251 && |data| == 10 * m
    ensures var c := Carrying(BlockFrames(d, taskId, duration, data), taskId);
      c <= m && (c == m <==> forall k :: 0 <= k < m ==> Answerable(d, UnitAt(data, k)))
    decreases m
  {
    if m > 0 {
      var u, rest := data[..10], data[10..];
      assert u == UnitAt(data, 0);
      assert forall k :: 0 <= k < m - 1 ==> UnitAt(rest, k) == UnitAt(data, k + 1);
      RepliesReachCount(d, taskId, duration, rest, m - 1);
      UnitCarries(d, taskId, duration, u);
      var fs := UnitFrames(d, taskId, duration, u);
      var gs := BlockFrames(d, taskId, duration, rest);
      if fs == [] { assert fs + gs == gs; } else { assert (fs + gs)[1..] == gs && (fs + gs)[0] == fs[0]; }
      assert forall k :: 0 < k < m ==> UnitAt(rest, k - 1) == UnitAt(data, k);
    }
  }

  /** A unit that calls stopMotion, which takes the lock that a scheduler holds while it sends. */
  predicate StopsMoving(d: Devices, u: Unit) {
    u[3] == STOP_MOVING && d.board(STOP_MOVING) == d.trajectory > 0 && Distance(u) != 0
  }

  ghost predicate Sendable(d: Devices, data: seq<byte>) {
    forall k :: 0 <= k && 10 * (k + 1) <= |data| ==> !StopsMoving(d, UnitAt(data, k))
  }

  /** C's division by 100, which rounds towards zero. */
  function Tenths(duration: int): int {
    if duration >= 0 then duration / 100 else -(-duration / 100)
  }

  /** The branch of Send for a command without a data block: one joint, an angle in 16 bits, and two
      bits of the flags. */
  function JointFrames(d: Devices, taskId: int, duration: int, coId: byte, angle: int, flags: int): seq<Frame> {
    var ang := angle % 0x1_0000;
    if d.board(coId) < 0 then []
    else
      [Frame(d.board(coId),
             [d.runMotor, 8, LowByte(taskId), d.motor(coId), ang % 0x100, ang / 0x100, flags % 4,
              LowByte(Tenths(duration))])]
  }

  /** What a player or service that runs a data block directly gets back. */
  function RunCode(session: int, data: seq<byte>): int {
    if |data| % 10 != 0 then -1 else session
  }

  /** A command that moves motors, with its data block. */
  class MotorMotion {
    const devices: Devices
    const session: int
    var taskId: int
    var coId: byte
    var cmdCount: int
    var angle: int
    var flags: int
    var duration: int
    var dataSize: nat
    var dataCap: nat
    var pData: array?<byte>
    /** The calls of sendCommand, in order. */
    var sent: seq<Frame>

    ghost predicate Valid()
      reads this`dataSize, this`dataCap, this`pData
    {
      dataSize <= dataCap && (dataCap > 0 ==> pData != null && pData.Length == dataCap)
    }

    ghost function Data(): seq<byte>
      requires Valid()
      reads this`dataSize, this`dataCap, this`pData, pData
    {
      if pData == null then [] else pData[..dataSize]
    }

    /** The object as the scheduler sees it; what this class does not use is taken from c. */
    ghost function View(c: Commands.Command): Commands.Command
      requires Valid()
      reads this, pData
    {
      c.(kind := Commands.Motor(Data()), taskId := taskId, coId := coId, replies := cmdCount, flags := flags)
    }

    /** What Send gives to the bus. */
    ghost function Output(): seq<Frame>
      requires Valid()
      reads this, pData
    {
      if dataSize == 0 then JointFrames(devices, taskId, duration, coId, angle, flags)
      else if dataSize % 10 != 0 then []
      else BlockFrames(devices, taskId, duration, Data())
    }

    /** The angle of a new object has not been set. */
    constructor (devices: Devices, session: int, angle: int)
      ensures Valid() && taskId == 0xFF && cmdCount == 1 && dataSize == 0 && sent == []
    {
      this.devices, this.session, this.angle, flags := devices, session, angle, 0;
      taskId, coId, cmdCount, duration, dataSize, dataCap, pData, sent := 0xFF, 0, 1, 0, 0, 0, null, [];
    }

    method SendPosition(distance: int, speed: byte)
      modifies this`sent
      ensures sent == old(sent) + PositionFrames(devices, taskId, coId, distance, speed)
    {
      if distance == 0 { return; }
      if coId == STOP_MOVING {
        sent := sent + StopMovingFrames(devices);
        return;
      }
      var val := if distance < 0 then -distance else distance;
      var len := if coId == 0x32 || coId == 0x34 then 4 else 8;
      var streams := [devices.motor(coId), len, LowByte(taskId), if distance > 0 then 1 else 0,
                      LowByte(val), LowByte(val / 0x100), speed, 0];
      sent := sent + [Frame(devices.board(coId), streams[..len])];
    }

    /** The branch of Send for a motor, from the bytes at i on. */
    method SendMotor(i: nat, board: int)
      requires Valid() && i + 4 <= dataSize
      modifies this`sent
      ensures var b := Data()[i..i + 4];
        sent == old(sent) + [MotorFrame(devices, taskId, duration, coId, board, b[0], b[1], b[2], b[3])]
    {
      var val: int := pData[i + 3];
      if val <= 0 || val > 100 { val := (if duration < 100 then 100 else duration) / 100; }
      if duration > 0 { val := duration / 100; }
      var streams := [devices.runMotor, 8, LowByte(taskId), devices.motor(coId),
                      pData[i], pData[i + 1], pData[i + 2], LowByte(val)];
      sent := sent + [Frame(board, streams)];
    }

    ghost predicate Decodes(f: Unit -> seq<Frame>)
      reads this`taskId, this`duration
    {
      forall u: Unit {:trigger UnitFrames(devices, taskId, duration, u)} ::
        f(u) == UnitFrames(devices, taskId, duration, u)
    }

    /** The body of Send's loop. */
    method SendUnit(start: nat, ghost f: Unit -> seq<Frame>) returns (i: nat)
      requires Valid() && Decodes(f) && start + 10 <= dataSize
      modifies this`sent, this`coId
      ensures i == start + 10 && coId == Data()[start + 3] && sent == old(sent) + f(Data()[start..start + 10])
    {
      ghost var u: Unit := Data()[start..start + 10];
      assert f(u) == UnitFrames(devices, taskId, duration, u);
      assert forall j :: 0 <= j < 10 ==> u[j] == pData[start + j];
      i := start + 3;
      coId := pData[i];
      i := i + 1;
      if coId == RESET {
        sent := sent + ResetFrames(devices, pData[i]);
        return i + 6;
      }
      if coId == STOP {
        sent := sent + StopFrames(devices);
        return i + 6;
      }
      var board := devices.board(coId);
      if board <= 0 { return i + 6; }
      if board == devices.trajectory {
        var value := pData[i] as int + 0x100 * pData[i + 1] as int;
        if pData[i + 4] == 0 { value := -value; }
        assert value == Distance(u);
        SendPosition(value, pData[i + 3]);
        return i + 6;
      }
      SendMotor(i, board);
      return i + 6;
    }

    /** The loop of Send over m units. */
    method SendUnits(ghost m: nat, ghost f: Unit -> seq<Frame>)
      requires Valid() && Decodes(f) && dataSize == 10 * m && m > 0
      modifies this`sent, this`coId
      ensures coId == Data()[dataSize - 7] && sent == old(sent) + FirstUnits(f, Data(), m)
    {
      ghost var data, k := Data(), 0;
      var i := 0;
      while i < dataSize
        invariant 0 <= k <= m && i == 10 * k
        invariant Data() == data && (i > 0 ==> coId == data[i - 7])
        invariant sent == old(sent) + FirstUnits(f, data, k)
      {
        assert UnitAt(data, k) == data[i..i + 10];
        i := SendUnit(i, f);
        k := k + 1;
      }
    }

    /** The branch of Send for one joint. */
    method SendJoint()
      modifies this`sent
      ensures sent == old(sent) + JointFrames(devices, taskId, duration, coId, angle, flags)
    {
      var board := devices.board(coId);
      if board < 0 { return; }
      var ang := angle % 0x1_0000;
      var streams := [devices.runMotor, 8, LowByte(taskId), devices.motor(coId), ang % 0x100, ang / 0x100,
                      flags % 4, LowByte(Tenths(duration))];
      sent := sent + [Frame(board, streams)];
    }

    /** The branch of Send for a whole number of units. */
    method SendBlock()
      requires Valid() && dataSize > 0 && dataSize % 10 == 0
      modifies this`sent, this`coId, this`cmdCount
      ensures cmdCount == dataSize / 10 && coId == Data()[dataSize - 7]
      ensures sent == old(sent) + BlockFrames(devices, taskId, duration, Data())
    {
      cmdCount := dataSize / 10;
      ghost var f := Decoder(devices, taskId, duration);
      BlockSplits(f, Data(), cmdCount);
      SendUnits(cmdCount, f);
    }

    /** Sends a data block, of which every unit is taken once and in order, or else one joint; the
        scheduler's view of the object changes as it does for any command. A unit that calls
        stopMotion must not be sent by the scheduler, which holds the lock. */
    method Send(ghost c: Commands.Command) returns (rc: int)
      requires Valid() && (taskId != DIRECT && dataSize % 10 == 0 ==> Sendable(devices, Data()))
      modifies this`sent, this`coId, this`cmdCount
      ensures sent == old(sent) + old(Output())
      ensures rc == if Commands.SendFails(old(View(c))) then -1 else 0
      ensures View(c) == if rc < 0 then old(View(c)) else Commands.Sent(old(View(c)))
    {
      if dataSize == 0 {
        SendJoint();
        return 0;
      }
      if dataSize % 10 != 0 { return -1; }
      SendBlock();
      return 0;
    }

    /** The part of Run that copies the data block. */
    method TakeBlock(pdata: array<byte>, len: nat, duration: int)
      requires Valid() && len <= pdata.Length && (pData != null ==> pdata != pData)
      modifies this`coId, this`duration, this`dataSize, this`dataCap, this`pData, pData
      ensures Valid() && Data() == old(pdata[..len]) == pdata[..len] && (pData == old(pData) || fresh(pData))
      ensures dataSize == len && coId == 0x2F && this.duration == duration
    {
      coId, dataSize := 0x2F, 0;
      if len > dataCap {
        pData := new byte[len];
        dataCap := len;
      }
      this.duration, dataSize := duration, len;
      forall k | 0 <= k < len {
        pData[k] := pdata[k];
      }
    }

    /** Run with a data block, which may be empty, on an object that nobody waits for, as the player
        has it. */
    method Run(pdata: array<byte>, len: nat, duration: int) returns (rc: int)
      requires Valid() && len <= pdata.Length && (pData != null ==> pdata != pData)
      modifies this`coId, this`duration, this`dataSize, this`dataCap, this`pData, this`taskId, this`cmdCount,
               this`sent, pData
      ensures Valid() && Data() == pdata[..len] && taskId == 0xFF
      ensures rc == RunCode(session, pdata[..len])
      ensures sent == old(sent) +
        if len == 0 then JointFrames(devices, 0xFF, duration, 0x2F, angle, flags)
        else if len % 10 == 0 then BlockFrames(devices, 0xFF, duration, pdata[..len])
        else []
    {
      hide JointFrames, BlockFrames;
      TakeBlock(pdata, len, duration);
      taskId := 0xFF;
      ghost var c: Commands.Command :| true;
      var code := Send(c);
      rc := if code < 0 then code else session;
    }
  }
}
