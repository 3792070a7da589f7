/** What the frames of a data block's units say, byte by byte (server/base/CommandObject.cpp:286-377, 471-578,
    684-735): angles, distances, speeds, flags and times get through, in the units' own terms. */
module UnitFields {
  import opened Basics
  import opened Motors
  import Commands

  /** The low eight bits. */
  function Low8(x: int): byte {
    x % 256
  }

  /** A unit for a motor: one frame to its board, with its angle, its flags and the time to take. */
  lemma MotorUnit(d: Devices, taskId: int, duration: int, u: Unit)
    requires u[3] != 0x3E && u[3] != 0x3F && d.board(u[3]) > 0 && d.board(u[3]) != d.trajectory
    ensures var fs := UnitFrames(d, taskId, duration, u);
      && |fs| == 1 && fs[0].Frame? && fs[0].board == d.board(u[3]) && |fs[0].bytes| == 8
      && var b := fs[0].bytes;
        && b[0] == d.runMotor && b[1] == 8 && b[2] == Low8(taskId) && b[3] == d.motor(u[3])
        && b[4] as int + 0x100 * b[5] as int == u[4] as int + 0x100 * u[5] as int && b[6] == u[6]
        && (duration > 0 ==> b[7] == Low8(duration / 100))
        && (duration <= 0 && 1 <= u[7] <= 100 ==> b[7] == u[7])
        && (duration <= 0 && !(1 <= u[7] <= 100) ==> b[7] == 1)
  {
  }

  /** A unit for the wheels: none without a distance; the stop, which ends all position commands; or a frame with
      direction, distance and speed, or direction alone for walks through a maze and strolls. */
  lemma PositionUnit(d: Devices, taskId: int, duration: int, u: Unit)
    requires u[3] != 0x3E && u[3] != 0x3F && d.board(u[3]) > 0 && d.board(u[3]) == d.trajectory
    ensures var fs := UnitFrames(d, taskId, duration, u);
      if u[4] == 0 && u[5] == 0 then fs == []
      else if u[3] == 0x33 then
        |fs| == 1 && fs[0].StopPositions? && fs[0].board == d.board(0x3F)
        && fs[0].bytes == [d.motor(0x3F), 5, 0xFF, 4, 0]
      else
        && |fs| == 1 && fs[0].Frame? && fs[0].board == d.trajectory
        && var b := fs[0].bytes;
          && |b| == (if u[3] == 0x32 || u[3] == 0x34 then 4 else 8)
          && b[0] == d.motor(u[3]) && b[1] == |b| && b[2] == Low8(taskId) && b[3] == (if u[8] != 0 then 1 else 0)
          && (|b| == 8 ==> b[4] == u[4] && b[5] == u[5] && b[6] == u[7] && b[7] == 0)
  {
    var v := u[4] as int + 0x100 * u[5] as int;
    assert v % 256 == u[4] && v / 256 % 256 == u[5];
  }

  /** The other units: a reset of a part of the body, or of the face, a stop of all, and nothing at all for a
      device without a board. */
  lemma OtherUnit(d: Devices, taskId: int, duration: int, u: Unit)
    requires u[3] == 0x3E || u[3] == 0x3F || d.board(u[3]) <= 0
    ensures var fs := UnitFrames(d, taskId, duration, u);
      if u[3] == 0x3E && u[4] != 0x08 then fs == [Frame(d.board(0x3E), [d.motor(0x3E), 5, 0xFF, d.part(u[4]), 1])]
      else if u[3] == 0x3E && d.board(0x35) > 0 then
        fs == [Frame(d.board(0x35), [d.motor(0x35), 4, 0xFF, d.emoji(d.emoji(0x02))])]
      else if u[3] == 0x3F then fs == [Frame(d.board(0x3F), [d.motor(0x3F), 5, 0xFF, d.part(0), 0])]
      else fs == []
  {
  }

  /** Division by 100 towards zero. */
  predicate IsTenths(t: int, duration: int) {
    if duration >= 0 then 100 * t <= duration < 100 * t + 100 else 100 * t - 100 < duration <= 100 * t
  }

  /** A command without a data block: one frame for the joint, with sixteen bits of the angle, two bits of the
      flags and the time. */
  lemma JointCommand(d: Devices, taskId: int, duration: int, coId: byte, angle: int, flags: int)
    ensures var fs := JointFrames(d, taskId, duration, coId, angle, flags);
      if d.board(coId) < 0 then fs == []
      else
        && |fs| == 1 && fs[0].Frame? && fs[0].board == d.board(coId) && |fs[0].bytes| == 8
        && var b := fs[0].bytes;
          && b[0] == d.runMotor && b[1] == 8 && b[2] == Low8(taskId) && b[3] == d.motor(coId)
          && b[4] as int + 0x100 * b[5] as int == angle % 0x1_0000 && b[6] == flags % 4
          && exists t :: IsTenths(t, duration) && b[7] == Low8(t)
  {
    assert IsTenths(Tenths(duration), duration);
  }

  // ---- the block as a whole ----

  /** The frames of a block of m units are those of its units, one after the other: those of the k-th are found
      behind those of the ones before it. */
  lemma {:induction false} UnitIsFound(d: Devices, taskId: int, duration: int, data: seq<byte>, k: nat)
    requires 10 * (k + 1) <= |data|
    ensures var fs := BlockFrames(d, taskId, duration, data);
      var own := UnitFrames(d, taskId, duration, data[10 * k..10 * k + 10]);
      var at := |BlockFrames(d, taskId, duration, data[..10 * k])|;
      at + |own| <= |fs| && fs[at..at + |own|] == own
    decreases k
  {
    hide UnitFrames;
    var f := Decoder(d, taskId, duration);
    if k == 0 {
      assert data[..10] == data[0..10];
      assert (f(data[..10]) + Blocks(f, data[10..]))[..|f(data[..10])|] == f(data[..10]);
    } else {
      var rest := data[10..];
      UnitIsFound(d, taskId, duration, rest, k - 1);
      assert rest[10 * (k - 1)..10 * (k - 1) + 10] == data[10 * k..10 * k + 10];
      assert data[..10 * k][..10] == data[..10] && data[..10 * k][10..] == rest[..10 * (k - 1)];
      var first := f(data[..10]);
      var at := |Blocks(f, rest[..10 * (k - 1)])|;
      var own := UnitFrames(d, taskId, duration, data[10 * k..10 * k + 10]);
      assert (first + Blocks(f, rest))[|first| + at..|first| + at + |own|] == Blocks(f, rest)[at..at + |own|];
    }
  }
}
