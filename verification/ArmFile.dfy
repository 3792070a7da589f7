/** The loader of motion files from a stream (server/base/ArmFile.cpp), as a function from bytes to
    frames and as the reader and the loop that the source has. */
module ArmFiles {
  import opened Basics

  datatype Frame = Frame(runTime: int, duration: int, timePosition: int32, commands: Option<seq<byte>>)

  /** A loaded file; entries after a broken frame stay empty. */
  datatype Movie = Movie(
    frameTime: int,
    frameType: int,
    rhythm: int,
    duration: int,
    frames: seq<Option<Frame>>)

  /** No movie, a movie, or an allocation of negative size, which ends the process. */
  datatype Outcome = Nothing | Loaded(movie: Movie) | Aborted

  const START: seq<byte> := [0x50, 0x95, 0x28, 0x00]
  const MARK: seq<byte> := [0x46, 0x52, 0x41, 0x4D]
  const MODERN := 0x1606
  const RESERVED := 255

  /** The low 32 bits of x, read as signed. */
  function Wrap32(x: int): int32 {
    (x + 0x8000_0000) % 0x1_0000_0000 - 0x8000_0000
  }

  // ---- reading ----

  /** Read and ReadCommand: n bytes and what is left; too few bytes are used up all the same. */
  function Take(rest: seq<byte>, n: nat): (Option<seq<byte>>, seq<byte>) {
    if n <= |rest| then (Some(rest[..n]), rest[n..]) else (None, [])
  }

  function FromLe16(a: byte, b: byte): int {
    var u := a as int + 0x100 * b as int;
    if u >= 0x8000 then u - 0x1_0000 else u
  }

  /** ReadUInt16, whose result is signed. */
  function Short(rest: seq<byte>): (int, seq<byte>) {
    var (b, r) := Take(rest, 2);
    (if b.Some? then FromLe16(b.value[0], b.value[1]) else -1, r)
  }

  /** ReadUInt32, whose result is signed too. */
  function Word(rest: seq<byte>): (int, seq<byte>) {
    var (b, r) := Take(rest, 4);
    (if b.Some? then FromLe32(b.value[0], b.value[1], b.value[2], b.value[3]) else -1, r)
  }

  function Octet(rest: seq<byte>): (int, seq<byte>) {
    var (b, r) := Take(rest, 1);
    (if b.Some? then b.value[0] else -1, r)
  }

  /** What a frame needs to know of its file. */
  datatype Format = Format(version: int, frameType: int, frameTime: int)

  /** The numbers at the beginning of a frame. */
  datatype Head = Head(duration: int, runTime: int, actions: int)

  function ReadHead(rest: seq<byte>, version: int): (Head, seq<byte>) {
    if version >= MODERN then
      var (duration, r1) := Short(rest);
      var (runTime, r2) := Short(r1);
      var (actions, r3) := Short(r2);
      (Head(duration, runTime, actions), Short(r3).1)
    else
      var (duration, r1) := Word(rest);
      var (actions, r2) := Word(r1);
      (Head(duration, duration, actions), r2)
  }

  datatype Entry = Broken | Abort | Got(frame: Frame, rest: seq<byte>)

  function DurationIn(f: Format, h: Head): int {
    if h.duration == 0 || f.frameType == 1 then f.frameTime else h.duration
  }

  /** When the frame after this one starts. */
  function EndOf(prev: Option<Frame>): int32 {
    if prev.None? then 0 else Wrap32(prev.value.timePosition + prev.value.duration)
  }

  function WithCommands(h: Head, duration: int, start: int32, rest: seq<byte>): Entry {
    if h.actions <= 0 then Got(Frame(h.runTime, duration, start, None), rest)
    else
      var len := Wrap32(10 * h.actions);
      if len < 0 then Abort
      else
        var (commands, r) := Take(rest, len);
        if commands.None? then Broken else Got(Frame(h.runTime, duration, start, commands), r)
  }

  /** One frame. */
  function ReadEntry(rest: seq<byte>, f: Format, prev: Option<Frame>): Entry {
    var (mark, r1) := Take(rest, 4);
    if mark != Some(MARK) then Broken
    else
      var (h, r2) := ReadHead(r1, f.version);
      WithCommands(h, DurationIn(f, h), EndOf(prev), r2)
  }

  /** The frames up to the first broken one, at most n, and whether reading was aborted. */
  function ReadFrames(rest: seq<byte>, f: Format, prev: Option<Frame>, n: nat): (seq<Frame>, bool)
    decreases n
  {
    if n == 0 then ([], false)
    else
      match ReadEntry(rest, f, prev)
      case Broken => ([], false)
      case Abort => ([], true)
      case Got(frame, r) =>
        var (frames, aborted) := ReadFrames(r, f, Some(frame), n - 1);
        ([frame] + frames, aborted)
  }

  function Padded(frames: seq<Frame>, n: nat): seq<Option<Frame>> {
    seq(n, i requires 0 <= i < n => if i < |frames| then Some(frames[i]) else None)
  }

  /** The header after the reserved bytes. */
  datatype Opening = Opening(frameTime: int, count: int, duration: int, frameType: int, rhythm: int, rest: seq<byte>)

  function ReadOpening(rest: seq<byte>): Opening {
    var (frameTime, r1) := Short(rest);
    var (count, r2) := Word(r1);
    var (duration, r3) := Short(r2);
    var (frameType, r4) := Octet(r3);
    var (rhythm, r5) := Octet(r4);
    Opening(frameTime, count, duration, frameType, rhythm, r5)
  }

  function LoadAfter(version: int, o: Opening): Outcome {
    if o.count == 0 then Nothing
    else
      var n := Max(o.count, 0);
      var (frames, aborted) := ReadFrames(o.rest, Format(version, o.frameType, o.frameTime), None, n);
      if aborted then Aborted
      else
        Loaded(Movie(o.frameTime, o.frameType, if version >= MODERN then o.rhythm else 2, o.duration,
                     Padded(frames, n)))
  }

  /** LoadFrame. */
  function Load(s: seq<byte>): Outcome {
    var (start, r0) := Take(s, 4);
    if start != Some(START) then Nothing
    else
      var (version, r1) := Short(r0);
      var (size, r2) := Word(r1);
      if size != |s| then Nothing else LoadAfter(version, ReadOpening(Take(r2, RESERVED).1))
  }
}
