/** A writer of motion files, and the proof that the loader (server/base/ArmFile.cpp) reads back
    what it writes, in both versions of the format. */
module MotionWriters {
  import opened Basics
  import opened ArmFiles
  import opened MotionFiles

  predicate Fits16(x: int) {
    -0x8000 <= x < 0x8000
  }

  predicate Fits32(x: int) {
    -0x8000_0000 <= x < 0x8000_0000
  }

  function Le16(x: int): seq<byte>
    requires Fits16(x)
  {
    var u := if x < 0 then x + 0x1_0000 else x;
    [u % 0x100, u / 0x100]
  }

  function CommandsOf(f: Frame): seq<byte> {
    if f.commands.Some? then f.commands.value else []
  }

  function Actions(f: Frame): nat {
    |CommandsOf(f)| / 10
  }

  /** An old head has no run time of its own. */
  function HeadOf(version: int, f: Frame): Head {
    Head(if version >= MODERN then f.duration else f.runTime, f.runTime, Actions(f))
  }

  /** The frame can be written so that it is read back. */
  predicate FrameWritable(f: Format, frame: Frame) {
    && DurationIn(f, HeadOf(f.version, frame)) == frame.duration
    && WholeCommands(frame)
    && if f.version >= MODERN then Fits16(frame.duration) && Fits16(frame.runTime) && Fits16(Actions(frame))
       else Fits32(frame.runTime) && Actions(frame) <= 214748364
  }

  /** The writers put their bytes in front of those that follow. */
  function WriteHead(version: int, h: Head, tail: seq<byte>): seq<byte>
    requires if version >= MODERN then Fits16(h.duration) && Fits16(h.runTime) && Fits16(h.actions)
             else Fits32(h.duration) && Fits32(h.actions)
  {
    if version >= MODERN then Le16(h.duration) + (Le16(h.runTime) + (Le16(h.actions) + (Le16(0) + tail)))
    else Le32(h.duration) + (Le32(h.actions) + tail)
  }

  function WriteFrame(f: Format, frame: Frame, tail: seq<byte>): seq<byte>
    requires FrameWritable(f, frame)
  {
    MARK + WriteHead(f.version, HeadOf(f.version, frame), CommandsOf(frame) + tail)
  }

  function WriteFrames(f: Format, frames: seq<Frame>): seq<byte>
    requires forall k :: 0 <= k < |frames| ==> FrameWritable(f, frames[k])
  {
    if frames == [] then [] else WriteFrame(f, frames[0], WriteFrames(f, frames[1..]))
  }

  function FormatOf(version: int, m: Movie): Format {
    Format(version, m.frameType, m.frameTime)
  }

  predicate MovieWritable(version: int, m: Movie, frames: seq<Frame>) {
    && Fits16(version) && Fits16(m.frameTime) && Fits16(m.duration)
    && 0 <= m.frameType < 0x100 && 0 <= m.rhythm < 0x100 && (version < MODERN ==> m.rhythm == 2)
    && 0 < |frames| < 0x8000_0000 && m.frames == Padded(frames, |frames|)
    && (forall k :: 0 <= k < |frames| ==> FrameWritable(FormatOf(version, m), frames[k]))
    && (forall k :: 0 <= k < |frames| ==> StartsOnSum(frames, k))
    && 275 + |WriteFrames(FormatOf(version, m), frames)| < 0x8000_0000
  }

  function WriteMovie(version: int, m: Movie, frames: seq<Frame>): seq<byte>
    requires MovieWritable(version, m, frames)
  {
    var body := WriteFrames(FormatOf(version, m), frames);
    START + (Le16(version) + (Le32(275 + |body|) + (seq(RESERVED, _ => 0) +
      (Le16(m.frameTime) + (Le32(|frames|) + (Le16(m.duration) + ([m.frameType] + ([m.rhythm] + body))))))))
  }

  lemma TakeFront(a: seq<byte>, tail: seq<byte>)
    ensures Take(a + tail, |a|) == (Some(a), tail)
  {
    assert (a + tail)[..|a|] == a && (a + tail)[|a|..] == tail;
  }

  lemma ShortFront(x: int, tail: seq<byte>)
    requires Fits16(x)
    ensures Short(Le16(x) + tail) == (x, tail)
  {
    TakeFront(Le16(x), tail);
  }

  lemma WordFront(x: int32, tail: seq<byte>)
    ensures Word(Le32(x) + tail) == (x, tail)
  {
    TakeFront(Le32(x), tail);
    Le32RoundTrip(x);
  }

  lemma HeadRoundTrip(version: int, h: Head, tail: seq<byte>)
    requires if version >= MODERN then Fits16(h.duration) && Fits16(h.runTime) && Fits16(h.actions)
             else Fits32(h.duration) && Fits32(h.actions) && h.runTime == h.duration
    ensures ReadHead(WriteHead(version, h, tail), version) == (h, tail)
  {
    if version >= MODERN {
      ShortFront(h.duration, Le16(h.runTime) + (Le16(h.actions) + (Le16(0) + tail)));
      ShortFront(h.runTime, Le16(h.actions) + (Le16(0) + tail));
      ShortFront(h.actions, Le16(0) + tail);
      ShortFront(0, tail);
    } else {
      WordFront(h.duration, Le32(h.actions) + tail);
      WordFront(h.actions, tail);
    }
  }

  lemma CommandsRoundTrip(f: Format, frame: Frame, tail: seq<byte>)
    requires WholeCommands(frame) && Actions(frame) <= 214748364
    ensures var h := HeadOf(f.version, frame);
      WithCommands(h, frame.duration, frame.timePosition, CommandsOf(frame) + tail) == Got(frame, tail)
  {
    TakeFront(CommandsOf(frame), tail);
    if frame.commands.None? {
      assert CommandsOf(frame) + tail == tail;
    } else {
      assert 10 * Actions(frame) == |frame.commands.value|;
      WrapIsIdentityIff(10 * Actions(frame));
    }
  }

  lemma EntryRoundTrip(f: Format, frame: Frame, prev: Option<Frame>, tail: seq<byte>)
    requires FrameWritable(f, frame) && frame.timePosition == EndOf(prev)
    ensures ReadEntry(WriteFrame(f, frame, tail), f, prev) == Got(frame, tail)
  {
    var h := HeadOf(f.version, frame);
    TakeFront(MARK, WriteHead(f.version, h, CommandsOf(frame) + tail));
    HeadRoundTrip(f.version, h, CommandsOf(frame) + tail);
    CommandsRoundTrip(f, frame, tail);
  }

  /** Each frame starts where the one before it ends. */
  predicate Chained(prev: Option<Frame>, frames: seq<Frame>)
    decreases |frames|
  {
    frames == [] || (frames[0].timePosition == EndOf(prev) && Chained(Some(frames[0]), frames[1..]))
  }

  lemma {:induction false} FollowersAreChained(frames: seq<Frame>, prev: Option<Frame>)
    requires forall k :: 0 <= k < |frames| ==> StartsAtEnd(prev, frames, k)
    ensures Chained(prev, frames)
    decreases |frames|
  {
    if frames != [] {
      assert StartsAtEnd(prev, frames, 0);
      forall k | 0 <= k < |frames| - 1 ensures StartsAtEnd(Some(frames[0]), frames[1..], k) {
        assert StartsAtEnd(prev, frames, k + 1);
      }
      FollowersAreChained(frames[1..], Some(frames[0]));
    }
  }

  lemma SumsAreChained(frames: seq<Frame>)
    requires forall k :: 0 <= k < |frames| ==> StartsOnSum(frames, k)
    ensures Chained(None, frames)
  {
    forall k | 0 <= k < |frames| ensures StartsAtEnd(None, frames, k) {
      assert StartsOnSum(frames, k) && (k > 0 ==> StartsOnSum(frames, k - 1));
      if k > 0 { WrapAdds(Durations(frames, k - 1), frames[k - 1].duration); }
    }
    FollowersAreChained(frames, None);
  }

  lemma {:induction false} FramesRoundTrip(f: Format, frames: seq<Frame>, prev: Option<Frame>)
    requires (forall k :: 0 <= k < |frames| ==> FrameWritable(f, frames[k])) && Chained(prev, frames)
    ensures ReadFrames(WriteFrames(f, frames), f, prev, |frames|) == (frames, false)
    decreases |frames|
  {
    if frames != [] {
      var tail := WriteFrames(f, frames[1..]);
      EntryRoundTrip(f, frames[0], prev, tail);
      FramesRoundTrip(f, frames[1..], Some(frames[0]));
      FirstFrame(WriteFrame(f, frames[0], tail), f, prev, |frames|, frames[0], tail);
      assert frames == [frames[0]] + frames[1..];
    }
  }

  lemma OpeningRoundTrip(m: Movie, count: int32, body: seq<byte>)
    requires Fits16(m.frameTime) && Fits16(m.duration) && 0 <= m.frameType < 0x100 && 0 <= m.rhythm < 0x100
    ensures ReadOpening(Le16(m.frameTime) + (Le32(count) + (Le16(m.duration) + ([m.frameType] + ([m.rhythm] + body)))))
            == Opening(m.frameTime, count, m.duration, m.frameType, m.rhythm, body)
  {
    ShortFront(m.frameTime, Le32(count) + (Le16(m.duration) + ([m.frameType] + ([m.rhythm] + body))));
    WordFront(count, Le16(m.duration) + ([m.frameType] + ([m.rhythm] + body)));
    ShortFront(m.duration, [m.frameType] + ([m.rhythm] + body));
    TakeFront([m.frameType], [m.rhythm] + body);
    TakeFront([m.rhythm], body);
  }

  lemma StartRoundTrip(version: int, size: int32, reserved: seq<byte>, tail: seq<byte>)
    requires Fits16(version) && |reserved| == RESERVED
    requires size == 265 + |tail|
    ensures Load(START + (Le16(version) + (Le32(size) + (reserved + tail)))) == LoadAfter(version, ReadOpening(tail))
  {
    TakeFront(START, Le16(version) + (Le32(size) + (reserved + tail)));
    ShortFront(version, Le32(size) + (reserved + tail));
    WordFront(size, reserved + tail);
    TakeFront(reserved, tail);
  }

  lemma FramesAfterOpening(version: int, o: Opening, frames: seq<Frame>)
    requires o.count > 0
    ensures var read := ReadFrames(o.rest, Format(version, o.frameType, o.frameTime), None, o.count);
      var rhythm := if version >= MODERN then o.rhythm else 2;
      read == (frames, false) ==>
        LoadAfter(version, o) == Loaded(Movie(o.frameTime, o.frameType, rhythm, o.duration, Padded(frames, o.count)))
  {
  }

  lemma BodyRoundTrip(version: int, m: Movie, frames: seq<Frame>)
    requires 0 < |frames| < 0x8000_0000 && (version < MODERN ==> m.rhythm == 2)
    requires m.frames == Padded(frames, |frames|)
    requires (forall k :: 0 <= k < |frames| ==> FrameWritable(FormatOf(version, m), frames[k])) && Chained(None, frames)
    ensures var body := WriteFrames(FormatOf(version, m), frames);
      LoadAfter(version, Opening(m.frameTime, |frames|, m.duration, m.frameType, m.rhythm, body)) == Loaded(m)
  {
    var body := WriteFrames(FormatOf(version, m), frames);
    FramesRoundTrip(FormatOf(version, m), frames, None);
    FramesAfterOpening(version, Opening(m.frameTime, |frames|, m.duration, m.frameType, m.rhythm, body), frames);
  }

  /** The loader gives back the movie that was written, with every start time. */
  lemma LoadsWhatIsWritten(version: int, m: Movie, frames: seq<Frame>)
    requires MovieWritable(version, m, frames)
    ensures Load(WriteMovie(version, m, frames)) == Loaded(m)
  {
    hide Load, LoadAfter, ReadOpening, WriteFrames, Chained, StartsOnSum;
    var body := WriteFrames(FormatOf(version, m), frames);
    var tail := Le16(m.frameTime) + (Le32(|frames|) + (Le16(m.duration) + ([m.frameType] + ([m.rhythm] + body))));
    StartRoundTrip(version, 275 + |body|, seq(RESERVED, _ => 0), tail);
    OpeningRoundTrip(m, |frames|, body);
    SumsAreChained(frames);
    BodyRoundTrip(version, m, frames);
  }

  // ---- files whose commands are not counted right ----

  /** An old file of one frame with this body. */
  function OldFile(body: seq<byte>): seq<byte>
    requires |body| < 0x1000
  {
    START + (Le16(0x1600) + (Le32(275 + |body|) + (seq(RESERVED, _ => 0) +
      (Le16(40) + (Le32(1) + (Le16(1) + ([0] + ([2] + body))))))))
  }

  /** A frame that claims `count` commands and has these bytes for them. */
  function OldBody(count: int32, commands: seq<byte>): seq<byte> {
    MARK + (Le32(100) + (Le32(count) + commands))
  }

  lemma OldFileLoads(body: seq<byte>)
    requires |body| < 0x1000
    ensures Load(OldFile(body)) == LoadAfter(0x1600, Opening(40, 1, 1, 0, 2, body))
  {
    StartRoundTrip(0x1600, 275 + |body|, seq(RESERVED, _ => 0),
                   Le16(40) + (Le32(1) + (Le16(1) + ([0] + ([2] + body)))));
    OpeningRoundTrip(Movie(40, 0, 2, 1, []), 1, body);
  }

  lemma OldEntry(count: int32, commands: seq<byte>)
    ensures ReadEntry(OldBody(count, commands), Format(0x1600, 0, 40), None)
         == WithCommands(Head(100, 100, count), 100, 0, commands)
  {
    TakeFront(MARK, Le32(100) + (Le32(count) + commands));
    WordFront(100, Le32(count) + commands);
    WordFront(count, commands);
  }

  lemma OneEntryOutcome(body: seq<byte>, e: Entry)
    requires e == ReadEntry(body, Format(0x1600, 0, 40), None)
    ensures LoadAfter(0x1600, Opening(40, 1, 1, 0, 2, body)) ==
      match e
      case Abort => Aborted
      case Broken => Loaded(Movie(40, 0, 2, 1, [None]))
      case Got(frame, _) => Loaded(Movie(40, 0, 2, 1, [Some(frame)]))
  {
    var fs := match e case Got(frame, _) => [frame] case _ => [];
    if e.Got? { FirstFrame(body, Format(0x1600, 0, 40), None, 1, e.frame, e.rest); }
    assert Padded(fs, 1) == [if e.Got? then Some(e.frame) else None];
  }

  lemma OldFileOutcome(body: seq<byte>, e: Entry)
    requires |body| < 0x1000 && e == ReadEntry(body, Format(0x1600, 0, 40), None)
    ensures e == Abort ==> Load(OldFile(body)) == Aborted
    ensures e.Got? ==> Load(OldFile(body)) == Loaded(Movie(40, 0, 2, 1, [Some(e.frame)]))
  {
    OldFileLoads(body);
    OneEntryOutcome(body, e);
  }

  /** A count whose length in 32 bits is not negative gives a list of that length. */
  lemma CutFile(count: int32, commands: seq<byte>)
    requires count > 0 && Wrap32(10 * count) == |commands| < 0x100
    ensures Load(OldFile(OldBody(count, commands)))
         == Loaded(Movie(40, 0, 2, 1, [Some(Frame(100, 100, 0, Some(commands)))]))
  {
    OldEntry(count, commands);
    assert commands[..|commands|] == commands;
    OldFileOutcome(OldBody(count, commands), Got(Frame(100, 100, 0, Some(commands)), []));
  }

  /** One whose length is negative ends the process. */
  lemma AbortingFile(count: int32, commands: seq<byte>)
    requires count > 0 && Wrap32(10 * count) < 0 && |commands| < 0x100
    ensures Load(OldFile(OldBody(count, commands))) == Aborted
  {
    OldEntry(count, commands);
    OldFileOutcome(OldBody(count, commands), Abort);
  }

  /** A file that claims 429496730 commands loads with a list of four bytes, and one that claims
      214748365 ends the process. */
  lemma SomeCountsGoWrong(commands: seq<byte>)
    requires |commands| == 4
    ensures Load(OldFile(OldBody(429496730, commands)))
         == Loaded(Movie(40, 0, 2, 1, [Some(Frame(100, 100, 0, Some(commands)))]))
    ensures Load(OldFile(OldBody(214748365, []))) == Aborted
  {
    CutFile(429496730, commands);
    AbortingFile(214748365, []);
  }
}
