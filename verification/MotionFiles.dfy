/** What loading a motion file gives, and that it takes back what a writer of the format puts down
    (server/base/ArmFile.cpp). */
module MotionFiles {
  import opened Basics
  import opened ArmFiles

  // ---- the timeline ----

  function Durations(frames: seq<Frame>, k: nat): int
    requires k <= |frames|
  {
    if k == 0 then 0 else Durations(frames, k - 1) + frames[k - 1].duration
  }

  lemma WrapAdds(a: int, b: int)
    ensures Wrap32(Wrap32(a) + b) == Wrap32(a + b)
  {
  }

  lemma WrapIsIdentityIff(x: int)
    ensures Wrap32(x) == x <==> -0x8000_0000 <= x < 0x8000_0000
  {
  }

  /** The k-th frame starts where the one before it ends. */
  predicate StartsAtEnd(prev: Option<Frame>, frames: seq<Frame>, k: nat)
    requires k < |frames|
  {
    frames[k].timePosition == EndOf(if k == 0 then prev else Some(frames[k - 1]))
  }

  /** A frame starts after the sum of all earlier durations, as far as 32 bits hold it. */
  predicate StartsOnSum(frames: seq<Frame>, k: nat)
    requires k < |frames|
  {
    frames[k].timePosition == Wrap32(Durations(frames, k))
  }

  lemma FirstFrame(bytes: seq<byte>, f: Format, prev: Option<Frame>, n: nat, frame: Frame, tail: seq<byte>)
    requires n > 0 && ReadEntry(bytes, f, prev) == Got(frame, tail)
    ensures var (frames, aborted) := ReadFrames(tail, f, Some(frame), n - 1);
      ReadFrames(bytes, f, prev, n) == ([frame] + frames, aborted)
  {
    hide ReadEntry;
  }

  /** A frame starts where the one before it ends. */
  lemma EntryStarts(rest: seq<byte>, f: Format, prev: Option<Frame>)
    ensures ReadEntry(rest, f, prev).Got? ==> ReadEntry(rest, f, prev).frame.timePosition == EndOf(prev)
  {
    hide ReadHead, Wrap32, EndOf;
  }

  lemma {:induction false} FramesFollow(rest: seq<byte>, f: Format, prev: Option<Frame>, n: nat, k: nat)
    ensures var frames := ReadFrames(rest, f, prev, n).0; k < |frames| ==> StartsAtEnd(prev, frames, k)
    decreases n
  {
    var e := ReadEntry(rest, f, prev);
    EntryStarts(rest, f, prev);
    hide ReadEntry, EndOf;
    if n > 0 && e.Got? {
      FirstFrame(rest, f, prev, n, e.frame, e.rest);
      var tail := ReadFrames(e.rest, f, Some(e.frame), n - 1).0;
      if 0 < k <= |tail| {
        FramesFollow(e.rest, f, Some(e.frame), n - 1, k - 1);
        assert StartsAtEnd(Some(e.frame), tail, k - 1);
      }
    }
  }

  lemma {:induction false} EndsAreSums(frames: seq<Frame>, k: nat)
    requires k < |frames| && forall j :: 0 <= j <= k ==> StartsAtEnd(None, frames, j)
    ensures StartsOnSum(frames, k)
  {
    assert StartsAtEnd(None, frames, k);
    if k > 0 {
      EndsAreSums(frames, k - 1);
      WrapAdds(Durations(frames, k - 1), frames[k - 1].duration);
    }
  }

  /** Every frame that is read starts on the sum. */
  lemma {:induction false} StartsAreSums(rest: seq<byte>, f: Format, n: nat, k: nat)
    ensures var frames := ReadFrames(rest, f, None, n).0; k < |frames| ==> StartsOnSum(frames, k)
  {
    var frames := ReadFrames(rest, f, None, n).0;
    if k < |frames| {
      forall j | 0 <= j <= k ensures StartsAtEnd(None, frames, j) {
        FramesFollow(rest, f, None, n, j);
      }
      EndsAreSums(frames, k);
    }
  }

  // ---- the length of a command list ----

  lemma WrapMinus(x: int, wraps: int)
    requires -0x8000_0000 <= x - 0x1_0000_0000 * wraps < 0x8000_0000
    ensures Wrap32(x) == x - 0x1_0000_0000 * wraps
  {
  }

  /** A product past the bound wraps around up to five times. */
  lemma LongLengthWraps(actions: int32)
    requires actions > 214748364
    ensures var len := Wrap32(10 * actions); len < 0 || len % 10 != 0
  {
    hide Wrap32;
    var x := 10 * actions;
    if x < 0x1_8000_0000 { WrapMinus(x, 1); }
    else if x < 0x2_8000_0000 { WrapMinus(x, 2); }
    else if x < 0x3_8000_0000 { WrapMinus(x, 3); }
    else if x < 0x4_8000_0000 { WrapMinus(x, 4); }
    else { WrapMinus(x, 5); }
  }

  /** Ten bytes for each of `actions` commands, as a 32-bit product: it is ten times the number if
      and only if that is at most 214748364; a larger number gives a negative length or one that is
      not a multiple of ten. */
  lemma LengthIsTenfoldIff(actions: int32)
    requires actions > 0
    ensures var len := Wrap32(10 * actions);
      && (len == 10 * actions <==> actions <= 214748364)
      && (actions > 214748364 ==> len < 0 || len % 10 != 0)
  {
    hide Wrap32;
    if actions <= 214748364 { WrapMinus(10 * actions, 0); } else { LongLengthWraps(actions); }
  }

  // ---- what the frames take from the stream ----

  function CommandBytes(frames: seq<Frame>): nat {
    if frames == [] then 0
    else CommandBytes(frames[1..]) + if frames[0].commands.Some? then |frames[0].commands.value| else 0
  }

  /** The numbers of a frame take eight bytes, or all that is left; a count that is cut short or
      of a later version is one of 16 bits. */
  lemma HeadTakes(rest: seq<byte>, version: int)
    ensures var (h, r) := ReadHead(rest, version);
      && |r| == (if |rest| >= 8 then |rest| - 8 else 0)
      && -0x8000_0000 <= h.actions < 0x8000_0000
      && (version >= MODERN || |rest| < 8 ==> h.actions < 0x8000)
  {
  }

  /** The commands of a frame take what they need. */
  lemma CommandsTake(h: Head, duration: int, start: int32, rest: seq<byte>)
    requires -0x8000_0000 <= h.actions < 0x8000_0000 && WithCommands(h, duration, start, rest).Got?
    ensures var e := WithCommands(h, duration, start, rest);
      && (if e.frame.commands.Some? then |e.frame.commands.value| else 0) + |e.rest| == |rest|
      && (e.frame.commands.Some? <==> h.actions > 0)
      && (h.actions > 0 ==> |e.frame.commands.value| == Wrap32(10 * h.actions) > 0)
  {
    if h.actions > 0 {
      hide Wrap32;
      LengthIsTenfoldIff(h.actions);
    }
  }

  /** A frame takes its 12 bytes and its commands; only where the stream ends within those
      12 bytes is it shorter, and then the numbers it lacks are -1. */
  lemma EntryFits(rest: seq<byte>, f: Format, prev: Option<Frame>)
    requires ReadEntry(rest, f, prev).Got?
    ensures var e := ReadEntry(rest, f, prev);
      if |rest| >= 12 then
        12 + (if e.frame.commands.Some? then |e.frame.commands.value| else 0) + |e.rest| == |rest|
      else |rest| >= 4 && e.frame.commands == None && e.rest == []
  {
    hide ReadHead, WithCommands, Wrap32, EndOf, DurationIn;
    var (h, r) := ReadHead(rest[4..], f.version);
    HeadTakes(rest[4..], f.version);
    CommandsTake(h, DurationIn(f, h), EndOf(prev), r);
  }

  lemma FirstFits(frame: Frame, fs: seq<Frame>, left: nat, size: nat)
    requires fs != [] ==> 12 * |fs| - 8 + CommandBytes(fs) <= left
    requires if size >= 12 then
        12 + (if frame.commands.Some? then |frame.commands.value| else 0) + left == size
      else size >= 4 && frame.commands == None && left == 0
    ensures 12 * |[frame] + fs| - 8 + CommandBytes([frame] + fs) <= size
  {
    assert ([frame] + fs)[1..] == fs;
  }

  /** The frames that come out fit the stream, whatever number of frames its header promises. */
  lemma {:induction false} FramesFit(rest: seq<byte>, f: Format, prev: Option<Frame>, n: nat)
    ensures var fs := ReadFrames(rest, f, prev, n).0;
      |fs| <= n && (fs != [] ==> 12 * |fs| - 8 + CommandBytes(fs) <= |rest|)
    decreases n
  {
    hide ReadEntry;
    if n > 0 {
      match ReadEntry(rest, f, prev)
      case Got(frame, left) =>
        FramesFit(left, f, Some(frame), n - 1);
        FirstFrame(rest, f, prev, n, frame, left);
        EntryFits(rest, f, prev);
        FirstFits(frame, ReadFrames(left, f, Some(frame), n - 1).0, |left|, |rest|);
      case _ =>
    }
  }

  /** Reading a frame ends the process if and only if it is a complete head of an old file whose count
      of commands passes that bound and gives a negative length. */
  lemma EntryAbortsIff(rest: seq<byte>, f: Format, prev: Option<Frame>)
    ensures ReadEntry(rest, f, prev) == Abort <==>
      && |rest| >= 12 && rest[..4] == MARK && f.version < MODERN
      && var count := FromLe32(rest[8], rest[9], rest[10], rest[11]);
         count > 214748364 && Wrap32(10 * count) < 0
  {
    if |rest| >= 12 {
      assert rest[4..][4..][..4] == [rest[8], rest[9], rest[10], rest[11]];
      var count := FromLe32(rest[8], rest[9], rest[10], rest[11]);
      if count > 0 { LengthIsTenfoldIff(count); }
    }
  }

  lemma {:induction false} ModernNeverAborts(rest: seq<byte>, f: Format, prev: Option<Frame>, n: nat)
    requires f.version >= MODERN
    ensures !ReadFrames(rest, f, prev, n).1
    decreases n
  {
    hide ReadEntry;
    EntryAbortsIff(rest, f, prev);
    if n > 0 && ReadEntry(rest, f, prev).Got? {
      var e := ReadEntry(rest, f, prev);
      ModernNeverAborts(e.rest, f, Some(e.frame), n - 1);
    }
  }

  /** A frame's command list is a whole number of commands if and only if its count passes that
      test; modern files always do. */
  lemma CommandsAreWholeIff(rest: seq<byte>, f: Format, prev: Option<Frame>)
    requires ReadEntry(rest, f, prev).Got?
    ensures var h := ReadHead(rest[4..], f.version).0; var c := ReadEntry(rest, f, prev).frame.commands;
      && (c.Some? <==> h.actions > 0)
      && (c.Some? ==> |c.value| > 0)
      && (c.Some? ==> (|c.value| % 10 == 0 <==> h.actions <= 214748364))
      && (f.version >= MODERN ==> h.actions <= 214748364)
  {
    hide ReadHead, WithCommands, Wrap32, EndOf, DurationIn;
    var (h, r) := ReadHead(rest[4..], f.version);
    HeadTakes(rest[4..], f.version);
    CommandsTake(h, DurationIn(f, h), EndOf(prev), r);
    if h.actions > 0 { LengthIsTenfoldIff(h.actions); }
  }

  /** The commands of a frame are a whole number. */
  predicate WholeCommands(f: Frame) {
    f.commands.Some? ==> |f.commands.value| > 0 && |f.commands.value| % 10 == 0
  }

  lemma ModernEntryIsWhole(rest: seq<byte>, f: Format, prev: Option<Frame>)
    requires f.version >= MODERN && ReadEntry(rest, f, prev).Got?
    ensures WholeCommands(ReadEntry(rest, f, prev).frame)
  {
    CommandsAreWholeIff(rest, f, prev);
  }

  lemma {:induction false} ModernCommandsAreWhole(rest: seq<byte>, f: Format, prev: Option<Frame>, n: nat, k: nat)
    requires f.version >= MODERN && k < |ReadFrames(rest, f, prev, n).0|
    ensures WholeCommands(ReadFrames(rest, f, prev, n).0[k])
    decreases n
  {
    hide WholeCommands, ReadEntry;
    var e := ReadEntry(rest, f, prev);
    var tail := ReadFrames(e.rest, f, Some(e.frame), n - 1).0;
    FirstFrame(rest, f, prev, n, e.frame, e.rest);
    if k == 0 {
      ModernEntryIsWhole(rest, f, prev);
    } else {
      ModernCommandsAreWhole(e.rest, f, Some(e.frame), n - 1, k - 1);
      assert ([e.frame] + tail)[k] == tail[k - 1];
    }
  }

  // ---- the whole file ----

  /** The entries of a movie: frames from the front, then only empty ones; each frame starts after
      the durations before it, as far as 32 bits hold it. */
  ghost predicate Timeline(m: Movie, frames: seq<Frame>) {
    && |frames| <= |m.frames|
    && (forall i :: 0 <= i < |m.frames| ==> m.frames[i] == if i < |frames| then Some(frames[i]) else None)
    && (forall k :: 0 <= k < |frames| ==> StartsOnSum(frames, k))
  }

  /** The version and the numbers after it, as Load reads them. */
  function VersionOf(s: seq<byte>): int {
    Short(Take(s, 4).1).0
  }

  function OpeningOf(s: seq<byte>): Opening {
    ReadOpening(Take(Word(Short(Take(s, 4).1).1).1, RESERVED).1)
  }

  function FramesOf(s: seq<byte>): seq<Frame> {
    var o := OpeningOf(s);
    ReadFrames(o.rest, Format(VersionOf(s), o.frameType, o.frameTime), None, Max(o.count, 0)).0
  }

  /** Loader result. */
  lemma LoadedIsTimeline(s: seq<byte>)
    requires Load(s).Loaded?
    ensures var m := Load(s).movie;
      && Timeline(m, FramesOf(s))
      && |m.frames| == Max(OpeningOf(s).count, 0) && OpeningOf(s).count != 0
      && (FramesOf(s) != [] ==> 12 * |FramesOf(s)| + CommandBytes(FramesOf(s)) + 267 <= |s|)
      && (VersionOf(s) >= MODERN ==> forall k :: 0 <= k < |FramesOf(s)| ==> WholeCommands(FramesOf(s)[k]))
  {
    var o := OpeningOf(s);
    var f, n := Format(VersionOf(s), o.frameType, o.frameTime), Max(o.count, 0);
    FramesFit(o.rest, f, None, n);
    forall k | 0 <= k < |FramesOf(s)| ensures StartsOnSum(FramesOf(s), k) {
      StartsAreSums(o.rest, f, n, k);
    }
    if f.version >= MODERN {
      forall k | 0 <= k < |FramesOf(s)| ensures WholeCommands(FramesOf(s)[k]) {
        ModernCommandsAreWhole(o.rest, f, None, n, k);
      }
    }
  }

  /** Only an old file can end the process. */
  lemma AbortedIsOld(s: seq<byte>)
    requires Load(s) == Aborted
    ensures VersionOf(s) < MODERN
  {
    var o := OpeningOf(s);
    if VersionOf(s) >= MODERN {
      ModernNeverAborts(o.rest, Format(VersionOf(s), o.frameType, o.frameTime), None, Max(o.count, 0));
    }
  }

  /** A file is refused once a byte is missing from its end or has been added to it. */
  lemma LengthIsChecked(s: seq<byte>, t: seq<byte>)
    requires Load(s) != Nothing && |t| != |s| && (s <= t || t <= s)
    ensures Load(t) == Nothing
  {
    hide LoadAfter, ReadOpening, FromLe16;
    if |t| >= 10 {
      assert s[..10] == t[..10];
      assert s[4..][2..][..4] == s[6..10] && t[4..][2..][..4] == t[6..10];
      assert s[6..10] == s[..10][6..] && t[6..10] == t[..10][6..];
      assert Word(Short(Take(s, 4).1).1).0 == Word(Short(Take(t, 4).1).1).0;
    }
  }
}
