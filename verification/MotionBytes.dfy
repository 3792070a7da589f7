/** Where the bytes of a motion file are and what they say (server/base/ArmFile.cpp:258-362): the header, and
    the frames of both versions. */
module MotionBytes {
  import opened Basics
  import opened ArmFiles
  import opened MotionFiles

  /** Two bytes, the low one first, as a signed number. */
  function Signed16(s: seq<byte>, i: nat): int
    requires i + 2 <= |s|
  {
    s[i] as int + 0x100 * s[i + 1] as int - if s[i + 1] >= 0x80 then 0x1_0000 else 0
  }

  function Signed32(s: seq<byte>, i: nat): int
    requires i + 4 <= |s|
  {
    s[i] as int + 0x100 * s[i + 1] as int + 0x1_0000 * s[i + 2] as int + 0x100_0000 * s[i + 3] as int
    - if s[i + 3] >= 0x80 then 0x1_0000_0000 else 0
  }

  lemma ShortAt(s: seq<byte>, i: nat)
    requires i + 2 <= |s|
    ensures Short(s[i..]) == (Signed16(s, i), s[i + 2..])
  {
    assert s[i..][2..] == s[i + 2..];
    var b := s[i..][..2];
    assert b[0] == s[i] && b[1] == s[i + 1];
  }

  lemma WordAt(s: seq<byte>, i: nat)
    requires i + 4 <= |s|
    ensures Word(s[i..]) == (Signed32(s, i), s[i + 4..])
  {
    assert s[i..][4..] == s[i + 4..];
    var b := s[i..][..4];
    assert b[0] == s[i] && b[1] == s[i + 1] && b[2] == s[i + 2] && b[3] == s[i + 3];
  }

  lemma OctetAt(s: seq<byte>, i: nat)
    requires i + 1 <= |s|
    ensures Octet(s[i..]) == (s[i], s[i + 1..])
  {
    assert s[i..][1..] == s[i + 1..];
  }

  // ---- frames ----

  /** The count of commands of a frame. */
  function CountOf(s: seq<byte>, version: int): int
    requires |s| >= 12
  {
    if version >= 0x1606 then Signed16(s, 8) else Signed32(s, 8)
  }

  /** How long it lasts, and how long its motors take. */
  function DurationOf(s: seq<byte>, version: int): int
    requires |s| >= 12
  {
    if version >= 0x1606 then Signed16(s, 4) else Signed32(s, 4)
  }

  function RunTimeOf(s: seq<byte>, version: int): int
    requires |s| >= 12
  {
    if version >= 0x1606 then Signed16(s, 6) else Signed32(s, 4)
  }

  lemma HeadIsRead(s: seq<byte>, version: int)
    requires |s| >= 12
    ensures ReadHead(s[4..], version)
         == (Head(DurationOf(s, version), RunTimeOf(s, version), CountOf(s, version)), s[12..])
  {
    if version >= MODERN {
      ShortAt(s, 4);
      ShortAt(s, 6);
      ShortAt(s, 8);
      ShortAt(s, 10);
    } else {
      WordAt(s, 4);
      WordAt(s, 8);
    }
    hide Short, Word, Signed16, Signed32;
  }

  /** A frame that begins with twelve bytes: it is read if they begin with the mark and the ten bytes for each of its
      commands follow; a frame without a duration, or in a file with a constant rate, lasts the frame time. */
  lemma FrameIsRead(s: seq<byte>, f: Format, prev: Option<Frame>)
    requires |s| >= 12 && 10 * CountOf(s, f.version) < 0x8000_0000
    ensures var n, d := CountOf(s, f.version), DurationOf(s, f.version); var e := ReadEntry(s, f, prev);
      && (e.Got? <==> s[0] == 0x46 && s[1] == 0x52 && s[2] == 0x41 && s[3] == 0x4D && 12 + 10 * n <= |s|)
      && (e.Got? ==>
           && e.frame.runTime == RunTimeOf(s, f.version)
           && e.frame.duration == (if d == 0 || f.frameType == 1 then f.frameTime else d)
           && (if n <= 0 then e.frame.commands.None? && e.rest == s[12..]
               else e.frame.commands == Some(s[12..12 + 10 * n]) && e.rest == s[12 + 10 * n..]))
  {
    var n := CountOf(s, f.version);
    HeadIsRead(s, f.version);
    hide ReadHead, CountOf, DurationOf, RunTimeOf;
    assert s[..4] == MARK <==> s[0] == 0x46 && s[1] == 0x52 && s[2] == 0x41 && s[3] == 0x4D;
    if n > 0 {
      LengthIsTenfoldIff(n);
      hide Wrap32;
      if 12 + 10 * n <= |s| {
        assert s[12..][..10 * n] == s[12..12 + 10 * n] && s[12..][10 * n..] == s[12 + 10 * n..];
      }
    }
  }

  // ---- the header ----

  /** Four bytes of start code, version, size, 255 bytes that are skipped, frame time, number of frames, duration,
      kind of rate and rhythm; the frames follow. */
  lemma HeaderIsRead(s: seq<byte>)
    requires |s| >= 275
    ensures VersionOf(s) == Signed16(s, 4)
    ensures OpeningOf(s) == Opening(Signed16(s, 265), Signed32(s, 267), Signed16(s, 271), s[273], s[274], s[275..])
  {
    ShortAt(s, 4);
    WordAt(s, 6);
    assert s[10..][255..] == s[265..];
    ShortAt(s, 265);
    WordAt(s, 267);
    ShortAt(s, 271);
    OctetAt(s, 273);
    OctetAt(s, 274);
    hide Short, Word, Octet, Signed16, Signed32;
  }

  /** Whether the file is loaded, and what it says of the movie as a whole. */
  lemma FileIsRead(s: seq<byte>)
    requires |s| >= 275
    ensures Load(s) != Nothing <==>
      && s[0] == 0x50 && s[1] == 0x95 && s[2] == 0x28 && s[3] == 0x00
      && Signed32(s, 6) == |s| && Signed32(s, 267) != 0
    ensures Load(s).Loaded? ==>
      var m := Load(s).movie;
      && m.frameTime == Signed16(s, 265) && m.duration == Signed16(s, 271) && m.frameType == s[273]
      && m.rhythm == (if Signed16(s, 4) >= 0x1606 then s[274] else 2)
  {
    HeaderIsRead(s);
    ShortAt(s, 4);
    WordAt(s, 6);
    assert s[..4] == START <==> s[0] == 0x50 && s[1] == 0x95 && s[2] == 0x28 && s[3] == 0x00;
    hide Short, Word, Octet, Signed16, Signed32, ReadFrames, ReadOpening;
  }
}
