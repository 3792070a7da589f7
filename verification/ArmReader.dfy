/** The reader and the loading loop of server/base/ArmFile.cpp, proved against the functions on
    bytes. */
module ArmReaders {
  import opened Basics
  import opened ArmFiles
  import opened MotionFiles

  class BinaryReader {
    const pStream: array<byte>
    var fpos: nat
    var bytes: array<byte>

    ghost predicate Valid()
      reads this
    {
      fpos <= pStream.Length && bytes.Length >= 255 && bytes != pStream
    }

    /** What has not been read. */
    ghost function Rest(): seq<byte>
      requires Valid()
      reads this, pStream
    {
      pStream[fpos..]
    }

    constructor (stream: array<byte>)
      ensures Valid() && pStream == stream && fpos == 0 && fresh(bytes) && Rest() == stream[..]
    {
      pStream, fpos := stream, 0;
      bytes := new byte[255];
      new;
      assert stream[0..] == stream[..];
    }

    /** The loop that Read and ReadCommand share. */
    method Fill(buffer: array<byte>, len: nat) returns (num: nat)
      requires Valid() && len <= buffer.Length && buffer != pStream
      modifies this`fpos, buffer
      ensures Valid() && num <= len && (num == len <==> len <= |old(Rest())|)
      ensures Rest() == Take(old(Rest()), len).1
      ensures num == len ==> Some(buffer[..len]) == Take(old(Rest()), len).0
    {
      ghost var start := fpos;
      num := 0;
      while num < len && fpos < pStream.Length
        invariant 0 <= num <= len && fpos == start + num <= pStream.Length
        invariant buffer[..num] == pStream[start..fpos]
      {
        buffer[num] := pStream[fpos];
        fpos := fpos + 1;
        num := num + 1;
      }
      assert pStream[start..][..num] == pStream[start..fpos] && pStream[start..][num..] == pStream[fpos..];
    }

    /** Whether `bytes` holds the next `len` bytes now. */
    method Read(len: nat) returns (ok: bool)
      requires Valid()
      modifies this`fpos, this`bytes, bytes
      ensures Valid() && (bytes == old(bytes) || fresh(bytes)) && len <= bytes.Length
      ensures ok <==> len <= |old(Rest())|
      ensures Rest() == Take(old(Rest()), len).1
      ensures ok ==> Some(bytes[..len]) == Take(old(Rest()), len).0
    {
      if len > bytes.Length { bytes := new byte[len]; }
      var num := Fill(bytes, len);
      return num == len;
    }

    method ReadCommand(len: nat) returns (buffer: array?<byte>)
      requires Valid()
      modifies this`fpos
      ensures Valid() && Rest() == Take(old(Rest()), len).1
      ensures (if buffer == null then None else Some(buffer[..])) == Take(old(Rest()), len).0
    {
      var b := new byte[len];
      var num := Fill(b, len);
      if num != len { return null; }
      assert b[..] == b[..len];
      return b;
    }

    method ReadUInt16() returns (d: int)
      requires Valid()
      modifies this`fpos, this`bytes, bytes
      ensures Valid() && (bytes == old(bytes) || fresh(bytes))
      ensures (d, Rest()) == Short(old(Rest()))
    {
      var ok := Read(2);
      if !ok { return -1; }
      assert bytes[..2][0] == bytes[0] && bytes[..2][1] == bytes[1];
      return FromLe16(bytes[0], bytes[1]);
    }

    method ReadUInt32() returns (d: int)
      requires Valid()
      modifies this`fpos, this`bytes, bytes
      ensures Valid() && (bytes == old(bytes) || fresh(bytes))
      ensures (d, Rest()) == Word(old(Rest()))
    {
      var ok := Read(4);
      if !ok { return -1; }
      ghost var b := bytes[..4];
      assert b[0] == bytes[0] && b[1] == bytes[1] && b[2] == bytes[2] && b[3] == bytes[3];
      return FromLe32(bytes[0], bytes[1], bytes[2], bytes[3]);
    }

    method ReadByte() returns (d: int)
      requires Valid()
      modifies this`fpos, this`bytes, bytes
      ensures Valid() && (bytes == old(bytes) || fresh(bytes))
      ensures (d, Rest()) == Octet(old(Rest()))
    {
      var ok := Read(1);
      if !ok { return -1; }
      assert bytes[..1][0] == bytes[0];
      return bytes[0];
    }

    /** Reads four bytes and compares them. */
    method Expect4(mark: seq<byte>) returns (same: bool)
      requires Valid() && |mark| == 4
      modifies this`fpos, this`bytes, bytes
      ensures Valid() && (bytes == old(bytes) || fresh(bytes))
      ensures Rest() == Take(old(Rest()), 4).1
      ensures same <==> Take(old(Rest()), 4).0 == Some(mark)
    {
      var ok := Read(4);
      same := ok && bytes[..4] == mark;
    }

    method ReadHead(version: int) returns (h: Head)
      requires Valid()
      modifies this`fpos, this`bytes, bytes
      ensures Valid() && (bytes == old(bytes) || fresh(bytes))
      ensures (h, Rest()) == ArmFiles.ReadHead(old(Rest()), version)
    {
      if version >= MODERN {
        var duration := ReadUInt16();
        var runTime := ReadUInt16();
        var actions := ReadUInt16();
        var _ := ReadUInt16();
        h := Head(duration, runTime, actions);
      } else {
        var duration := ReadUInt32();
        var actions := ReadUInt32();
        h := Head(duration, duration, actions);
      }
    }
  }

  /** The commands of a frame. */
  method LoadCommands(reader: BinaryReader, h: Head, duration: int, start: int32)
    returns (frame: Option<Frame>, aborted: bool)
    requires reader.Valid()
    modifies reader`fpos
    ensures reader.Valid()
    ensures match WithCommands(h, duration, start, old(reader.Rest()))
      case Broken => frame == None && !aborted
      case Abort => aborted
      case Got(g, r) => frame == Some(g) && !aborted && reader.Rest() == r
  {
    if h.actions <= 0 { return Some(Frame(h.runTime, duration, start, None)), false; }
    var len := Wrap32(10 * h.actions);
    if len < 0 { return None, true; }
    var buffer := reader.ReadCommand(len);
    if buffer == null { return None, false; }
    return Some(Frame(h.runTime, duration, start, Some(buffer[..]))), false;
  }

  /** The body of the loading loop, for the frame after `prev`. */
  method LoadEntry(reader: BinaryReader, f: Format, prev: Option<Frame>) returns (frame: Option<Frame>, aborted: bool)
    requires reader.Valid()
    modifies reader`fpos, reader`bytes, reader.bytes
    ensures reader.Valid() && (reader.bytes == old(reader.bytes) || fresh(reader.bytes))
    ensures match ReadEntry(old(reader.Rest()), f, prev)
      case Broken => frame == None && !aborted
      case Abort => aborted
      case Got(g, r) => frame == Some(g) && !aborted && reader.Rest() == r
  {
    var marked := reader.Expect4(MARK);
    if !marked { return None, false; }
    var h := reader.ReadHead(f.version);
    frame, aborted := LoadCommands(reader, h, DurationIn(f, h), EndOf(prev));
  }

  /** What is still to be read are the frames from the i-th on. */
  ghost predicate Ahead(all: (seq<Frame>, bool), i: nat, rest: seq<byte>, f: Format, prev: Option<Frame>, n: nat) {
    i <= n && i <= |all.0| <= n && (all.0[i..], all.1) == ReadFrames(rest, f, prev, n - i)
  }

  lemma AheadFromStart(rest: seq<byte>, f: Format, n: nat)
    ensures Ahead(ReadFrames(rest, f, None, n), 0, rest, f, None, n)
  {
    FramesFit(rest, f, None, n);
    var all := ReadFrames(rest, f, None, n);
    assert all.0[0..] == all.0;
  }

  /** One round of the loop. */
  lemma AheadGoesOn(all: (seq<Frame>, bool), i: nat, rest: seq<byte>, f: Format, prev: Option<Frame>, n: nat)
    requires Ahead(all, i, rest, f, prev, n) && i < n
    ensures match ReadEntry(rest, f, prev)
      case Broken => |all.0| == i && !all.1
      case Abort => |all.0| == i && all.1
      case Got(frame, r) => i < |all.0| && all.0[i] == frame && Ahead(all, i + 1, r, f, Some(frame), n)
  {
    var e := ReadEntry(rest, f, prev);
    if e.Got? {
      var tail := ReadFrames(e.rest, f, Some(e.frame), n - i - 1).0;
      assert all.0[i..] == [e.frame] + tail;
      assert all.0[i] == all.0[i..][0] && all.0[i + 1..] == all.0[i..][1..] == tail;
    }
  }

  /** The first i frames have been entered. */
  ghost predicate Entered(list: seq<Option<Frame>>, frames: seq<Frame>, i: nat, n: nat) {
    && |list| == n && i <= |frames| <= n
    && (forall k :: 0 <= k < n ==> list[k] == if k < i then Some(frames[k]) else None)
  }

  lemma EnteredIsPadded(list: seq<Option<Frame>>, frames: seq<Frame>, n: nat)
    requires Entered(list, frames, |frames|, n)
    ensures list == Padded(frames, n)
  {
  }

  /** The loading loop: fills a list of n empty entries from the front. */
  method LoadFrames(reader: BinaryReader, f: Format, n: nat) returns (frameList: seq<Option<Frame>>, aborted: bool)
    requires reader.Valid()
    modifies reader`fpos, reader`bytes, reader.bytes
    ensures reader.Valid()
    ensures aborted == ReadFrames(old(reader.Rest()), f, None, n).1
    ensures !aborted ==> frameList == Padded(ReadFrames(old(reader.Rest()), f, None, n).0, n)
  {
    ghost var all := ReadFrames(reader.Rest(), f, None, n);
    AheadFromStart(reader.Rest(), f, n);
    frameList := seq(n, _ => None);
    var prev: Option<Frame> := None;
    var i := 0;
    while i < n
      invariant reader.Valid() && (reader.bytes == old(reader.bytes) || fresh(reader.bytes))
      invariant Ahead(all, i, reader.Rest(), f, prev, n) && Entered(frameList, all.0, i, n)
    {
      AheadGoesOn(all, i, reader.Rest(), f, prev, n);
      var frame, abort := LoadEntry(reader, f, prev);
      if abort { return frameList, true; }
      if frame.None? { break; }
      frameList := frameList[i := frame];
      prev := frame;
      i := i + 1;
    }
    EnteredIsPadded(frameList, all.0, n);
    return frameList, false;
  }

  method LoadOpening(reader: BinaryReader)
    returns (frameTime: int, count: int, duration: int, frameType: int, rhythm: int)
    requires reader.Valid()
    modifies reader`fpos, reader`bytes, reader.bytes
    ensures reader.Valid() && (reader.bytes == old(reader.bytes) || fresh(reader.bytes))
    ensures Opening(frameTime, count, duration, frameType, rhythm, reader.Rest())
            == ReadOpening(Take(old(reader.Rest()), RESERVED).1)
  {
    var _ := reader.Read(RESERVED);
    frameTime := reader.ReadUInt16();
    count := reader.ReadUInt32();
    duration := reader.ReadUInt16();
    frameType := reader.ReadByte();
    rhythm := reader.ReadByte();
  }

  /** LoadFrame from the reserved bytes on. */
  method LoadRest(reader: BinaryReader, version: int) returns (r: Outcome)
    requires reader.Valid()
    modifies reader`fpos, reader`bytes, reader.bytes
    ensures reader.Valid()
    ensures r == LoadAfter(version, ReadOpening(Take(old(reader.Rest()), RESERVED).1))
  {
    var frameTime, frameCount, duration, frameType, rhythm := LoadOpening(reader);
    if frameCount == 0 { return Nothing; }
    var frames, aborted := LoadFrames(reader, Format(version, frameType, frameTime), Max(frameCount, 0));
    if aborted { return Aborted; }
    return Loaded(Movie(frameTime, frameType, if version >= MODERN then rhythm else 2, duration, frames));
  }

  /** Whatever the stream holds, loading ends, and reads nothing outside it. */
  method LoadFrame(reader: BinaryReader) returns (r: Outcome)
    requires reader.Valid() && reader.fpos == 0
    modifies reader`fpos, reader`bytes, reader.bytes
    ensures reader.Valid()
    ensures r == Load(reader.pStream[..])
  {
    assert reader.pStream[0..] == reader.pStream[..];
    var started := reader.Expect4(START);
    if !started { return Nothing; }
    var version := reader.ReadUInt16();
    var contentSize := reader.ReadUInt32();
    if contentSize != reader.pStream.Length { return Nothing; }
    r := LoadRest(reader, version);
  }

  method LoadFromStream(stream: array<byte>) returns (r: Outcome)
    ensures r == Load(stream[..])
  {
    var reader := new BinaryReader(stream);
    r := LoadFrame(reader);
  }
}
