/** The byte object that a message carries: chunked reading on the sending side,
    position-guarded writing on the receiving side (robotbus/lib/BytesObject.cpp). */
module DataObjects {
  import opened Basics

  datatype Mode = Unopened | Reading | Writing

  datatype Phase = Fresh | Ready | Moving

  /** The value of a byte object; no data stands for the null pointer. */
  datatype Obj = Obj(data: Option<seq<byte>>, position: nat, mode: Mode, phase: Phase)

  const Blank := Obj(None, 0, Unopened, Fresh)

  const PAST := 0xE0
  const AHEAD := 0xE1

  function Size(o: Obj): nat {
    if o.data.Some? then |o.data.value| else 0
  }

  predicate AtEnd(o: Obj) {
    Size(o) == 0 || o.position >= Size(o)
  }

  function Restart(o: Obj): Obj {
    o.(position := 0, mode := Unopened, phase := Fresh)
  }

  /** What a read hands over: the return code, the bytes, and the two fields that tell the
      receiver where they belong. */
  datatype Chunk = Chunk(rc: int, bytes: seq<byte>, sizeOrPosition: int, first: bool)

  function OpenRead(o: Obj): Obj {
    if o.mode == Unopened then o.(position := 0, mode := Reading, phase := Ready) else o
  }

  function Fetched(o: Obj, room: nat): Chunk
    requires o.position < Size(o)
  {
    var n := Min(Size(o) - o.position, room);
    Chunk(n, o.data.value[o.position..o.position + n],
          if o.phase == Ready then Size(o) else o.position, o.phase == Ready)
  }

  function ReadOut(o: Obj, room: nat): (Obj, Chunk) {
    if Size(o) == 0 || o.mode == Writing then (o, Chunk(-1, [], 0, false))
    else if o.position >= Size(o) then (o, Chunk(0, [], 0, false))
    else
      var c := Fetched(OpenRead(o), room);
      (OpenRead(o).(position := OpenRead(o).position + c.rc, phase := Moving), c)
  }

  /** Opens for writing when the bytes are the first of an object. */
  function Opened(o: Obj, sizeOrPosition: nat, first: bool): Obj {
    if first then Obj(Some(seq(sizeOrPosition, _ => 0)), 0, Writing, Moving) else o
  }

  /** The code a write returns. */
  function WriteCode(o: Obj, bytes: seq<byte>, sizeOrPosition: nat, first: bool): int {
    if bytes == [] || o.mode == Reading then -1
    else
      var p := Opened(o, sizeOrPosition, first);
      var at := if first then 0 else sizeOrPosition;
      if p.mode != Writing then -2
      else if p.data.None? || Size(p) < |bytes| then -3
      else if p.position >= Size(p) then 0
      else if at < p.position then PAST
      else if at > p.position then AHEAD
      else 1
  }

  /** The copy would run past the end of the data; the source does not test for this. */
  predicate Overruns(o: Obj, bytes: seq<byte>, sizeOrPosition: nat, first: bool) {
    && WriteCode(o, bytes, sizeOrPosition, first) == 1
    && Opened(o, sizeOrPosition, first).position + |bytes| > Size(Opened(o, sizeOrPosition, first))
  }

  function Written(o: Obj, bytes: seq<byte>, sizeOrPosition: nat, first: bool): Obj
    requires !Overruns(o, bytes, sizeOrPosition, first)
  {
    if bytes == [] || o.mode == Reading then o
    else
      var p := Opened(o, sizeOrPosition, first);
      if WriteCode(o, bytes, sizeOrPosition, first) != 1 then p
      else p.(data := Some(p.data.value[..p.position] + bytes + p.data.value[p.position + |bytes|..]),
              position := p.position + |bytes|)
  }

  /** A read, in bytes: an object without bytes or open for writing gives none, one that is read to its end none
      either; from any other come as many as there is room for, from where the last read ended. */
  lemma ReadGives(o: Obj, room: nat)
    ensures var (q, c) := ReadOut(o, room);
      if o.data.None? || o.data.value == [] || o.mode == Writing then q == o && c.rc == -1
      else if o.position >= |o.data.value| then q == o && c.rc == 0
      else
        var from, size := if o.mode == Unopened then 0 else o.position, |o.data.value|;
        && c.rc == |c.bytes| == (if size - from < room then size - from else room)
        && c.bytes == o.data.value[from..from + c.rc]
        && (c.first <==> o.mode == Unopened || o.phase == Ready) && c.sizeOrPosition == (if c.first then size else from)
        && q.data == o.data && q.position == from + c.rc && q.mode == Reading && q.phase == Moving
  {
  }

  /** A first chunk: it makes room for the whole object, and is put at its beginning if it fits. */
  lemma FirstWrite(o: Obj, bytes: seq<byte>, size: nat)
    requires bytes != [] && o.mode != Reading
    ensures !Overruns(o, bytes, size, true)
    ensures var q, rc := Written(o, bytes, size, true), WriteCode(o, bytes, size, true);
      && rc == (if |bytes| > size then -3 else 1)
      && q.mode == Writing && q.phase == Moving && q.data.Some? && |q.data.value| == size
      && q.position == (if rc == 1 then |bytes| else 0)
      && forall i :: 0 <= i < size ==> q.data.value[i] == if rc == 1 && i < |bytes| then bytes[i] else 0
  {
  }

  /** A later chunk is put where the last one ended, if that is where it belongs; each other case has a code of its
      own and changes nothing. */
  lemma LaterWrite(o: Obj, bytes: seq<byte>, at: nat)
    requires bytes != [] && o.mode != Reading && !Overruns(o, bytes, at, false)
    ensures var q, rc := Written(o, bytes, at, false), WriteCode(o, bytes, at, false);
      && (o.mode != Writing ==> rc == -2)
      && (o.mode == Writing && (o.data.None? || |o.data.value| < |bytes|) ==> rc == -3)
      && (o.mode == Writing && o.data.Some? && |o.data.value| >= |bytes| ==>
           if o.position >= |o.data.value| then rc == 0
           else if at < o.position then rc == 0xE0
           else if at > o.position then rc == 0xE1
           else
             && rc == 1 && q.position == at + |bytes| <= |o.data.value| && q.mode == o.mode && q.phase == o.phase
             && q.data.Some? && |q.data.value| == |o.data.value|
             && forall i :: 0 <= i < |o.data.value| ==>
                  q.data.value[i] == if at <= i < at + |bytes| then bytes[i - at] else o.data.value[i])
      && (rc != 1 ==> q == o)
  {
  }

  /** Nothing is written to an object that is being read, and nothing that is empty. */
  lemma NoWrite(o: Obj, bytes: seq<byte>, at: nat, first: bool)
    requires bytes == [] || o.mode == Reading
    ensures !Overruns(o, bytes, at, first) && Written(o, bytes, at, first) == o && WriteCode(o, bytes, at, first) == -1
  {
  }

  /** memcpy between two arrays. */
  method Copy(dest: array<byte>, at: nat, src: array<byte>, from: nat, n: nat)
    requires dest != src && at + n <= dest.Length && from + n <= src.Length
    modifies dest
    ensures dest[..at] == old(dest[..at]) && dest[at..at + n] == src[from..from + n]
    ensures dest[at + n..] == old(dest[at + n..])
  {
    forall i | 0 <= i < n {
      dest[at + i] := src[from + i];
    }
  }

  class DataBuffer {
    const bytes: array<byte>
    const offset: nat
    var count: nat
    var sizeOrPosition: int
    var first: bool

    constructor (bytes: array<byte>, offset: nat, count: nat)
      requires offset <= bytes.Length
      ensures this.bytes == bytes && this.offset == offset && this.count == count
      ensures sizeOrPosition == 0 && !first
    {
      this.bytes, this.offset, this.count := bytes, offset, count;
      sizeOrPosition, first := 0, false;
    }
  }

  class BytesObject {
    var data: array?<byte>
    var position: nat
    var mode: Mode
    var phase: Phase

    ghost function View(): Obj
      reads this, data
    {
      Obj(if data == null then None else Some(data[..]), position, mode, phase)
    }

    constructor ()
      ensures View() == Blank && data == null
    {
      data, position, mode, phase := null, 0, Unopened, Fresh;
    }

    constructor Of(bytes: seq<byte>)
      ensures View() == Obj(Some(bytes), 0, Unopened, Fresh) && fresh(data)
    {
      data := new byte[|bytes|](i requires 0 <= i < |bytes| => bytes[i]);
      position, mode, phase := 0, Unopened, Fresh;
      new;
      assert data[..] == bytes;
    }

    method Reset()
      modifies this
      ensures View() == Restart(old(View())) && data == old(data)
    {
      position, mode, phase := 0, Unopened, Fresh;
    }

    method IsEnd() returns (end: bool)
      ensures end == AtEnd(View())
    {
      end := data == null || data.Length == 0 || position >= data.Length;
    }

    /** The copying part of read, into the free part of the buffer. */
    method Fetch(buffer: DataBuffer) returns (n: nat)
      requires buffer.offset <= buffer.count <= buffer.bytes.Length && buffer.bytes != data
      requires data != null && position < data.Length
      modifies this`position, this`phase, buffer, buffer.bytes
      ensures View() == old(View()).(position := old(position) + n, phase := Moving)
      ensures buffer.count == n <= old(buffer.count) - buffer.offset
      ensures Chunk(n, buffer.bytes[buffer.offset..buffer.offset + n], buffer.sizeOrPosition, buffer.first)
              == old(Fetched(View(), buffer.count - buffer.offset))
      ensures buffer.bytes[..buffer.offset] == old(buffer.bytes[..buffer.offset])
    {
      n := Min(data.Length - position, buffer.count - buffer.offset);
      Copy(buffer.bytes, buffer.offset, data, position, n);
      assert data[..] == old(data[..]);
      buffer.count := n;
      buffer.sizeOrPosition := if phase == Ready then data.Length else position;
      buffer.first := phase == Ready;
      position := position + n;
      phase := Moving;
    }

    method Read(buffer: DataBuffer) returns (rc: int)
      requires buffer.offset <= buffer.count <= buffer.bytes.Length && buffer.bytes != data
      modifies this, buffer, buffer.bytes
      ensures data == old(data)
      ensures View() == old(ReadOut(View(), buffer.count - buffer.offset)).0
      ensures rc == old(ReadOut(View(), buffer.count - buffer.offset)).1.rc
      ensures rc > 0 ==> buffer.count == rc <= old(buffer.count) - buffer.offset
      ensures rc > 0 ==> Chunk(rc, buffer.bytes[buffer.offset..buffer.offset + rc], buffer.sizeOrPosition, buffer.first)
                         == old(ReadOut(View(), buffer.count - buffer.offset)).1
      ensures buffer.bytes[..buffer.offset] == old(buffer.bytes[..buffer.offset])
    {
      if data == null || data.Length == 0 || mode == Writing { return -1; }
      if position >= data.Length { return 0; }
      if mode == Unopened {
        position, mode, phase := 0, Reading, Ready;
      }
      rc := Fetch(buffer);
    }

    method Write(bytes: seq<byte>, sizeOrPosition: nat, first: bool) returns (rc: int)
      requires !Overruns(View(), bytes, sizeOrPosition, first)
      modifies this, data
      ensures data == old(data) || fresh(data)
      ensures View() == Written(old(View()), bytes, sizeOrPosition, first)
      ensures rc == WriteCode(old(View()), bytes, sizeOrPosition, first)
    {
      if |bytes| == 0 || mode == Reading { return -1; }
      var at := sizeOrPosition;
      if first {
        position, mode, phase := 0, Writing, Moving;
        data := new byte[sizeOrPosition](_ => 0);
        assert data[..] == seq(sizeOrPosition, _ => 0);
        at := 0;
      }
      if mode != Writing { return -2; }
      if data == null || data.Length < |bytes| { return -3; }
      if position >= data.Length { return 0; }
      if at < position {
        return PAST;
      } else if at > position {
        return AHEAD;
      }
      ghost var before := data[..];
      forall i | 0 <= i < |bytes| {
        data[position + i] := bytes[i];
      }
      assert data[..] == before[..position] + bytes + before[position + |bytes|..];
      position := position + |bytes|;
      return 1;
    }
  }
}
