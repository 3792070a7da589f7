/** Message blocks updated in place, with their payload buffer and byte object, and the pool that
    queues them (robotbus/lib/MessageBlock.cpp, MessageSerializable.cpp, MessagePool.cpp), proved
    against the functions on values. What the socket returns is a parameter. */
module MessageBlocks {
  import opened Basics
  import opened Wire
  import opened DataObjects
  import opened OutBlocks

  /** Lays bytes into a buffer. */
  method Put(dest: array<byte>, at: nat, bytes: seq<byte>)
    requires at + |bytes| <= dest.Length
    modifies dest
    ensures dest[..at] == old(dest[..at]) && dest[at..at + |bytes|] == bytes
    ensures dest[at + |bytes|..] == old(dest[at + |bytes|..])
  {
    forall i | 0 <= i < |bytes| {
      dest[at + i] := bytes[i];
    }
  }

  class MessageBlock {
    var tag: Tag
    var needReply: bool
    const objType: byte
    const obj: BytesObject?
    const remoteIp: string
    var payload: array?<byte>
    var packageSize: nat
    var status: Status
    var retries: nat
    var timeLeft: int
    var hasCompleted: bool
    var hasRequest: bool
    /** The callbacks made, and the packets whose bytes were given to SendBytes. */
    var calls: seq<Call>
    ghost var wire: seq<Attempt>

    ghost function Freight(): Freight
      reads this`tag, this`needReply, this`wire, obj, if obj == null then null else obj.data
    {
      OutBlocks.Freight(tag, objType, if obj == null then None else Some(obj.View()), remoteIp != "", needReply, wire)
    }

    ghost function View(): Block
      reads this, obj, if obj == null then null else obj.data
    {
      Block(Freight(), status, retries, timeLeft, hasCompleted, hasRequest, calls)
    }

    ghost predicate Shape()
      reads this`tag, this`needReply, this`wire, this`payload, obj, if obj == null then null else obj.data
    {
      Sized(Freight()) && (obj != null && payload != null ==> obj.data != payload)
    }

    /** The buffer holds a packet. */
    ghost predicate Carries(p: Packet)
      reads this`payload, this`packageSize, payload
    {
      payload != null && packageSize <= payload.Length && payload[..packageSize] == BytesOf(p)
    }

    /** The buffer holds the packet that was logged last. */
    ghost predicate Buffered()
      reads this`wire, this`payload, this`packageSize, payload
    {
      wire != [] && Carries(wire[|wire| - 1].packet)
    }

    ghost predicate Valid()
      reads this, obj, if obj == null then null else obj.data, payload
    {
      Shape() && (status == Sending ==> Buffered())
    }

    constructor (tag: Tag, objType: byte, obj: BytesObject?, remoteIp: string, needReply: bool,
                 hasCompleted: bool, hasRequest: bool)
      requires obj != null ==> Size(obj.View()) < 0x8000_0000 && obj.View().position < 0x8000_0000
      ensures Valid() && this.obj == obj && payload == null
      ensures View() == Block(OutBlocks.Freight(tag, objType, if obj == null then None else Some(obj.View()),
                                                remoteIp != "", needReply, []),
                              Idle, 0, 0, hasCompleted, hasRequest, [])
    {
      this.tag, this.objType, this.obj, this.remoteIp, this.needReply := tag, objType, obj, remoteIp, needReply;
      this.hasCompleted, this.hasRequest := hasCompleted, hasRequest;
      payload, packageSize, status, retries, timeLeft := null, 0, Idle, 0, 0;
      calls, wire := [], [];
    }

    method GetSize() returns (n: nat)
      ensures n == TotalSize(Freight())
    {
      n := HEADER_SIZE + if obj == null || obj.data == null then 0 else obj.data.Length;
    }

    method IsFinished() returns (b: bool)
      ensures b == Finished(Freight())
    {
      if obj == null { return true; }
      b := obj.IsEnd();
    }

    method NeedFragmentation() returns (b: bool)
      ensures b == NeedsFragments(Freight())
    {
      var n := GetSize();
      b := obj != null && (objType == FILE_OBJECT || n > MAX_PACKAGE);
    }

    method Clear()
      requires Shape()
      modifies this`status, this`retries, this`timeLeft, this`hasCompleted, this`hasRequest
      ensures Valid() && View() == OutBlocks.Clear(old(View()))
    {
      hasCompleted, hasRequest, retries, timeLeft, status := false, false, 0, 0, Idle;
    }

    method OnResult(result: int) returns (rc: int)
      requires Shape()
      modifies this`status, this`retries, this`timeLeft, this`hasCompleted, this`hasRequest, this`calls
      ensures Valid() && View() == Resulted(old(View()), result) && rc == result
    {
      if hasRequest { calls := calls + [Call.OnResult(result)]; }
      Clear();
      return result;
    }

    /** The header fields that do not depend on the object. */
    function PlainHeader(): Header
      reads this
    {
      Header(needReply, tag.uid, tag.peerUid, tag.what, tag.value, tag.extend, NO_OBJECT, 0, 0, 0)
    }

    /** Makes room for a packet and writes the front of its header. */
    method Prepare()
      requires Sized(Freight())
      modifies this`payload, this`packageSize, payload
      ensures payload != null && (payload == old(payload) || fresh(payload))
      ensures packageSize == Min(TotalSize(Freight()), MAX_PACKAGE) <= payload.Length
      ensures payload[..24] == FrontBytes(PlainHeader())
    {
      var n := GetSize();
      packageSize := Min(n, MAX_PACKAGE);
      if payload == null || payload.Length < packageSize {
        payload := new byte[packageSize];
      }
      Put(payload, 0, FrontBytes(PlainHeader()));
    }

    /** Writes the back of the header, for n bytes that are in place already. */
    method Complete(h: Header, n: nat)
      requires payload != null && HEADER_SIZE + n <= payload.Length
      requires FrontBytes(h) == payload[..24]
      modifies this`packageSize, payload
      ensures packageSize == HEADER_SIZE + n
      ensures payload[..packageSize] == Datagram(h, old(payload[HEADER_SIZE..HEADER_SIZE + n]))
    {
      ghost var bytes := payload[HEADER_SIZE..HEADER_SIZE + n];
      Put(payload, 24, BackBytes(h));
      packageSize := HEADER_SIZE + n;
      assert payload[HEADER_SIZE..packageSize] == payload[HEADER_SIZE..][..n] == bytes;
      assert payload[..packageSize] == payload[..24] + payload[24..HEADER_SIZE] + payload[HEADER_SIZE..packageSize];
    }

    function ObjectHeader(first: bool, count: uint16, sizeOrPosition: int32): Header
      reads this
    {
      PlainHeader().(objType := objType, blockType := if first then 1 else 0, count := count,
                     sizeOrPosition := sizeOrPosition)
    }

    /** The object's part of Serialize. */
    method Load() returns (rc: int)
      requires obj != null && payload != null && obj.data != payload && HEADER_SIZE <= packageSize <= payload.Length
      requires packageSize <= MAX_PACKAGE && payload[..24] == FrontBytes(PlainHeader())
      requires Sized(Freight())
      modifies this`packageSize, payload, obj
      ensures obj.data == old(obj.data)
      ensures obj.View() == old(ReadOut(obj.View(), packageSize - HEADER_SIZE)).0
      ensures var c := old(ReadOut(obj.View(), packageSize - HEADER_SIZE)).1;
        if c.rc <= 0 then rc == c.rc
        else
          && rc == packageSize == HEADER_SIZE + c.rc <= payload.Length
          && payload[..packageSize] == Datagram(ObjectHeader(c.first, c.rc, c.sizeOrPosition), c.bytes)
    {
      hide Datagram;
      var buffer := new DataBuffer(payload, HEADER_SIZE, packageSize);
      rc := obj.Read(buffer);
      if rc <= 0 { return; }
      ghost var o := obj.View();
      ghost var bytes := payload[HEADER_SIZE..HEADER_SIZE + buffer.count];
      assert payload[..24] == payload[..HEADER_SIZE][..24];
      var h := ObjectHeader(buffer.first, buffer.count, buffer.sizeOrPosition);
      Complete(h, buffer.count);
      assert obj.View() == o && payload[..packageSize] == Datagram(h, bytes);
      rc := packageSize;
    }

    method SerializePlain() returns (rc: int)
      requires Shape() && obj == null
      modifies this`payload, this`packageSize, payload
      ensures payload != null && (payload == old(payload) || fresh(payload))
      ensures rc == packageSize == HEADER_SIZE <= payload.Length
      ensures payload[..packageSize] == Datagram(PlainHeader(), [])
    {
      Prepare();
      Complete(PlainHeader(), 0);
      rc := packageSize;
    }

    method SerializeObject() returns (rc: int)
      requires Shape() && obj != null
      modifies this`payload, this`packageSize, payload, obj
      ensures payload != null && (payload == old(payload) || fresh(payload))
      ensures obj.data == old(obj.data) && obj.data != payload
      ensures obj.View() == old(ReadOut(obj.View(), Room(Freight()))).0
      ensures var c := old(ReadOut(obj.View(), Room(Freight()))).1;
        if c.rc <= 0 then rc == c.rc
        else
          && rc == packageSize == HEADER_SIZE + c.rc <= payload.Length
          && payload[..packageSize] == Datagram(ObjectHeader(c.first, c.rc, c.sizeOrPosition), c.bytes)
    {
      Prepare();
      rc := Load();
    }

    /** Fills the buffer with the next packet, unless the object has nothing to give. */
    method Serialize() returns (rc: int, ghost packet: Packet)
      requires Shape()
      modifies this`payload, this`packageSize, payload, obj
      ensures payload != null && (payload == old(payload) || fresh(payload))
      ensures obj != null ==> obj.data == old(obj.data) && obj.data != payload
      ensures rc == old(Serialized(Freight())).0 && packet == old(Serialized(Freight())).2
      ensures Freight() == old(Freight()).(obj := old(Serialized(Freight())).1)
      ensures rc <= 0 ==> Freight() == old(Freight())
      ensures rc > 0 ==> Carries(packet)
    {
      ghost var f := Freight();
      packet := Serialized(f).2;
      if obj == null {
        rc := SerializePlain();
      } else {
        rc := SerializeObject();
        if rc <= 0 { FailedSerialize(f); }
      }
    }

    /** Gives the buffer, which must hold the packet that is logged, to the socket; it answers `net`. */
    method SendBytes(net: int, ghost a: Attempt) returns (rc: int)
      requires Shape() && Carries(a.packet) && a.ok == (net >= 0)
      modifies this`wire
      ensures Shape() && Buffered() && rc == net
      ensures Freight() == old(Freight()).(wire := old(wire) + [a])
    {
      wire := wire + [a];
      return net;
    }

    /** The part of Send that makes the next packet and hands it over. */
    method Ship(net: int) returns (rc: int)
      requires Shape() && !Exhausted(Freight())
      modifies this`payload, this`packageSize, this`wire, payload, obj
      ensures Shape() && (payload == old(payload) || fresh(payload)) && (obj != null ==> obj.data == old(obj.data))
      ensures old(Serialized(Freight())).0 < 0 ==> rc == old(Serialized(Freight())).0 && Freight() == old(Freight())
      ensures old(Serialized(Freight())).0 >= 0 ==>
        rc == net && Buffered() && Freight() == Shipped(old(Freight()), net >= 0)
    {
      hide Datagram;
      ghost var f := Freight();
      var n, packet := Serialize();
      if n < 0 { return n; }
      SomethingIsSerialized(f);
      rc := SendBytes(net, Attempt(packet, NextIndex(f.wire), true, net >= 0));
    }

    /** The end of Send. */
    method Conclude(net: int) returns (rc: int)
      requires Valid()
      modifies this`status, this`retries, this`timeLeft, this`hasCompleted, this`hasRequest, this`calls
      ensures Valid() && View() == Concluded(old(View()), net)
    {
      if net < 0 {
        rc := OnResult(net);
        return;
      }
      var finished := IsFinished();
      if finished && !needReply {
        rc := OnResult(0);
        return;
      }
      retries, timeLeft := 0, TIMEOUT;
      return 0;
    }

    /** The part of Send before Serialize. */
    method Open()
      requires Shape()
      modifies this`status, this`needReply
      ensures Shape() && View() == Opening(old(View()))
    {
      status := Sending;
      if hasCompleted { needReply := true; }
    }

    /** The part of Send after the test for an address. */
    method Dispatch(net: int) returns (rc: int)
      requires Shape() && !Exhausted(Freight()) && status == Sending
      modifies this, payload, obj
      ensures Valid() && (payload == old(payload) || fresh(payload)) && (obj != null ==> obj.data == old(obj.data))
      ensures View() == Dispatched(old(View()), net)
    {
      var n := Ship(net);
      if n < 0 {
        rc := OnResult(n);
      } else {
        rc := Conclude(n);
      }
    }

    method Send(net: int) returns (rc: int)
      requires Valid() && !Exhausted(Freight())
      modifies this, payload, obj
      ensures Valid() && (payload == old(payload) || fresh(payload)) && (obj != null ==> obj.data == old(obj.data))
      ensures View() == Sent(old(View()), net)
    {
      if |remoteIp| == 0 {
        rc := OnResult(-1);
        return;
      }
      Open();
      rc := Dispatch(net);
    }

    method Resend(net: int) returns (rc: int)
      requires Valid() && Buffered()
      modifies this`wire, this`retries, this`timeLeft
      ensures Valid() && Buffered() && View() == Resent(old(View()), net) && rc == net
    {
      hide Datagram;
      rc := SendBytes(net, Again(Freight(), net >= 0));
      ghost var f := Freight();
      retries, timeLeft := retries + 1, TIMEOUT;
      assert Freight() == f;
    }

    /** The part of onOutMessageEvent that answers a request for the next fragment. */
    method Advance(what: int32, net: int)
      requires Valid()
      modifies this, payload, obj
      ensures Valid() && (payload == old(payload) || fresh(payload)) && (obj != null ==> obj.data == old(obj.data))
      ensures View() == Advanced(old(View()), what, net)
    {
      var finished := IsFinished();
      if !finished && what == MORE { var _ := Send(net); }
    }

    /** The rest of it. */
    method Settle(what: int32)
      requires Valid()
      modifies this`status, this`retries, this`timeLeft, this`hasCompleted, this`hasRequest, this`calls
      ensures Valid() && View() == Settled(old(View()), what)
    {
      var finished := IsFinished();
      if finished && what == DONE && !hasCompleted { Clear(); }
      if finished && what == tag.what {
        if hasCompleted { calls := calls + [Replied]; }
        Clear();
      }
    }

    /** A finished message of kind `what` has come in for this block. */
    method OnOutMessage(what: int32, net: int)
      requires Valid() && Sound(View())
      modifies this, payload, obj
      ensures Valid() && (payload == old(payload) || fresh(payload)) && (obj != null ==> obj.data == old(obj.data))
      ensures View() == OutBlocks.OnOutMessage(old(View()), what, net) && Sound(View())
    {
      OnOutMessageIsSound(View(), what, net);
      Advance(what, net);
      Settle(what);
    }

    /** One visit of the update loop. */
    method Visit(net: int)
      requires Valid() && Sound(View())
      modifies this, payload, obj
      ensures Valid() && Sound(View()) && (payload == old(payload) || fresh(payload))
      ensures obj != null ==> obj.data == old(obj.data)
      ensures View() == Visited(old(View()), net)
    {
      ghost var b := View();
      if b.status == Waiting { WaitingIsNotExhausted(b); }
      VisitedIsSound(b, net);
      if status == Waiting {
        var _ := Send(net);
      } else if status == Sending {
        Tick(net);
      }
    }

    method Tick(net: int)
      requires Valid() && status == Sending
      modifies this
      ensures Valid() && payload == old(payload) && View() == Visited(old(View()), net)
    {
      if retries < MAX_RETRIES {
        timeLeft := timeLeft - 1;
        if timeLeft <= 0 { var _ := Resend(net); }
      } else {
        var _ := OnResult(-1);
      }
    }
  }
}
