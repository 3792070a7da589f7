/** The receiving half of a message block, updated in place (robotbus/lib/MessageBlock.cpp,
    MessageSerializable.cpp), proved against the functions on values. */
module Receivers {
  import opened Basics
  import opened Wire
  import opened DataObjects
  import opened OutBlocks
  import opened InBlocks

  class Receiver {
    var header: Option<Header>
    var obj: BytesObject?

    ghost function View(): Inbox
      reads this, obj, if obj == null then null else obj.data
    {
      Inbox(header, if obj == null then None else Some(obj.View()))
    }

    constructor ()
      ensures View() == Empty
    {
      header, obj := None, null;
    }

    method IsFinished() returns (b: bool)
      ensures b == Whole(View())
    {
      if obj == null { return true; }
      b := obj.IsEnd();
    }

    method NeedFragmentation() returns (b: bool)
      ensures b == InFragments(View())
    {
      b := obj != null && HEADER_SIZE + (if obj.data == null then 0 else obj.data.Length) > MAX_PACKAGE;
    }

    /** Four bytes from i on, the low one first, and the place behind them. */
    static method NextInt32(bytes: seq<byte>, i: nat) returns (x: int32, next: nat)
      requires i + 4 <= |bytes|
      ensures x == Int32At(bytes, i) && next == i + 4
    {
      next := i;
      var a := bytes[next];
      next := next + 1;
      var b := bytes[next];
      next := next + 1;
      var c := bytes[next];
      next := next + 1;
      var d := bytes[next];
      next := next + 1;
      x := FromLe32(a, b, c, d);
    }

    method DeserializeHeader(bytes: seq<byte>) returns (rc: int)
      modifies this`header
      ensures rc == if bytes == [] then -21 else if !CheckType(bytes) then -22 else ParseHeader(bytes).sizeOrPosition
      ensures header == if CheckType(bytes) then Some(ParseHeader(bytes)) else old(header)
    {
      if |bytes| == 0 { return -21; }
      if !CheckType(bytes) { return -22; }
      var needReply := bytes[3] == 0x01;
      var i := 4;
      var uid, peerUid, what, value, extend, sizeOrPosition;
      uid, i := NextInt32(bytes, i);
      peerUid, i := NextInt32(bytes, i);
      what, i := NextInt32(bytes, i);
      value, i := NextInt32(bytes, i);
      extend, i := NextInt32(bytes, i);
      i := 24;
      var objType := bytes[i];
      i := 25;
      var blockType := bytes[i];
      i := 30;
      var packageSize: int := bytes[i];
      i := i + 1;
      packageSize := packageSize + 0x100 * bytes[i] as int;
      i := 32;
      sizeOrPosition, i := NextInt32(bytes, i);
      header := Some(Header(needReply, uid, peerUid, what, value, extend, objType, blockType, packageSize,
                            sizeOrPosition));
      return sizeOrPosition;
    }

    /** Gives the payload to the object, which is made if it is missing. */
    method DeserializeObject(bytes: seq<byte>) returns (rc: int)
      requires CheckType(bytes) && |bytes| == HEADER_SIZE + ParseHeader(bytes).count
      requires header == Some(ParseHeader(bytes)) && header.value.sizeOrPosition >= 0
      requires Acceptable(View(), Parsed(bytes))
      modifies this`obj, obj, if obj == null then null else obj.data
      ensures View() == Deserialized(old(View()), Parsed(bytes)) && rc == DeserializeCode(old(View()), Parsed(bytes))
    {
      var h := header.value;
      if h.objType == NO_OBJECT || h.count == 0 { return 0; }
      if obj == null {
        if h.objType != STRING_OBJECT && h.objType != BYTES_OBJECT { return UNKNOWN_TYPE; }
        obj := new BytesObject();
      }
      rc := obj.Write(PayloadOf(bytes), h.sizeOrPosition, h.blockType == 1);
    }

    method Deserialize(bytes: seq<byte>) returns (rc: int)
      requires CheckType(bytes) ==>
        |bytes| == HEADER_SIZE + ParseHeader(bytes).count && Acceptable(View(), Parsed(bytes))
      modifies this, obj, if obj == null then null else obj.data
      ensures !CheckType(bytes) ==> View() == old(View()) && rc == if bytes == [] then -21 else -22
      ensures CheckType(bytes) ==>
        View() == Deserialized(old(View()), Parsed(bytes)) && rc == DeserializeCode(old(View()), Parsed(bytes))
    {
      rc := DeserializeHeader(bytes);
      if rc >= 0 { rc := DeserializeObject(bytes); }
    }

    /** Takes a datagram in and gives the socket the bytes of an acknowledgement, if any; the socket
        returns `net`. */
    method OnRecv(bytes: seq<byte>, net: int) returns (rc: int, reply: Option<seq<byte>>)
      requires CheckType(bytes) ==>
        |bytes| == HEADER_SIZE + ParseHeader(bytes).count && Acceptable(View(), Parsed(bytes))
      modifies this, obj, if obj == null then null else obj.data
      ensures !CheckType(bytes) ==> View() == old(View()) && reply == None && rc == if bytes == [] then -21 else -22
      ensures CheckType(bytes) ==>
        var (s, code, answer) := InBlocks.OnRecv(old(View()), Parsed(bytes));
        && View() == s && rc == (if code < 0 then code else if answer.Some? then net else 0)
        && reply == if answer.Some? then Some(Datagram(answer.value.header, [])) else None
    {
      rc := Deserialize(bytes);
      if rc < 0 { return rc, None; }
      var finished := IsFinished();
      var fragments := NeedFragmentation();
      if finished && !fragments { return 0, None; }
      var h := header.value;
      var ack := Header(false, 0, h.uid, if finished then DONE else MORE, h.count, rc, NO_OBJECT, 0, 0, 0);
      return net, Some(Datagram(ack, []));
    }
  }
}
