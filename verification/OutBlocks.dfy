/** A message on its way out: sent in fragments, advanced by acknowledgements, sent again on
    timeout (robotbus/lib/MessageBlock.cpp, the out-queue side of MessagePool.cpp). */
module OutBlocks {
  import opened Basics
  import opened Wire
  import opened DataObjects

  const MORE: int32 := 0x8FFE
  const DONE: int32 := 0x8FFF
  /** Ten seconds in visits of 0.1 seconds. */
  const TIMEOUT := 100
  const MAX_RETRIES := 6

  datatype Status = Idle | Waiting | Sending | Receiving

  /** The header fields that stay the same for all datagrams of a message. */
  datatype Tag = Tag(uid: int32, peerUid: int32, what: int32, value: int32, extend: int32)

  /** The callbacks that end a message. */
  datatype Call = Replied | OnResult(code: int)

  /** One call of SendBytes: its packet, how many calls with new bytes went before the one that
      made it, whether it is such a call itself, and whether the socket took it. */
  datatype Attempt = Attempt(packet: Packet, index: nat, isNew: bool, ok: bool)

  /** The message and what has been sent of it. */
  datatype Freight = Freight(
    tag: Tag,
    objType: byte,
    obj: Option<Obj>,
    hasIp: bool,
    needReply: bool,
    wire: seq<Attempt>)

  datatype Block = Block(
    f: Freight,
    status: Status,
    retries: nat,
    timeLeft: int,
    hasCompleted: bool,
    hasRequest: bool,
    calls: seq<Call>)

  predicate Finished(f: Freight) {
    f.obj.None? || AtEnd(f.obj.value)
  }

  function TotalSize(f: Freight): nat {
    HEADER_SIZE + if f.obj.None? then 0 else Size(f.obj.value)
  }

  predicate NeedsFragments(f: Freight) {
    f.obj.Some? && (f.objType == FILE_OBJECT || TotalSize(f) > MAX_PACKAGE)
  }

  /** A byte object's size is an int. */
  predicate Sized(f: Freight) {
    f.obj.Some? ==> Size(f.obj.value) < 0x8000_0000 && f.obj.value.position < 0x8000_0000
  }

  predicate Exhausted(f: Freight) {
    f.obj.Some? && Size(f.obj.value) > 0 && f.obj.value.position >= Size(f.obj.value)
  }

  /** What all datagrams of a message have in common. */
  datatype Content = Content(tag: Tag, objType: byte, needReply: bool, data: Option<seq<byte>>)

  function ContentOf(f: Freight): Content {
    Content(f.tag, f.objType, f.needReply, if f.obj.Some? then f.obj.value.data else None)
  }

  function HeaderOf(m: Content, objType: byte, first: bool, count: uint16, sizeOrPosition: int32): Header {
    Header(m.needReply, m.tag.uid, m.tag.peerUid, m.tag.what, m.tag.value, m.tag.extend,
           objType, if first then 1 else 0, count, sizeOrPosition)
  }

  /** The room Serialize leaves for object bytes. */
  function Room(f: Freight): nat {
    Min(TotalSize(f), MAX_PACKAGE) - HEADER_SIZE
  }

  /** Serialize: the return code, the object moved on, and, unless the code is an error, the packet. */
  function Serialized(f: Freight): (int, Option<Obj>, Packet)
    requires Sized(f)
  {
    var plain := Packet(HeaderOf(ContentOf(f), NO_OBJECT, false, 0, 0), []);
    if f.obj.None? then (HEADER_SIZE, None, plain)
    else
      var (o, c) := ReadOut(f.obj.value, Room(f));
      if c.rc <= 0 then (c.rc, Some(o), plain)
      else
        (HEADER_SIZE + c.rc, Some(o),
         Packet(HeaderOf(ContentOf(f), f.objType, c.first, c.rc, c.sizeOrPosition), c.bytes))
  }

  /** A read that gives nothing leaves the object as it was. */
  lemma FailedSerialize(f: Freight)
    requires Sized(f) && Serialized(f).0 <= 0
    ensures f.(obj := Serialized(f).1) == f
  {
  }

  lemma SomethingIsSerialized(f: Freight)
    requires Sized(f) && !Exhausted(f)
    ensures Serialized(f).0 != 0
  {
  }

  function NextIndex(wire: seq<Attempt>): (n: nat)
    ensures wire != [] ==> n >= 1
  {
    if wire == [] then 0 else wire[|wire| - 1].index + 1
  }

  /** A call of SendBytes with the next packet. */
  function Shipped(f: Freight, ok: bool): Freight
    requires Sized(f)
  {
    var (rc, obj, packet) := Serialized(f);
    f.(obj := obj, wire := f.wire + [Attempt(packet, NextIndex(f.wire), true, ok)])
  }

  /** The packet that is still in the buffer, once more. */
  function Again(f: Freight, ok: bool): Attempt
    requires f.wire != []
  {
    Attempt(f.wire[|f.wire| - 1].packet, f.wire[|f.wire| - 1].index, false, ok)
  }

  /** A call of SendBytes with it. */
  function Repeated(f: Freight, ok: bool): Freight
    requires f.wire != []
  {
    f.(wire := f.wire + [Again(f, ok)])
  }

  function Clear(b: Block): Block {
    b.(hasCompleted := false, hasRequest := false, retries := 0, timeLeft := 0, status := Idle)
  }

  function Resulted(b: Block, code: int): Block {
    Clear(b.(calls := b.calls + if b.hasRequest then [OnResult(code)] else []))
  }

  function Opening(b: Block): Block {
    b.(status := Sending, f := b.f.(needReply := b.f.needReply || b.hasCompleted))
  }

  /** The end of Send, once SendBytes has returned `net`. */
  function Concluded(b: Block, net: int): Block {
    if net < 0 then Resulted(b, net)
    else if Finished(b.f) && !b.f.needReply then Resulted(b, 0)
    else b.(retries := 0, timeLeft := TIMEOUT)
  }

  /** Send from Serialize on; `net` is what the socket returns. */
  function Dispatched(b: Block, net: int): Block
    requires Sized(b.f) && !Exhausted(b.f)
  {
    var rc := Serialized(b.f).0;
    if rc < 0 then Resulted(b, rc) else Concluded(b.(f := Shipped(b.f, net >= 0)), net)
  }

  function Sent(b: Block, net: int): Block
    requires Sized(b.f) && !Exhausted(b.f)
  {
    if !b.f.hasIp then Resulted(b, -1) else Dispatched(Opening(b), net)
  }

  function Resent(b: Block, net: int): Block
    requires b.f.wire != []
  {
    b.(f := Repeated(b.f, net >= 0), retries := b.retries + 1, timeLeft := TIMEOUT)
  }

  /** A request for the next fragment. */
  function Advanced(b: Block, what: int32, net: int): Block
    requires Sized(b.f)
  {
    if !Finished(b.f) && what == MORE then Sent(b, net) else b
  }

  /** A final acknowledgement where no reply is waited for, or a reply of the message's own kind. */
  function Settled(b: Block, what: int32): Block {
    var c := if Finished(b.f) && what == DONE && !b.hasCompleted then Clear(b) else b;
    if Finished(c.f) && what == c.f.tag.what then
      Clear(c.(calls := c.calls + if c.hasCompleted then [Replied] else []))
    else c
  }

  /** A finished message of kind `what` has come in for this block. */
  function OnOutMessage(b: Block, what: int32, net: int): Block
    requires Sized(b.f)
  {
    Settled(Advanced(b, what, net), what)
  }

  /** The receiving loop hands a final acknowledgement on twice. */
  function Received(b: Block, what: int32, net: int): Block
    requires Sized(b.f)
  {
    if what == DONE then OnOutMessage(OnOutMessage(b, what, net), what, net) else OnOutMessage(b, what, net)
  }

  /** Handing it on twice is the same as handing it on once. */
  lemma DoneTwiceIsOnce(b: Block, net: int)
    requires Sized(b.f)
    ensures Received(b, DONE, net) == OnOutMessage(b, DONE, net)
  {
  }

  /** One visit of the update loop to this block. */
  function Visited(b: Block, net: int): Block
    requires Sized(b.f) && (b.status == Waiting ==> !Exhausted(b.f)) && (b.status == Sending ==> b.f.wire != [])
  {
    if b.status == Waiting then Sent(b, net)
    else if b.status == Sending && b.retries < MAX_RETRIES then
      var c := b.(timeLeft := b.timeLeft - 1);
      if c.timeLeft <= 0 then Resent(c, net) else c
    else if b.status == Sending then Resulted(b, -1)
    else b
  }

  /** The object starts over. */
  function Restarted(f: Freight): Freight {
    f.(obj := if f.obj.Some? then Some(Restart(f.obj.value)) else None)
  }

  /** The pool queues a message that waits for a reply or needs several datagrams, under a
      new uid, and its object starts over. */
  function Queued(b: Block, uid: int32): Block {
    b.(f := Restarted(b.f).(tag := b.f.tag.(uid := uid)), status := Waiting)
  }

  // ---- the canonical fragments ----

  /** How many packets of 10204 object bytes, the last one shorter, hold `size` bytes. */
  function Fragments(size: nat): nat {
    CeilDiv(size, 10204)
  }

  /** How many packets the message takes. */
  function AllFragments(f: Freight): nat {
    if f.obj.None? then 1 else Fragments(Size(f.obj.value))
  }

  /** Where the k-th of them begins. */
  function Boundary(k: nat, size: nat): nat {
    Min(10204 * k, size)
  }

  function DataSize(m: Content): nat {
    if m.data.Some? then |m.data.value| else 0
  }

  /** The k-th packet of a message. */
  function Fragment(m: Content, k: nat): Packet
    requires DataSize(m) < 0x8000_0000
  {
    if m.data.None? then Packet(HeaderOf(m, NO_OBJECT, false, 0, 0), [])
    else
      var n := |m.data.value|;
      var lo, hi := Boundary(k, n), Boundary(k + 1, n);
      Packet(HeaderOf(m, m.objType, k == 0, hi - lo, if k == 0 then n else lo), m.data.value[lo..hi])
  }

  /** Everything handed to the socket is a fragment: new sends go through the fragments in order
      from the first, and every other attempt repeats the one before it. */
  ghost predicate InOrder(m: Content, wire: seq<Attempt>)
    requires DataSize(m) < 0x8000_0000
  {
    && (wire != [] ==> wire[0].index == 0 && wire[0].isNew)
    && (forall j :: 0 <= j < |wire| ==> wire[j].packet == Fragment(m, wire[j].index))
    && (forall j :: 0 < j < |wire| ==> wire[j].index == wire[j - 1].index + if wire[j].isNew then 1 else 0)
  }

  /** Read position and log agree. */
  ghost predicate Aligned(f: Freight) {
    && Sized(f) && InOrder(ContentOf(f), f.wire) && NextIndex(f.wire) <= AllFragments(f)
    && (f.obj.Some? ==>
         var o := f.obj.value;
         && (o.data.None? ==> f.wire == [])
         && o.position == Boundary(NextIndex(f.wire), Size(o))
         && (f.wire == [] ==> o.mode == Unopened)
         && (f.wire != [] ==> o.mode == Reading && o.phase == Moving))
  }

  /** So do status and log. */
  ghost predicate Sound(b: Block) {
    && Aligned(b.f)
    && (b.f.wire != [] && b.hasCompleted ==> b.f.needReply)
    && (b.status == Waiting ==> b.f.wire == [])
    && (b.status == Sending ==> b.f.wire != [] && b.retries <= MAX_RETRIES && 1 <= b.timeLeft <= TIMEOUT)
  }

  ghost predicate SameMessage(f: Freight, g: Freight) {
    && g.tag == f.tag && g.objType == f.objType && g.hasIp == f.hasIp
    && g.obj.Some? == f.obj.Some? && (f.obj.Some? ==> g.obj.value.data == f.obj.value.data)
    && (f.wire != [] ==> ContentOf(g) == ContentOf(f))
  }

  /** A new attempt, with the next fragment, has been added to the log. */
  ghost predicate ShipStep(f: Freight, g: Freight, ok: bool) {
    && Aligned(g) && SameMessage(f, g)
    && |g.wire| == |f.wire| + 1 && g.wire[..|f.wire|] == f.wire
    && g.wire[|f.wire|].isNew && g.wire[|f.wire|].ok == ok && g.wire[|f.wire|].index == NextIndex(f.wire)
  }

  predicate HasBytes(f: Freight) {
    f.obj.Some? ==> Size(f.obj.value) > 0
  }

  /** What Serialize makes is the next fragment. */
  lemma SerializedIsNext(f: Freight)
    requires Aligned(f) && !Exhausted(f)
    ensures var (rc, obj, packet) := Serialized(f);
      && (rc < 0 <==> !HasBytes(f))
      && (rc >= 0 && f.obj.Some? ==>
            && packet == Fragment(ContentOf(f), NextIndex(f.wire))
            && obj.Some? && obj.value.data == f.obj.value.data
            && obj.value.position == Boundary(NextIndex(f.wire) + 1, Size(f.obj.value))
            && obj.value.mode == Reading && obj.value.phase == Moving)
      && (f.obj.None? ==> obj == None && packet == Fragment(ContentOf(f), 0))
  {
  }

  lemma NextFits(f: Freight)
    requires Aligned(f) && !Exhausted(f) && HasBytes(f) && (f.obj.None? ==> f.wire == [])
    ensures NextIndex(f.wire) < AllFragments(f)
  {
    if f.obj.Some? { CeilDivBounds(Size(f.obj.value), 10204, NextIndex(f.wire)); }
  }

  lemma ShippedSteps(f: Freight, ok: bool)
    requires Aligned(f) && !Exhausted(f) && HasBytes(f) && (f.obj.None? ==> f.wire == [])
    ensures ShipStep(f, Shipped(f, ok), ok)
  {
    SerializedIsNext(f);
    NextFits(f);
  }

  lemma RepeatedIsAligned(f: Freight, ok: bool)
    requires Aligned(f) && f.wire != []
    ensures Aligned(Repeated(f, ok))
  {
  }

  /** All that Send does, seen from outside. */
  ghost predicate SendStep(b: Block, r: Block, net: int) {
    && Sound(r) && SameMessage(b.f, r.f)
    && (if b.f.hasIp && HasBytes(b.f) then ShipStep(b.f, r.f, net >= 0)
        else r.f.wire == b.f.wire && r.f.obj == b.f.obj && r.status == Idle)
    && (if r.status == Sending then
          && net >= 0 && r.retries == 0 && r.timeLeft == TIMEOUT
          && r.calls == b.calls && r.hasCompleted == b.hasCompleted && r.hasRequest == b.hasRequest
          && (Finished(r.f) ==> r.f.needReply)
        else
          && r == Clear(r) && (net < 0 || Finished(r.f) || !r.f.hasIp)
          && r.calls == b.calls +
             (if !b.hasRequest then [] else [OnResult(if b.f.hasIp && HasBytes(b.f) then Min(net, 0) else -1)]))
  }

  lemma OpeningIsAligned(b: Block)
    requires Sound(b)
    ensures Aligned(Opening(b).f)
  {
    assert b.f.wire != [] ==> Opening(b).f.needReply == b.f.needReply;
  }

  lemma ConcludedSteps(b: Block, c: Block, net: int)
    requires b.f.hasIp && HasBytes(b.f) && ShipStep(b.f, c.f, net >= 0)
    requires c == b.(f := c.f, status := Sending) && (b.hasCompleted ==> c.f.needReply)
    ensures SendStep(b, Concluded(c, net), net)
  {
  }

  /** A new send that goes through SendBytes. */
  lemma ShippingSteps(b: Block, net: int)
    requires Sound(b) && !Exhausted(b.f) && (b.f.obj.None? ==> b.f.wire == []) && b.f.hasIp && HasBytes(b.f)
    ensures SendStep(b, Sent(b, net), net)
  {
    var c := Opening(b);
    OpeningIsAligned(b);
    SerializedIsNext(c.f);
    ShippedSteps(c.f, net >= 0);
    var g := Shipped(c.f, net >= 0);
    assert ShipStep(b.f, g, net >= 0);
    ConcludedSteps(b, c.(f := g), net);
  }

  lemma SentSteps(b: Block, net: int)
    requires Sound(b) && !Exhausted(b.f) && (b.f.obj.None? ==> b.f.wire == [])
    ensures SendStep(b, Sent(b, net), net)
  {
    if b.f.hasIp && HasBytes(b.f) {
      ShippingSteps(b, net);
    } else {
      OpeningIsAligned(b);
      SerializedIsNext(Opening(b).f);
    }
  }

  lemma SentNeedsReply(b: Block, net: int)
    requires Sized(b.f) && !Exhausted(b.f) && b.f.hasIp
    ensures Sent(b, net).f.needReply == (b.f.needReply || b.hasCompleted)
  {
    hide Serialized;
  }

  lemma AdvancedSteps(b: Block, what: int32, net: int)
    requires Sound(b)
    ensures var r := Advanced(b, what, net);
      Sound(r) && if !Finished(b.f) && what == MORE then SendStep(b, r, net) else r == b
  {
    if !Finished(b.f) && what == MORE { SentSteps(b, net); }
  }

  /** Settling either leaves the block alone or clears it, and then nothing is left to send. */
  ghost predicate SettleStep(b: Block, r: Block) {
    && Sound(r) && r.f == b.f
    && (r == b || (Finished(b.f) && r == Clear(b).(calls := r.calls)))
    && (r.calls == b.calls || (b.hasCompleted && r.calls == b.calls + [Replied]))
  }

  lemma SettledSteps(b: Block, what: int32)
    requires Sound(b)
    ensures SettleStep(b, Settled(b, what))
  {
  }

  lemma OnOutMessageIsSound(b: Block, what: int32, net: int)
    requires Sound(b)
    ensures Sound(OnOutMessage(b, what, net))
  {
    AdvancedSteps(b, what, net);
    SettledSteps(Advanced(b, what, net), what);
  }

  lemma WaitingIsNotExhausted(b: Block)
    requires Sound(b) && b.status == Waiting
    ensures !Exhausted(b.f)
  {
  }

  lemma ResentIsSound(b: Block, net: int)
    requires Aligned(b.f) && b.status == Sending && b.f.wire != [] && b.retries < MAX_RETRIES
    requires b.hasCompleted ==> b.f.needReply
    ensures Sound(Resent(b, net))
  {
    RepeatedIsAligned(b.f, net >= 0);
  }

  lemma VisitedIsSound(b: Block, net: int)
    requires Sound(b) && (b.status == Waiting ==> !Exhausted(b.f))
    ensures Sound(Visited(b, net))
  {
    if b.status == Waiting {
      SentSteps(b, net);
    } else if b.status == Sending && b.retries < MAX_RETRIES && b.timeLeft <= 1 {
      ResentIsSound(b.(timeLeft := b.timeLeft - 1), net);
    }
  }

  lemma QueuedIsSound(b: Block, uid: int32)
    requires Sized(b.f) && b.f.wire == []
    ensures Sound(Queued(b, uid))
  {
  }
}
