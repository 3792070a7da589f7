/** A message on its way in, one block per message, and the two ends together
    (robotbus/lib/MessageBlock.cpp, MessageSerializable.cpp). */
module InBlocks {
  import opened Basics
  import opened Wire
  import opened DataObjects
  import opened OutBlocks
  import opened OutRuns

  const UNKNOWN_TYPE := -23

  /** What a receiving block keeps between datagrams; no header before the first. */
  datatype Inbox = Inbox(header: Option<Header>, obj: Option<Obj>)

  const Empty := Inbox(None, None)

  /** The object that the payload is written to; a type the source does not know has none. */
  function Target(r: Inbox, objType: byte): Option<Obj> {
    if r.obj.Some? then r.obj
    else if objType == STRING_OBJECT || objType == BYTES_OBJECT then Some(Blank)
    else None
  }

  /** The payload is not looked at. */
  predicate NoPayload(p: Packet) {
    p.header.sizeOrPosition < 0 || p.header.objType == NO_OBJECT || p.header.count == 0
  }

  /** What the source demands of a datagram: that its object is not a file, and that the copy
      fits. */
  predicate Acceptable(r: Inbox, p: Packet) {
    NoPayload(p) ||
    (&& (r.obj.None? ==> p.header.objType != FILE_OBJECT)
     && var t := Target(r, p.header.objType);
        t.Some? ==> !Overruns(t.value, p.payload, p.header.sizeOrPosition, p.header.blockType == 1))
  }

  /** The code Deserialize returns. */
  function DeserializeCode(r: Inbox, p: Packet): int {
    if p.header.sizeOrPosition < 0 then p.header.sizeOrPosition
    else if NoPayload(p) then 0
    else
      var t := Target(r, p.header.objType);
      if t.None? then UNKNOWN_TYPE
      else WriteCode(t.value, p.payload, p.header.sizeOrPosition, p.header.blockType == 1)
  }

  function Deserialized(r: Inbox, p: Packet): Inbox
    requires Acceptable(r, p)
  {
    var s := r.(header := Some(p.header));
    var t := Target(r, p.header.objType);
    if NoPayload(p) || t.None? then s
    else s.(obj := Some(Written(t.value, p.payload, p.header.sizeOrPosition, p.header.blockType == 1)))
  }

  /** What a datagram is answered with when it is taken in: its own code if that is negative, 0 if there is nothing
      to write, -23 if there is no object and none of that type is known, and else what the object says, which
      is a new one if there was none. */
  lemma TakingInReturns(r: Inbox, p: Packet)
    requires Acceptable(r, p)
    ensures var h, s, rc := p.header, Deserialized(r, p), DeserializeCode(r, p);
      && s.header == Some(h)
      && if h.sizeOrPosition < 0 then rc == h.sizeOrPosition && s.obj == r.obj
         else if h.objType == 0 || h.count == 0 then rc == 0 && s.obj == r.obj
         else if r.obj.None? && h.objType != 2 && h.objType != 3 then rc == -23 && s.obj == r.obj
         else
           var o := if r.obj.Some? then r.obj.value else Obj(None, 0, Unopened, Fresh);
           && rc == WriteCode(o, p.payload, h.sizeOrPosition, h.blockType == 1)
           && s.obj == Some(Written(o, p.payload, h.sizeOrPosition, h.blockType == 1))
  {
  }

  predicate Whole(r: Inbox) {
    r.obj.None? || AtEnd(r.obj.value)
  }

  /** The receiver has the message. */
  predicate Arrived(r: Inbox, m: Content) {
    Whole(r) && r.obj.Some? && r.obj.value.data == m.data
  }

  predicate InFragments(r: Inbox) {
    r.obj.Some? && HEADER_SIZE + Size(r.obj.value) > MAX_PACKAGE
  }

  /** The acknowledgement to a datagram, after it has been taken in; small messages get none. */
  function Acknowledgement(r: Inbox, p: Packet, code: int): Option<Packet>
    requires 0 <= code < 0x100
  {
    if Whole(r) && !InFragments(r) then None
    else
      Some(Packet(Header(false, 0, p.header.uid, if Whole(r) then DONE else MORE, p.header.count, code,
                         NO_OBJECT, 0, 0, 0), []))
  }

  /** onRecv: the block after the datagram, the code, and what is sent back. */
  function OnRecv(r: Inbox, p: Packet): (Inbox, int, Option<Packet>)
    requires Acceptable(r, p)
  {
    var code := DeserializeCode(r, p);
    var s := Deserialized(r, p);
    (s, code, if code < 0 then None else Acknowledgement(s, p, code))
  }

  // ---- what arrives, in any order and number ----

  ghost predicate Transferable(m: Content) {
    && m.data.Some? && 0 < |m.data.value| < 0x8000_0000
    && (m.objType == BYTES_OBJECT || m.objType == STRING_OBJECT)
  }

  function AllOf(m: Content): nat {
    Fragments(DataSize(m))
  }

  /** The receiver as a counter: the fragment it waits for, 0 before the first. A first fragment
      starts over, the awaited one moves on, any other is ignored. */
  function Counted(p: nat, k: nat): nat {
    if k == 0 then 1 else if p == k then k + 1 else p
  }

  /** The receiver's object holds the first `p` fragments and room for the rest. */
  ghost predicate Holds(r: Inbox, m: Content, p: nat)
    requires Transferable(m)
  {
    if p == 0 then r.obj == None || r.obj == Some(Blank)
    else
      && p <= AllOf(m) && r.obj.Some?
      && var o := r.obj.value; var n := DataSize(m);
         && o.mode == Writing && o.data.Some? && Size(o) == n
         && o.position == Boundary(p, n)
         && o.data.value[..o.position] == m.data.value[..o.position]
  }

  lemma BoundaryOf(m: Content, k: nat)
    requires Transferable(m)
    ensures k < AllOf(m) ==> Boundary(k, DataSize(m)) == 10204 * k < DataSize(m)
    ensures k >= AllOf(m) ==> Boundary(k, DataSize(m)) == DataSize(m)
  {
    CeilDivBounds(DataSize(m), 10204, k);
  }

  lemma FirstFits(r: Inbox, m: Content, p: nat)
    requires Transferable(m) && Holds(r, m, p)
    ensures Acceptable(r, Fragment(m, 0))
    ensures Holds(OnRecv(r, Fragment(m, 0)).0, m, 1) && OnRecv(r, Fragment(m, 0)).1 == 1
  {
    BoundaryOf(m, 0);
    BoundaryOf(m, 1);
    var f := Fragment(m, 0);
    var o := OnRecv(r, f).0.obj.value;
    assert o.data.value[..o.position] == f.payload;
  }

  lemma LaterFits(r: Inbox, m: Content, p: nat, k: nat)
    requires Transferable(m) && Holds(r, m, p) && 0 < k < AllOf(m)
    ensures Acceptable(r, Fragment(m, k))
    ensures Holds(OnRecv(r, Fragment(m, k)).0, m, Counted(p, k))
    ensures OnRecv(r, Fragment(m, k)).1 ==
      if p == 0 then -2 else if p == AllOf(m) then 0 else if k < p then PAST else if k > p then AHEAD else 1
  {
    hide Acknowledgement;
    BoundaryOf(m, k);
    BoundaryOf(m, k + 1);
    BoundaryOf(m, p);
    var f := Fragment(m, k);
    if p == k {
      var a := m.data.value;
      var lo, hi := Boundary(k, |a|), Boundary(k + 1, |a|);
      var o := OnRecv(r, f).0.obj.value;
      assert o.data.value[..hi] == r.obj.value.data.value[..lo] + f.payload;
      assert a[..hi] == a[..lo] + a[lo..hi];
    }
  }

  /** One delivery: the copy stays inside, and the receiver goes on as the counter does. */
  lemma FragmentFits(r: Inbox, m: Content, p: nat, k: nat)
    requires Transferable(m) && Holds(r, m, p) && k < AllOf(m)
    ensures Acceptable(r, Fragment(m, k))
    ensures Holds(OnRecv(r, Fragment(m, k)).0, m, Counted(p, k))
  {
    if k == 0 { FirstFits(r, m, p); } else { LaterFits(r, m, p, k); }
  }

  function CountAll(p: nat, ks: seq<nat>): nat
    decreases |ks|
  {
    if ks == [] then p else CountAll(Counted(p, ks[0]), ks[1..])
  }

  /** The fragments with these numbers arrive one after the other. */
  function DeliverAll(r: Inbox, m: Content, p: nat, ks: seq<nat>): Inbox
    requires Transferable(m) && Holds(r, m, p)
    requires forall i :: 0 <= i < |ks| ==> ks[i] < AllOf(m)
    decreases |ks|
  {
    if ks == [] then r
    else
      FragmentFits(r, m, p, ks[0]);
      DeliverAll(OnRecv(r, Fragment(m, ks[0])).0, m, Counted(p, ks[0]), ks[1..])
  }

  /** End-to-end fragment safety. Any fragments of a message, lost, repeated and reordered at will,
      leave the receiver exactly where the counter is: no copy passes the end, the bytes before
      its position are the sender's, and it is complete if and only if the counter has
      reached the last fragment, and then holds the sender's bytes. */
  lemma {:induction false} FragmentSafety(r: Inbox, m: Content, p: nat, ks: seq<nat>)
    requires Transferable(m) && Holds(r, m, p)
    requires forall i :: 0 <= i < |ks| ==> ks[i] < AllOf(m)
    ensures var t := DeliverAll(r, m, p, ks); var q := CountAll(p, ks);
      && Holds(t, m, q)
      && (q > 0 ==> (Whole(t) <==> q == AllOf(m)) && (Whole(t) ==> t.obj.value.data == m.data))
    decreases |ks|
  {
    if ks == [] {
      BoundaryOf(m, p);
      if p > 0 && Whole(r) {
        assert r.obj.value.data.value == r.obj.value.data.value[..DataSize(m)];
        assert m.data.value == m.data.value[..DataSize(m)];
      }
    } else {
      FragmentFits(r, m, p, ks[0]);
      FragmentSafety(OnRecv(r, Fragment(m, ks[0])).0, m, Counted(p, ks[0]), ks[1..]);
    }
  }

  /** The wire carries what the receiver is told here: parsing a fragment's bytes gives the
      fragment back. */
  lemma FragmentSurvivesWire(m: Content, k: nat)
    requires DataSize(m) < 0x8000_0000
    ensures var p := Fragment(m, k); var d := Datagram(p.header, p.payload);
      && CheckType(d) && |d| == HEADER_SIZE + ParseHeader(d).count <= MAX_PACKAGE
      && Packet(ParseHeader(d), PayloadOf(d)) == p
  {
    var p := Fragment(m, k);
    DatagramRoundTrip(p.header, p.payload);
  }

  /** What the object is given of a datagram. */
  function Parsed(bytes: seq<byte>): Packet
    requires CheckType(bytes) && |bytes| == HEADER_SIZE + ParseHeader(bytes).count
  {
    Packet(ParseHeader(bytes), PayloadOf(bytes))
  }

  /** What a receiver makes of a datagram: one that the checks refuse, or whose copy would not fit, is
      not taken in. */
  predicate Fits(r: Inbox, d: seq<byte>) {
    CheckType(d) && |d| == HEADER_SIZE + ParseHeader(d).count && Acceptable(r, Parsed(d))
  }

  function TakeIn(r: Inbox, d: seq<byte>): Inbox {
    if Fits(r, d) then OnRecv(r, Parsed(d)).0 else r
  }

  function TakeAll(r: Inbox, ds: seq<seq<byte>>): Inbox
    decreases |ds|
  {
    if ds == [] then r else TakeAll(TakeIn(r, ds[0]), ds[1..])
  }

  predicate AllFit(r: Inbox, ds: seq<seq<byte>>)
    decreases |ds|
  {
    ds == [] || (Fits(r, ds[0]) && AllFit(TakeIn(r, ds[0]), ds[1..]))
  }

  /** The bytes of the fragments with these numbers. */
  function Datagrams(m: Content, ks: seq<nat>): seq<seq<byte>>
    requires DataSize(m) < 0x8000_0000
  {
    seq(|ks|, i requires 0 <= i < |ks| => BytesOf(Fragment(m, ks[i])))
  }

  /** Over the wire the fragments arrive as they are: all are accepted, and leave the receiver where
      the packets would. */
  lemma {:induction false} DatagramsAreFragments(r: Inbox, m: Content, p: nat, ks: seq<nat>)
    requires Transferable(m) && Holds(r, m, p) && forall i :: 0 <= i < |ks| ==> ks[i] < AllOf(m)
    ensures AllFit(r, Datagrams(m, ks)) && TakeAll(r, Datagrams(m, ks)) == DeliverAll(r, m, p, ks)
    decreases |ks|
  {
    hide OnRecv, Acceptable, Holds, Fragment, CheckType, ParseHeader, PayloadOf, Datagram, Counted;
    if ks != [] {
      var ds := Datagrams(m, ks);
      FragmentSurvivesWire(m, ks[0]);
      FragmentFits(r, m, p, ks[0]);
      assert ds[1..] == Datagrams(m, ks[1..]);
      DatagramsAreFragments(TakeIn(r, ds[0]), m, Counted(p, ks[0]), ks[1..]);
    }
  }

  /** The numbers of the packets that the channel chose from a sender's log. */
  function Picked(wire: seq<Attempt>, js: seq<nat>): seq<nat>
    requires forall i :: 0 <= i < |js| ==> js[i] < |wire|
  {
    seq(|js|, i requires 0 <= i < |js| => wire[js[i]].index)
  }

  lemma {:induction false} IndexBound(f: Freight, j: nat)
    requires Aligned(f) && j < |f.wire|
    ensures f.wire[j].index < NextIndex(f.wire)
    decreases |f.wire| - j
  {
    if j + 1 < |f.wire| { IndexBound(f, j + 1); }
  }

  /** Sender, channel and receiver together: whatever a sound sender has put on the wire and
      whatever the channel picks from it, the picked packets are fragments of its message, so
      FragmentSafety applies to them. */
  lemma PickedAreFragments(b: Block, js: seq<nat>)
    requires Sound(b) && Transferable(ContentOf(b.f))
    requires forall i :: 0 <= i < |js| ==> js[i] < |b.f.wire|
    ensures forall i :: 0 <= i < |js| ==>
      && Picked(b.f.wire, js)[i] < AllOf(ContentOf(b.f))
      && b.f.wire[js[i]].packet == Fragment(ContentOf(b.f), Picked(b.f.wire, js)[i])
  {
    forall i | 0 <= i < |js| ensures b.f.wire[js[i]].index < NextIndex(b.f.wire) {
      IndexBound(b.f, js[i]);
    }
  }

  /** The bytes of the packets that the channel chose. */
  function PickedBytes(wire: seq<Attempt>, js: seq<nat>): seq<seq<byte>>
    requires forall i :: 0 <= i < |js| ==> js[i] < |wire|
  {
    seq(|js|, i requires 0 <= i < |js| => BytesOf(wire[js[i]].packet))
  }

  /** A new receiver has the first `p` fragments, and the message if and only if these are all. */
  ghost predicate Reached(t: Inbox, m: Content, p: nat)
    requires Transferable(m)
  {
    Holds(t, m, p) && (p > 0 ==> (Whole(t) <==> p == AllOf(m)) && (Whole(t) ==> t.obj.value.data == m.data))
  }

  lemma PickedArrive(b: Block, js: seq<nat>)
    requires Sound(b) && Transferable(ContentOf(b.f)) && forall i :: 0 <= i < |js| ==> js[i] < |b.f.wire|
    ensures var m, ds := ContentOf(b.f), PickedBytes(b.f.wire, js);
      AllFit(Empty, ds) && Reached(TakeAll(Empty, ds), m, CountAll(0, Picked(b.f.wire, js)))
  {
    var m, ks := ContentOf(b.f), Picked(b.f.wire, js);
    PickedAreFragments(b, js);
    assert PickedBytes(b.f.wire, js) == Datagrams(m, ks);
    DatagramsAreFragments(Empty, m, 0, ks);
    FragmentSafety(Empty, m, 0, ks);
  }

  /** End to end: a message is queued and runs through any acknowledgements and visits, and the
      channel hands a new receiver the bytes of any of the packets put on the wire, in any order and
      number. Every datagram is accepted and no copy leaves the data; the receiver then has the counted
      part of the message, and all of it if and only if it is whole. */
  lemma EndToEnd(b: Block, uid: int32, es: seq<Event>, js: seq<nat>)
    requires Sized(b.f) && b.f.wire == [] && Transferable(ContentOf(b.f))
    requires Sound(Queued(b, uid))
    requires var w := Run(Line(Queued(b, uid), true), es).b.f.wire; forall i :: 0 <= i < |js| ==> js[i] < |w|
    ensures var f := Run(Line(Queued(b, uid), true), es).b.f;
      var m, ds := ContentOf(f), PickedBytes(f.wire, js);
      && Transferable(m) && m.data == ContentOf(b.f).data
      && AllFit(Empty, ds) && Reached(TakeAll(Empty, ds), m, CountAll(0, Picked(f.wire, js)))
  {
    var q := Line(Queued(b, uid), true);
    RunKeepsMessage(q, es);
    PickedArrive(Run(q, es).b, js);
  }

  // ---- a transfer without loss ----

  /** The sender has put out fragments 0 to k, each once, and the receiver waits for the last. */
  ghost predicate InStep(b: Block, r: Inbox, m: Content, k: nat) {
    && Sound(b) && b.f.hasIp && b.f.obj.Some? && ContentOf(b.f) == m
    && Transferable(m) && DataSize(m) > CHUNK && k < AllOf(m)
    && |b.f.wire| == NextIndex(b.f.wire) == k + 1
    && Holds(r, m, k)
  }

  function LastPacket(b: Block): Packet
    requires b.f.wire != []
  {
    b.f.wire[|b.f.wire| - 1].packet
  }

  /** The sender's side of a round but the last. */
  lemma SenderGoesOn(b: Block, r: Inbox, m: Content, k: nat)
    requires InStep(b, r, m, k) && k + 1 < AllOf(m)
    ensures var c := Received(b, MORE, 0);
      && Sound(c) && c.f.hasIp && c.f.obj.Some? && ContentOf(c.f) == m
      && |c.f.wire| == NextIndex(c.f.wire) == k + 2
      && (!b.hasCompleted ==> !c.hasCompleted)
  {
    hide Fragment;
    BoundaryOf(m, k + 1);
    AdvancedSteps(b, MORE, 0);
    var a := Advanced(b, MORE, 0);
    assert SendStep(b, a, 0);
    SettledSteps(a, MORE);
    assert Settled(a, MORE).f == a.f;
  }

  /** And in the last. */
  lemma SenderIsDone(b: Block, r: Inbox, m: Content, k: nat)
    requires InStep(b, r, m, k) && k + 1 == AllOf(m)
    ensures var c := Received(b, DONE, 0); c.f == b.f && (!b.hasCompleted ==> c.status == Idle)
  {
    BoundaryOf(m, k + 1);
    DoneTwiceIsOnce(b, 0);
    SettledSteps(b, DONE);
  }

  /** The receiver's side of a round. */
  lemma ReceiverSteps(r: Inbox, m: Content, k: nat)
    requires Transferable(m) && DataSize(m) > CHUNK && k < AllOf(m) && Holds(r, m, k)
    ensures var p := Fragment(m, k);
      && Acceptable(r, p) && Holds(OnRecv(r, p).0, m, k + 1)
      && OnRecv(r, p).2.Some?
      && OnRecv(r, p).2.value.header.what == (if k + 1 == AllOf(m) then DONE else MORE)
      && OnRecv(r, p).2.value.header.peerUid == m.tag.uid
      && (k + 1 == AllOf(m) ==> Whole(OnRecv(r, p).0) && OnRecv(r, p).0.obj.value.data == m.data)
  {
    FragmentFits(r, m, k, k);
    if k == 0 { FirstFits(r, m, 0); } else { LaterFits(r, m, k, k); }
    FragmentSafety(OnRecv(r, Fragment(m, k)).0, m, k + 1, []);
  }

  /** One round: the sender's last packet arrives, and the acknowledgement that is third here
      comes back. */
  function Round(b: Block, r: Inbox): (Block, Inbox, int32)
    requires Sound(b) && b.f.wire != [] && Acceptable(r, LastPacket(b)) && OnRecv(r, LastPacket(b)).2.Some?
  {
    var (s, code, reply) := OnRecv(r, LastPacket(b));
    (Received(b, reply.value.header.what, 0), s, reply.value.header.what)
  }

  /** What the k-th round leads to. */
  ghost predicate RoundLeadsTo(b: Block, m: Content, k: nat, c: Block, s: Inbox, ack: int32) {
    if k + 1 < AllOf(m) then
      InStep(c, s, m, k + 1) && ack == MORE && (!b.hasCompleted ==> !c.hasCompleted)
    else
      && ack == DONE && c.f == b.f && (!b.hasCompleted ==> c.status == Idle)
      && Whole(s) && s.obj.Some? && s.obj.value.data == m.data
  }

  lemma RoundInStep(b: Block, r: Inbox, m: Content, k: nat)
    requires InStep(b, r, m, k)
    ensures Acceptable(r, LastPacket(b)) && OnRecv(r, LastPacket(b)).2.Some?
    ensures RoundLeadsTo(b, m, k, Round(b, r).0, Round(b, r).1, Round(b, r).2)
  {
    assert LastPacket(b) == Fragment(m, k);
    if k + 1 < AllOf(m) { SenderGoesOn(b, r, m, k); } else { SenderIsDone(b, r, m, k); }
    ReceiverSteps(r, m, k);
  }

  /** Rounds of a lossless channel, with their acknowledgements, until one makes the sender say
      nothing more. */
  ghost function Transfer(b: Block, r: Inbox, m: Content, k: nat): (Block, Inbox, seq<int32>)
    requires InStep(b, r, m, k)
    decreases AllOf(m) - k
  {
    RoundInStep(b, r, m, k);
    var (c, s, ack) := Round(b, r);
    if |c.f.wire| == |b.f.wire| then (c, s, [ack])
    else
      var rest := Transfer(c, s, m, k + 1);
      (rest.0, rest.1, [ack] + rest.2)
  }

  ghost predicate Delivered(m: Content, waits: bool, c: Block, s: Inbox, acks: seq<int32>, n: nat) {
    && |acks| == n && (forall i :: 0 <= i < n ==> acks[i] == if i == n - 1 then DONE else MORE)
    && |c.f.wire| == AllOf(m)
    && Whole(s) && s.obj.Some? && s.obj.value.data == m.data
    && (!waits ==> c.status == Idle)
  }

  lemma OneMoreAcknowledged(m: Content, waits: bool, waited: bool, c: Block, s: Inbox, acks: seq<int32>, n: nat)
    requires Delivered(m, waits, c, s, acks, n) && n > 0 && (!waited ==> !waits)
    ensures Delivered(m, waited, c, s, [MORE] + acks, n + 1)
  {
  }

  lemma {:induction false} TransferDelivers(b: Block, r: Inbox, m: Content, k: nat)
    requires InStep(b, r, m, k)
    ensures var (c, s, acks) := Transfer(b, r, m, k); Delivered(m, b.hasCompleted, c, s, acks, AllOf(m) - k)
    decreases AllOf(m) - k
  {
    RoundInStep(b, r, m, k);
    var (c, s, ack) := Round(b, r);
    if k + 1 < AllOf(m) {
      TransferDelivers(c, s, m, k + 1);
      var rest := Transfer(c, s, m, k + 1);
      OneMoreAcknowledged(m, c.hasCompleted, b.hasCompleted, rest.0, rest.1, rest.2, AllOf(m) - k - 1);
      assert Transfer(b, r, m, k) == (rest.0, rest.1, [MORE] + rest.2);
    } else {
      assert Transfer(b, r, m, k) == (c, s, [DONE]);
    }
  }

  lemma FirstVisitInStep(b: Block, uid: int32)
    requires b.f.wire == [] && b.f.hasIp && Sized(b.f) && b.f.obj.Some?
    requires Transferable(ContentOf(b.f)) && Size(b.f.obj.value) > CHUNK
    ensures Sized(Queued(b, uid).f) && !Exhausted(Queued(b, uid).f)
    ensures var b1 := Visited(Queued(b, uid), 0);
      && InStep(b1, Empty, ContentOf(b1.f), 0)
      && ContentOf(b1.f).data == b.f.obj.value.data && (!b.hasCompleted ==> !b1.hasCompleted)
  {
    var q := Queued(b, uid);
    QueuedIsSound(b, uid);
    SentSteps(q, 0);
    BoundaryOf(ContentOf(Visited(q, 0).f), 0);
  }

  /** Lock-step transfer: a queued message of n > 10204 bytes, to an empty receiver over a channel
      that loses nothing, takes exactly ceil(n / 10204) datagrams, is answered by 0x8FFE to all
      but the last and 0x8FFF to the last, and leaves the receiver with the sender's bytes;
      a sender that waits for no reply is idle then. */
  lemma LockStepTransfer(b: Block, uid: int32)
    requires b.f.wire == [] && b.f.hasIp && Sized(b.f) && b.f.obj.Some?
    requires Transferable(ContentOf(b.f)) && Size(b.f.obj.value) > CHUNK
    ensures Sized(Queued(b, uid).f) && !Exhausted(Queued(b, uid).f)
    ensures var b1 := Visited(Queued(b, uid), 0);
      InStep(b1, Empty, ContentOf(b1.f), 0)
      && var (c, s, acks) := Transfer(b1, Empty, ContentOf(b1.f), 0);
         && |acks| == |c.f.wire| == CeilDiv(Size(b.f.obj.value), 10204)
         && (forall i :: 0 <= i < |acks| ==> acks[i] == if i == |acks| - 1 then 0x8FFF else 0x8FFE)
         && Whole(s) && s.obj.Some? && s.obj.value.data == b.f.obj.value.data
         && (!b.hasCompleted ==> c.status == Idle)
  {
    FirstVisitInStep(b, uid);
    var b1 := Visited(Queued(b, uid), 0);
    TransferDelivers(b1, Empty, ContentOf(b1.f), 0);
  }
}
