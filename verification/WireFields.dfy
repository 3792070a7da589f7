/** What the bytes of a datagram say, byte by byte: every packet that a queued message puts on the wire
    carries the message's own number, kind, value, extension and reply flag, and its part of the object
    (robotbus/lib/MessageSerializable.cpp:37-150), and an acknowledgement what it acknowledges
    (robotbus/lib/MessageBlock.cpp:143-166). */
module WireFields {
  import opened Basics
  import opened Wire
  import opened DataObjects
  import opened OutBlocks
  import opened OutRuns
  import opened InBlocks

  /** Four bytes, the low one first, are the 32 bits of x. */
  predicate Says(bytes: seq<byte>, i: nat, x: int32) {
    && i + 4 <= |bytes|
    && bytes[i] as int + 0x100 * bytes[i + 1] as int + 0x1_0000 * bytes[i + 2] as int + 0x100_0000 * bytes[i + 3] as int
       == if x < 0 then x + 0x1_0000_0000 else x
  }

  lemma Le32Says(x: int32)
    ensures Says(Le32(x), 0, x)
  {
    var u := Bits(x);
    assert u / 0x1_0000 == u / 0x100 / 0x100;
    assert u / 0x100_0000 == u / 0x1_0000 / 0x100;
  }

  lemma SliceSays(bytes: seq<byte>, i: nat, x: int32)
    requires i + 4 <= |bytes| && bytes[i..i + 4] == Le32(x)
    ensures Says(bytes, i, x)
  {
    Le32Says(x);
    var s := bytes[i..i + 4];
    assert s[0] == bytes[i] && s[1] == bytes[i + 1] && s[2] == bytes[i + 2] && s[3] == bytes[i + 3];
  }

  /** The layout of a header. */
  predicate Lays(bytes: seq<byte>, h: Header) {
    && |bytes| >= 36 && bytes[0] == 0x4D && bytes[1] == 0x53 && bytes[2] == 0x60
    && bytes[3] == (if h.needReply then 1 else 0)
    && Says(bytes, 4, h.uid) && Says(bytes, 8, h.peerUid) && Says(bytes, 12, h.what)
    && Says(bytes, 16, h.value) && Says(bytes, 20, h.extend)
    && bytes[24] == h.objType && bytes[25] == h.blockType
    && bytes[26] == bytes[27] == bytes[28] == bytes[29] == 0
    && bytes[30] as int + 0x100 * bytes[31] as int == h.count
    && Says(bytes, 32, h.sizeOrPosition)
  }

  lemma DatagramLays(p: Packet)
    ensures Lays(BytesOf(p), p.header) && BytesOf(p)[36..] == p.payload && |BytesOf(p)| == 36 + |p.payload|
  {
    var h, s, d := p.header, HeaderBytes(p.header), BytesOf(p);
    HeaderSlices(h);
    hide Le32;
    assert forall i :: 0 <= i < 36 ==> d[i] == s[i];
    assert d[4..8] == s[4..8] && d[8..12] == s[8..12] && d[12..16] == s[12..16];
    assert d[16..20] == s[16..20] && d[20..24] == s[20..24] && d[32..36] == s[32..36];
    SliceSays(d, 4, h.uid);
    SliceSays(d, 8, h.peerUid);
    SliceSays(d, 12, h.what);
    SliceSays(d, 16, h.value);
    SliceSays(d, 20, h.extend);
    SliceSays(d, 32, h.sizeOrPosition);
  }

  // ---- the packets of a message ----

  /** The message's own fields. */
  predicate Carries(bytes: seq<byte>, tag: Tag, needReply: bool) {
    && |bytes| >= 36 && bytes[0] == 0x4D && bytes[1] == 0x53 && bytes[2] == 0x60
    && bytes[3] == (if needReply then 1 else 0)
    && Says(bytes, 4, tag.uid) && Says(bytes, 8, tag.peerUid) && Says(bytes, 12, tag.what)
    && Says(bytes, 16, tag.value) && Says(bytes, 20, tag.extend)
  }

  /** The k-th 10204 bytes of an object, or what is left there; the first say how many there are in all and the
      others where they belong. */
  predicate CarriesPart(bytes: seq<byte>, objType: byte, data: seq<byte>, k: nat)
    requires |data| < 0x8000_0000
  {
    && |bytes| >= 36 && bytes[24] == objType && bytes[25] == (if k == 0 then 1 else 0)
    && 10204 * k < |data|
    && var n := if |data| - 10204 * k < 10204 then |data| - 10204 * k else 10204;
       && bytes[30] as int + 0x100 * bytes[31] as int == n
       && Says(bytes, 32, if k == 0 then |data| else 10204 * k)
       && bytes[36..] == data[10204 * k..10204 * k + n]
  }

  predicate CarriesNothing(bytes: seq<byte>) {
    |bytes| == 36 && forall i :: 24 <= i < 36 ==> bytes[i] == 0
  }

  lemma ZeroIsZeros(bytes: seq<byte>, i: nat)
    requires Says(bytes, i, 0)
    ensures bytes[i] == bytes[i + 1] == bytes[i + 2] == bytes[i + 3] == 0
  {
  }

  lemma PlainFragment(m: Content)
    requires m.data.None?
    ensures var d := BytesOf(Fragment(m, 0)); Carries(d, m.tag, m.needReply) && CarriesNothing(d)
  {
    var p := Fragment(m, 0);
    DatagramLays(p);
    hide BytesOf;
    ZeroIsZeros(BytesOf(p), 32);
  }

  lemma PartOfObject(m: Content, k: nat)
    requires m.data.Some? && |m.data.value| < 0x8000_0000 && 10204 * k < |m.data.value|
    ensures var d := BytesOf(Fragment(m, k));
      Carries(d, m.tag, m.needReply) && CarriesPart(d, m.objType, m.data.value, k)
  {
    DatagramLays(Fragment(m, k));
    hide BytesOf;
  }

  lemma LoggedIsInside(b: Block, j: nat)
    requires Sound(b) && j < |b.f.wire|
    ensures b.f.wire[j].packet == Fragment(ContentOf(b.f), b.f.wire[j].index)
    ensures b.f.obj.Some? ==> b.f.obj.value.data.Some? && 10204 * b.f.wire[j].index < |b.f.obj.value.data.value|
    ensures b.f.obj.None? ==> b.f.wire[j].index == 0
  {
    IndexBound(b.f, j);
    if b.f.obj.Some? { CeilDivBounds(Size(b.f.obj.value), 10204, b.f.wire[j].index); }
  }

  /** Every packet in the log of a block carries the fields and the object of the block. */
  lemma LoggedCarries(b: Block, j: nat)
    requires Sound(b) && j < |b.f.wire|
    ensures var d, k := BytesOf(b.f.wire[j].packet), b.f.wire[j].index;
      && Carries(d, b.f.tag, b.f.needReply)
      && if b.f.obj.None? then CarriesNothing(d)
         else b.f.obj.value.data.Some? && CarriesPart(d, b.f.objType, b.f.obj.value.data.value, k)
  {
    LoggedIsInside(b, j);
    hide Sound, BytesOf, Fragment, Carries, CarriesPart, CarriesNothing;
    var m := ContentOf(b.f);
    if b.f.obj.None? { PlainFragment(m); } else { PartOfObject(m, b.f.wire[j].index); }
  }

  // ---- in every run ----

  /** Nothing can be sent any more of a message of which nothing has been sent. */
  predicate Hopeless(b: Block) {
    b.status != Waiting && (Finished(b.f) || !b.f.hasIp)
  }

  /** A reply is asked for from the first packet on if the message asked for it or has a callback. */
  predicate Asks(b: Block, needReply: bool, hasCompleted: bool) {
    if b.f.wire != [] then b.f.needReply == (needReply || hasCompleted)
    else (b.f.needReply == needReply && b.hasCompleted == hasCompleted) || Hopeless(b)
  }

  lemma SendAsks(b: Block, net: int, needReply: bool, hasCompleted: bool)
    requires Sound(b) && !Exhausted(b.f) && (b.f.obj.None? ==> b.f.wire == []) && Asks(b, needReply, hasCompleted)
    requires b.status == Waiting || !Finished(b.f)
    ensures Asks(Sent(b, net), needReply, hasCompleted)
  {
    SentSteps(b, net);
    if b.f.hasIp { SentNeedsReply(b, net); }
    hide Sent, Aligned;
  }

  lemma IncomingAsks(b: Block, what: int32, net: int, needReply: bool, hasCompleted: bool)
    requires Sound(b) && Asks(b, needReply, hasCompleted)
    ensures Asks(OnOutMessage(b, what, net), needReply, hasCompleted)
  {
    if !Finished(b.f) && what == MORE { SendAsks(b, net, needReply, hasCompleted); }
    AdvancedSteps(b, what, net);
    SettledSteps(Advanced(b, what, net), what);
  }

  lemma VisitAsks(b: Block, net: int, needReply: bool, hasCompleted: bool)
    requires Sound(b) && Asks(b, needReply, hasCompleted) && (b.status == Waiting ==> !Exhausted(b.f))
    ensures Asks(Visited(b, net), needReply, hasCompleted)
  {
    if b.status == Waiting { SendAsks(b, net, needReply, hasCompleted); }
  }

  lemma {:induction false} RunAsks(l: Line, es: seq<Event>, needReply: bool, hasCompleted: bool)
    requires Sound(l.b) && Asks(l.b, needReply, hasCompleted)
    ensures Asks(Run(l, es).b, needReply, hasCompleted)
    decreases |es|
  {
    if es != [] {
      if l.queued {
        match es[0]
        case Incoming(what, net) =>
          IncomingAsks(l.b, what, net, needReply, hasCompleted);
          DoneTwiceIsOnce(l.b, net);
        case Visit(net) =>
          VisitedIsSound(l.b, net);
          VisitAsks(l.b, net, needReply, hasCompleted);
      }
      RunAsks(Apply(l, es[0]), es[1..], needReply, hasCompleted);
    }
  }

  /** In every run of a message each packet on the wire says, in its bytes, the number it was queued under, its
      peer's number, kind, value and extension, whether a reply is asked for, and its part of the object. */
  lemma RunCarries(b: Block, uid: int32, es: seq<Event>, j: nat)
    requires Sized(b.f) && b.f.wire == []
    ensures Sound(Queued(b, uid))
    ensures var w := Run(Line(Queued(b, uid), true), es).b.f.wire;
      j < |w| ==>
        var d := BytesOf(w[j].packet);
        && Carries(d, b.f.tag.(uid := uid), b.f.needReply || b.hasCompleted)
        && if b.f.obj.None? then CarriesNothing(d)
           else b.f.obj.value.data.Some? && CarriesPart(d, b.f.objType, b.f.obj.value.data.value, w[j].index)
  {
    QueuedIsSound(b, uid);
    var l := Line(Queued(b, uid), true);
    assert Asks(l.b, b.f.needReply, b.hasCompleted);
    RunAsks(l, es, b.f.needReply, b.hasCompleted);
    RunKeepsMessage(l, es);
    hide Run, Sound, BytesOf, Carries, CarriesPart, CarriesNothing;
    var c := Run(l, es).b;
    if j < |c.f.wire| { LoggedCarries(c, j); }
  }

  // ---- what the receiver reads ----

  /** The receiving block has the sender's fields. */
  predicate Reads(r: Inbox, tag: Tag, needReply: bool) {
    && r.header.Some? && r.header.value.needReply == needReply
    && r.header.value.uid == tag.uid && r.header.value.peerUid == tag.peerUid
    && r.header.value.what == tag.what && r.header.value.value == tag.value && r.header.value.extend == tag.extend
  }

  lemma PacketIsTakenIn(r: Inbox, p: Packet)
    requires p.header.count == |p.payload| <= CHUNK && Acceptable(r, p)
    ensures Fits(r, BytesOf(p)) && TakeIn(r, BytesOf(p)) == OnRecv(r, p).0
  {
    DatagramRoundTrip(p.header, p.payload);
    hide Datagram, ParseHeader, OnRecv, Acceptable;
  }

  lemma HeaderIsKept(r: Inbox, p: Packet, tag: Tag, needReply: bool)
    requires Acceptable(r, p) && p.header.needReply == needReply
    requires Tag(p.header.uid, p.header.peerUid, p.header.what, p.header.value, p.header.extend) == tag
    ensures Reads(OnRecv(r, p).0, tag, needReply)
  {
    hide Written;
  }

  lemma FragmentIsTakenIn(r: Inbox, m: Content, p: nat, k: nat)
    requires Transferable(m) && Holds(r, m, p) && k < AllOf(m)
    ensures var d := BytesOf(Fragment(m, k));
      Fits(r, d) && Holds(TakeIn(r, d), m, Counted(p, k)) && Reads(TakeIn(r, d), m.tag, m.needReply)
  {
    FragmentFits(r, m, p, k);
    PacketIsTakenIn(r, Fragment(m, k));
    HeaderIsKept(r, Fragment(m, k), m.tag, m.needReply);
    hide BytesOf, OnRecv, Holds, Fragment, Reads, Fits, TakeIn;
  }

  lemma {:induction false} FragmentsAreRead(r: Inbox, m: Content, p: nat, ks: seq<nat>)
    requires Transferable(m) && Holds(r, m, p) && forall i :: 0 <= i < |ks| ==> ks[i] < AllOf(m)
    requires ks != [] || Reads(r, m.tag, m.needReply)
    ensures Reads(TakeAll(r, Datagrams(m, ks)), m.tag, m.needReply)
    decreases |ks|
  {
    hide BytesOf, Fragment, Reads, Fits, Holds, TakeIn, Counted;
    if ks != [] {
      var ds := Datagrams(m, ks);
      FragmentIsTakenIn(r, m, p, ks[0]);
      assert ds[0] == BytesOf(Fragment(m, ks[0])) && ds[1..] == Datagrams(m, ks[1..]);
      FragmentsAreRead(TakeIn(r, ds[0]), m, Counted(p, ks[0]), ks[1..]);
    }
  }

  /** From end to end: whatever run a message goes through, as soon as a new receiver has been handed the bytes of
      any of its packets, it has the message's number, kind, value and extension, and knows whether a reply
      is asked for. */
  lemma FieldsArrive(b: Block, uid: int32, es: seq<Event>, js: seq<nat>)
    requires Sized(b.f) && b.f.wire == [] && Transferable(ContentOf(b.f)) && js != []
    requires Sound(Queued(b, uid))
    requires var w := Run(Line(Queued(b, uid), true), es).b.f.wire; forall i :: 0 <= i < |js| ==> js[i] < |w|
    ensures var w := Run(Line(Queued(b, uid), true), es).b.f.wire;
      Reads(TakeAll(Empty, PickedBytes(w, js)), b.f.tag.(uid := uid), b.f.needReply || b.hasCompleted)
  {
    var l := Line(Queued(b, uid), true);
    assert Asks(l.b, b.f.needReply, b.hasCompleted);
    RunAsks(l, es, b.f.needReply, b.hasCompleted);
    RunKeepsMessage(l, es);
    hide Run, Sound, Reads, TakeAll, BytesOf;
    var c := Run(l, es).b;
    PickedAreFragments(c, js);
    assert PickedBytes(c.f.wire, js) == Datagrams(ContentOf(c.f), Picked(c.f.wire, js));
    assert js[0] < |c.f.wire|;
    FragmentsAreRead(Empty, ContentOf(c.f), 0, Picked(c.f.wire, js));
  }

  lemma PlainIsRead(m: Content)
    requires m.data.None?
    ensures var r := TakeIn(Empty, BytesOf(Fragment(m, 0))); Reads(r, m.tag, m.needReply) && r.obj.None?
  {
    PacketIsTakenIn(Empty, Fragment(m, 0));
    HeaderIsKept(Empty, Fragment(m, 0), m.tag, m.needReply);
    hide BytesOf, Fits, TakeIn, Reads;
  }

  /** A message without an object is one datagram, which is the whole message at once. */
  lemma PlainArrives(b: Block, uid: int32, es: seq<Event>, j: nat)
    requires b.f.wire == [] && b.f.obj.None?
    ensures Sound(Queued(b, uid))
    ensures var w := Run(Line(Queued(b, uid), true), es).b.f.wire;
      j < |w| ==>
        var r := TakeIn(Empty, BytesOf(w[j].packet));
        Reads(r, b.f.tag.(uid := uid), b.f.needReply || b.hasCompleted) && r.obj.None?
  {
    QueuedIsSound(b, uid);
    var l := Line(Queued(b, uid), true);
    assert Asks(l.b, b.f.needReply, b.hasCompleted);
    RunAsks(l, es, b.f.needReply, b.hasCompleted);
    RunKeepsMessage(l, es);
    hide Run, Sound, BytesOf, Fragment, TakeIn, Reads;
    var c := Run(l, es).b;
    if j < |c.f.wire| {
      LoggedIsInside(c, j);
      PlainIsRead(ContentOf(c.f));
    }
  }

  // ---- acknowledgements ----

  /** A datagram that was taken in without an error is acknowledged unless it makes a message of at most
      10240 bytes whole; the acknowledgement names the message, says whether more is asked for, and gives
      back the number of bytes and the code. */
  lemma AcknowledgementSays(r: Inbox, p: Packet)
    requires Acceptable(r, p)
    ensures var (s, code, ack) := OnRecv(r, p);
      var size := if s.obj.Some? && s.obj.value.data.Some? then |s.obj.value.data.value| else 0;
      var whole := s.obj.None? || s.obj.value.position >= size;
      && (ack.Some? <==> code >= 0 && !(whole && size <= 10204))
      && (ack.Some? ==>
           var d := BytesOf(ack.value);
           && |d| == 36 && d[0] == 0x4D && d[1] == 0x53 && d[2] == 0x60 && d[3] == 0
           && Says(d, 4, 0) && Says(d, 8, p.header.uid) && Says(d, 12, if whole then 0x8FFF else 0x8FFE)
           && Says(d, 16, p.header.count) && code < 0x8000_0000 && Says(d, 20, code)
           && forall i :: 24 <= i < 36 ==> d[i] == 0)
  {
    var (s, code, ack) := OnRecv(r, p);
    if ack.Some? {
      DatagramLays(ack.value);
      hide BytesOf, Written;
      ZeroIsZeros(BytesOf(ack.value), 32);
    }
  }
}
