/** Everything that arrives, acknowledgement or not: onReceiveMessage as a whole
    (robotbus/lib/MessagePool.cpp:174-250). A datagram whose own number and address are those of a queued
    message is taken in by that message's block, which is harmless only if it says what the block does; and
    every other datagram gets a block of its own, so that no message of several datagrams is put
    together again. */
module Arrivals {
  import opened Basics
  import opened Wire
  import opened DataObjects
  import opened OutBlocks
  import opened InBlocks
  import OutPools
  import OutRuns

  // ---- a block that takes in a foreign datagram ----

  /** The block's own object, as the receiving side sees it. */
  function AsInbox(f: Freight): Inbox {
    Inbox(None, f.obj)
  }

  /** Deserialize overwrites the header fields, and writes to the object. */
  function Taken(f: Freight, p: Packet): Freight
    requires Acceptable(AsInbox(f), p)
  {
    var h := p.header;
    var obj := Deserialized(AsInbox(f), p).obj;
    f.(tag := Tag(h.uid, h.peerUid, h.what, h.value, h.extend), needReply := h.needReply, obj := obj,
       objType := if f.obj.None? && obj.Some? then h.objType else f.objType)
  }

  /** The block after the datagram: `ack` is what the socket returns for the acknowledgement, if there is
      one. A block that is finished hands itself on, if it names its own number, and is cleared. */
  function Struck(b: Block, p: Packet, ack: int, net: int): Block
    requires Sized(b.f) && Acceptable(AsInbox(b.f), p) && Sized(Taken(b.f, p))
  {
    var c := b.(f := Taken(b.f, p));
    if DeserializeCode(AsInbox(b.f), p) < 0 || !Finished(c.f) || (NeedsFragments(c.f) && ack < 0) then c
    else if p.header.peerUid == p.header.uid != 0 then Clear(OnOutMessage(c, p.header.what, net))
    else Clear(c)
  }

  /** The datagram says of its message what the block says of its own. */
  predicate SaysTheSame(f: Freight, h: Header) {
    h.needReply == f.needReply && Tag(h.uid, h.peerUid, h.what, h.value, h.extend) == f.tag
  }

  /** An object that is being read is not written to. */
  lemma ReadIsNotWritten(f: Freight, p: Packet)
    requires f.obj.Some? && f.obj.value.mode == Reading
    ensures Acceptable(AsInbox(f), p) && Taken(f, p).obj == f.obj
    ensures DeserializeCode(AsInbox(f), p) >= 0 ==> NoPayload(p)
  {
  }

  /** A block of which something has been sent keeps its content if and only if the datagram says the
      same. */
  lemma StruckIsHarmlessIff(b: Block, p: Packet, ack: int, net: int)
    requires Sound(b) && b.f.wire != [] && b.f.obj.Some? && !Finished(b.f)
    ensures Acceptable(AsInbox(b.f), p) && Sized(Taken(b.f, p))
    ensures var c := Struck(b, p, ack, net);
      && c == b.(f := Taken(b.f, p)) && c.f.wire == b.f.wire && c.f.obj == b.f.obj
      && (ContentOf(c.f) == ContentOf(b.f) <==> SaysTheSame(b.f, p.header))
      && (SaysTheSame(b.f, p.header) ==> c == b)
  {
    ReadIsNotWritten(b.f, p);
  }

  /** The first chunk of another message that reaches a message still to be sent opens its object for
      writing, and the message ends unsent. */
  lemma WaitingIsLost(b: Block, p: Packet, ack: int, net: int)
    requires Sound(b) && b.status == Waiting && b.f.obj.Some? && !NoPayload(p) && p.payload != []
    requires p.header.blockType == 1 && |p.payload| <= p.header.sizeOrPosition
    ensures Acceptable(AsInbox(b.f), p) && Sized(Taken(b.f, p))
    ensures var c := Struck(b, p, ack, net);
      && c.f.wire == [] && c.f.obj.Some? && c.f.obj.value.mode == Writing
      && (c.status == Waiting && !Exhausted(c.f) ==>
            Visited(c, net).status == Idle && Visited(c, net).f.wire == [])
  {
  }

  // ---- a message of which two halves do not go together ----

  /** A datagram without an object, from a peer that numbers its messages the same way. */
  function Stray(uid: int32): Packet {
    Packet(Header(false, uid, 0, 2, 0, 0, NO_OBJECT, 0, 0, 0), [])
  }

  /** No message has these packets. */
  ghost predicate NoMessage(w: seq<Attempt>) {
    forall m: Content :: DataSize(m) < 0x8000_0000 ==> !InOrder(m, w)
  }

  lemma KindOf(m: Content, w: seq<Attempt>, j: nat)
    requires DataSize(m) < 0x8000_0000 && InOrder(m, w) && j < |w|
    ensures w[j].packet.header.what == m.tag.what
  {
    assert w[j].packet == Fragment(m, w[j].index);
  }

  lemma TwoKinds(w: seq<Attempt>)
    requires |w| == 2 && w[0].packet.header.what != w[1].packet.header.what
    ensures NoMessage(w)
  {
    forall m: Content | DataSize(m) < 0x8000_0000 ensures !InOrder(m, w) {
      if InOrder(m, w) {
        KindOf(m, w, 0);
        KindOf(m, w, 1);
      }
    }
  }

  /** The first of several datagrams of kind 1 is out. */
  ghost predicate HalfSent(b: Block) {
    && Sound(b) && |b.f.wire| == 1 && b.f.wire[0].packet.header.what == 1 && b.f.hasIp
    && b.f.obj.Some? && b.f.obj.value.mode == Reading && !Finished(b.f)
  }

  lemma FirstIsOut(b: Block, uid: int32)
    requires Sized(b.f) && b.f.wire == [] && b.f.hasIp && b.f.tag.what == 1
    requires b.f.obj.Some? && Size(b.f.obj.value) > CHUNK
    ensures Sound(Queued(b, uid)) && !Exhausted(Queued(b, uid).f) && HalfSent(Visited(Queued(b, uid), 0))
  {
    QueuedIsSound(b, uid);
    SentSteps(Queued(b, uid), 0);
  }

  lemma NextSaysTag(b: Block)
    requires Sized(b.f) && b.f.hasIp && !Finished(b.f) && b.f.obj.Some? && b.f.obj.value.mode == Reading
    ensures var w := Sent(b, 0).f.wire;
      |w| == |b.f.wire| + 1 && w[..|b.f.wire|] == b.f.wire && w[|b.f.wire|].packet.header.what == b.f.tag.what
  {
  }

  lemma RequestSends(b: Block)
    requires Sized(b.f) && !Finished(b.f)
    ensures OnOutMessage(b, MORE, 0).f == Sent(b, 0).f
  {
  }

  lemma StrayThenMore(b: Block, uid: int32, ack: int)
    requires HalfSent(b)
    ensures Acceptable(AsInbox(b.f), Stray(uid)) && Sized(Taken(b.f, Stray(uid)))
    ensures var c := Struck(b, Stray(uid), ack, 0);
      Sized(c.f) && NoMessage(OnOutMessage(c, MORE, 0).f.wire)
  {
    StruckIsHarmlessIff(b, Stray(uid), ack, 0);
    var c := Struck(b, Stray(uid), ack, 0);
    assert c.f.tag.what == 2;
    hide Struck, Sent, OnOutMessage, Sound, Taken, NoMessage;
    NextSaysTag(c);
    RequestSends(c);
    var w := OnOutMessage(c, MORE, 0).f.wire;
    assert w[..1][0] == w[0];
    TwoKinds(w);
  }

  /** A message of kind 1 and more than one datagram, to a peer whose own message of the same number, of
      kind 2, comes in between the first datagram and the request for the second: the two datagrams are of
      different kinds. */
  lemma StrayChangesMessage(b: Block, uid: int32, ack: int)
    requires Sized(b.f) && b.f.wire == [] && b.f.hasIp && b.f.tag.what == 1
    requires b.f.obj.Some? && Size(b.f.obj.value) > CHUNK
    ensures Sound(Queued(b, uid)) && !Exhausted(Queued(b, uid).f)
    ensures var b1 := Visited(Queued(b, uid), 0);
      && b1.f.tag.uid == uid && Acceptable(AsInbox(b1.f), Stray(uid)) && Sized(Taken(b1.f, Stray(uid)))
      && Sized(Struck(b1, Stray(uid), ack, 0).f)
      && NoMessage(OnOutMessage(Struck(b1, Stray(uid), ack, 0), MORE, 0).f.wire)
  {
    FirstIsOut(b, uid);
    QueuedIsSound(b, uid);
    OutRuns.VisitKeepsMessage(Queued(b, uid), 0);
    hide Struck, Visited, OnOutMessage, Sound, Taken, NoMessage;
    StrayThenMore(Visited(Queued(b, uid), 0), uid, ack);
  }

  // ---- datagrams that strike no queued message ----

  /** The datagram is taken in by a block of its own and is a whole message. */
  predicate IsWhole(p: Packet, ack: int)
    requires Acceptable(Empty, p)
  {
    var (r, code, reply) := OnRecv(Empty, p);
    code >= 0 && (reply.Some? ==> ack >= 0) && Whole(r)
  }

  /** Among the queued messages there is none with the number and address of the datagram; a request for
      more is not compared with them. */
  predicate Misses(p: OutPools.Pool, ip: string, pkt: Packet) {
    || (pkt.header.peerUid != 0 && pkt.header.what == MORE)
    || OutPools.Find(p.queue, pkt.header.uid, ip) == |p.queue|
  }

  lemma DeliveredIsOk(p: OutPools.Pool, uid: int32, ip: string, what: int32, net: int)
    requires OutPools.Ok(p)
    ensures OutPools.Ok(OutPools.Delivered(p, uid, ip, what, net))
  {
    OutPools.ApplyIsOk(p, OutPools.Incoming(uid, ip, what, net));
  }

  /** onReceiveMessage for such a datagram: acknowledgements are handed on at once, and a whole message that
      answers another one afterwards. */
  function OnReceive(p: OutPools.Pool, ip: string, pkt: Packet, ack: int, net: int): (q: OutPools.Pool)
    requires OutPools.Ok(p) && Acceptable(Empty, pkt) && Misses(p, ip, pkt)
    ensures OutPools.Ok(q)
  {
    var h := pkt.header;
    DeliveredIsOk(p, h.peerUid, ip, h.what, net);
    var p1 := if h.peerUid != 0 && (h.what == DONE || h.what == MORE)
      then OutPools.Delivered(p, h.peerUid, ip, h.what, net) else p;
    DeliveredIsOk(p1, h.peerUid, ip, h.what, net);
    if h.peerUid == 0 || h.what == MORE || !IsWhole(pkt, ack) then p1
    else OutPools.Delivered(p1, h.peerUid, ip, h.what, net)
  }

  /** What reaches the queued messages of it. */
  function Notices(ip: string, pkt: Packet, ack: int, net: int): seq<OutPools.Event>
    requires Acceptable(Empty, pkt)
  {
    var h := pkt.header;
    var notice := OutPools.Incoming(h.peerUid, ip, h.what, net);
    if h.peerUid == 0 then []
    else if h.what == MORE then [notice]
    else (if h.what == DONE then [notice] else []) + (if IsWhole(pkt, ack) then [notice] else [])
  }

  /** A call of the pool, or a datagram of any kind. */
  datatype Step =
    | Call(e: OutPools.Event)
    | Arrival(ip: string, pkt: Packet, ack: int, net: int)

  predicate Strikes(p: OutPools.Pool, s: Step) {
    s.Arrival? && !Misses(p, s.ip, s.pkt)
  }

  function Meaning(s: Step): seq<OutPools.Event>
    requires s.Arrival? ==> Acceptable(Empty, s.pkt)
  {
    match s
    case Call(e) => [e]
    case Arrival(ip, pkt, ack, net) => Notices(ip, pkt, ack, net)
  }

  predicate Allowed(p: OutPools.Pool, s: Step) {
    match s
    case Call(e) => OutPools.Allowed(p, e)
    case Arrival(_, pkt, _, _) => Acceptable(Empty, pkt)
  }

  function Apply(p: OutPools.Pool, s: Step): (q: OutPools.Pool)
    requires OutPools.Ok(p) && Allowed(p, s) && !Strikes(p, s)
    ensures OutPools.Ok(q)
  {
    match s
    case Call(e) => OutPools.ApplyIsOk(p, e); OutPools.Apply(p, e)
    case Arrival(ip, pkt, ack, net) => OnReceive(p, ip, pkt, ack, net)
  }

  /** No datagram of the run strikes a queued message. */
  predicate Undisturbed(p: OutPools.Pool, ss: seq<Step>)
    requires OutPools.Ok(p)
    decreases |ss|
  {
    ss == [] || (Allowed(p, ss[0]) && !Strikes(p, ss[0]) && Undisturbed(Apply(p, ss[0]), ss[1..]))
  }

  function Run(p: OutPools.Pool, ss: seq<Step>): (q: OutPools.Pool)
    requires OutPools.Ok(p) && Undisturbed(p, ss)
    ensures OutPools.Ok(q)
    decreases |ss|
  {
    if ss == [] then p else Run(Apply(p, ss[0]), ss[1..])
  }

  function Meanings(p: OutPools.Pool, ss: seq<Step>): seq<OutPools.Event>
    requires OutPools.Ok(p) && Undisturbed(p, ss)
    decreases |ss|
  {
    if ss == [] then [] else Meaning(ss[0]) + Meanings(Apply(p, ss[0]), ss[1..])
  }

  lemma NoticeIsDelivered(p: OutPools.Pool, ip: string, h: Header, net: int)
    requires OutPools.Ok(p)
    ensures var notice := OutPools.Incoming(h.peerUid, ip, h.what, net);
      && OutPools.Allowed(p, notice) && OutPools.Apply(p, notice) == OutPools.Delivered(p, h.peerUid, ip, h.what, net)
  {
    hide OutPools.Delivered, OutPools.Ok;
  }

  lemma StepIsMeant(p: OutPools.Pool, s: Step)
    requires OutPools.Ok(p) && Allowed(p, s) && !Strikes(p, s)
    ensures OutPools.Feasible(p, Meaning(s)) && OutPools.Run(p, Meaning(s)) == Apply(p, s)
  {
    match s
    case Call(e) => OutPools.RunOfOne(p, e);
    case Arrival(ip, pkt, ack, net) =>
      var notice := OutPools.Incoming(pkt.header.peerUid, ip, pkt.header.what, net);
      NoticeIsDelivered(p, ip, pkt.header, net);
      OutPools.RunOfOne(p, notice);
      var q := OutPools.Apply(p, notice);
      NoticeIsDelivered(q, ip, pkt.header, net);
      OutPools.RunOfOne(q, notice);
      hide OutPools.Delivered, OutPools.Apply, OutPools.Ok, OutPools.Feasible, IsWhole, OnRecv, Acceptable, Misses;
      OutPools.RunJoins(p, [notice], [notice]);
  }

  lemma {:induction false} RunIsMeant(p: OutPools.Pool, ss: seq<Step>)
    requires OutPools.Ok(p) && Undisturbed(p, ss)
    ensures OutPools.Feasible(p, Meanings(p, ss)) && OutPools.Run(p, Meanings(p, ss)) == Run(p, ss)
    decreases |ss|
  {
    if ss != [] {
      hide Apply, Meaning, OutPools.Ok, OutPools.Apply, OutPools.Feasible, OutPools.Run;
      StepIsMeant(p, ss[0]);
      RunIsMeant(Apply(p, ss[0]), ss[1..]);
      OutPools.RunJoins(p, Meaning(ss[0]), Meanings(Apply(p, ss[0]), ss[1..]));
    } else {
      assert OutPools.Run(p, []) == p;
    }
  }

  /** Whatever arrives, as long as no datagram strikes a queued message: each message goes through what reaches
      it as if it were alone, so that its log is only added to and stays a chunking of the one message. */
  lemma UndisturbedFollows(p: OutPools.Pool, ss: seq<Step>, uid: int32, ip: string, l: OutRuns.Line)
    requires OutPools.Ok(p) && Undisturbed(p, ss) && OutPools.Follows(p, uid, ip, l)
    ensures exists es :: var r := OutRuns.Run(l, es);
      OutPools.Follows(Run(p, ss), uid, ip, r) && OutRuns.OneChunking(l.b.f, r.b.f)
  {
    RunIsMeant(p, ss);
    OutPools.RunFollows(p, Meanings(p, ss), uid, ip, l);
    OutRuns.RunKeepsMessage(l, OutPools.SeenAll(p, Meanings(p, ss), uid, ip));
  }

  // ---- messages of several datagrams ----

  /** Every datagram gets a block of its own: the first fragment of a message of several is taken in and
      asks for more, any other is refused without an answer, and none makes the message whole. */
  lemma NothingIsReassembled(m: Content, k: nat, ack: int)
    requires Transferable(m) && AllOf(m) > 1 && k < AllOf(m)
    ensures Acceptable(Empty, Fragment(m, k)) && !IsWhole(Fragment(m, k), ack)
    ensures var (r, code, reply) := OnRecv(Empty, Fragment(m, k));
      if k == 0 then code == 1 && !Whole(r) && reply.Some? && reply.value.header.what == MORE
      else code == -2 && reply.None?
  {
    if k == 0 { FirstFits(Empty, m, 0); } else { LaterFits(Empty, m, 0, k); }
    BoundaryOf(m, 1);
  }

  lemma LoggedIsNotWhole(b: Block, j: nat, ack: int)
    requires Sound(b) && Transferable(ContentOf(b.f)) && DataSize(ContentOf(b.f)) > CHUNK && j < |b.f.wire|
    ensures Acceptable(Empty, b.f.wire[j].packet) && !IsWhole(b.f.wire[j].packet, ack)
  {
    hide OnRecv, Acceptable, IsWhole, Transferable, Fragment;
    PickedAreFragments(b, [j]);
    assert [j][0] == j && Picked(b.f.wire, [j])[0] == b.f.wire[j].index;
    BoundaryOf(ContentOf(b.f), 1);
    NothingIsReassembled(ContentOf(b.f), b.f.wire[j].index, ack);
  }

  /** So whatever run a message of several datagrams goes through, none of the packets on the wire makes it
      whole. */
  lemma NoPacketIsWhole(b: Block, uid: int32, es: seq<OutRuns.Event>, j: nat, ack: int)
    requires Sized(b.f) && b.f.wire == [] && Transferable(ContentOf(b.f)) && DataSize(ContentOf(b.f)) > CHUNK
    requires Sound(Queued(b, uid)) && j < |OutRuns.Run(OutRuns.Line(Queued(b, uid), true), es).b.f.wire|
    ensures var p := OutRuns.Run(OutRuns.Line(Queued(b, uid), true), es).b.f.wire[j].packet;
      Acceptable(Empty, p) && !IsWhole(p, ack)
  {
    hide OnRecv, Acceptable, IsWhole, Sound, OutRuns.Run;
    var l := OutRuns.Line(Queued(b, uid), true);
    OutRuns.RunKeepsMessage(l, es);
    LoggedIsNotWhole(OutRuns.Run(l, es).b, j, ack);
  }
}
