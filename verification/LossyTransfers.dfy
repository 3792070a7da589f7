/** A transfer over a channel that loses datagrams and acknowledgements, but no more than the retries
    make up for (robotbus/lib/MessagePool.cpp:348-359, robotbus/lib/MessageBlock.cpp:98-166). */
module LossyTransfers {
  import opened Basics
  import opened Wire
  import opened DataObjects
  import opened OutBlocks
  import opened OutRuns
  import opened InBlocks

  const TRIES := 6

  /** The exchange of one fragment: first tries that bring no acknowledgement, each with the hundred visits
      until the next try; `heard` of them reach the receiver. Then one that does both. */
  datatype Exchange = Exchange(lost: nat, heard: nat, visits: seq<Event>)

  ghost predicate Bounded(x: Exchange) {
    && x.heard <= x.lost <= TRIES && |x.visits| == 100 * x.lost
    && forall i :: 0 <= i < |x.visits| ==> x.visits[i].Visit?
  }

  /** The last try was a first one, and nothing has happened since. */
  predicate JustSent(b: Block) {
    b.status == Sending && b.retries == 0 && b.timeLeft == TIMEOUT
  }

  /** Fragment k is out, and the receiver waits for it. */
  ghost predicate Awaited(b: Block, r: Inbox, m: Content, k: nat) {
    && Sound(b) && b.f.hasIp && ContentOf(b.f) == m && Transferable(m) && DataSize(m) > CHUNK
    && m.tag.what != MORE && k < AllOf(m) && NextIndex(b.f.wire) == k + 1 && Holds(r, m, k)
    && (k + 1 < AllOf(m) || b.f.needReply ==> JustSent(b))
  }

  // ---- the sender waits ----

  /** Only time and tries have passed. */
  ghost predicate Waited(b: Block, l: Line) {
    l.queued ==>
      && l.b == b.(f := b.f.(wire := l.b.f.wire), retries := l.b.retries, timeLeft := l.b.timeLeft)
      && l.b.f.wire != [] && NextIndex(l.b.f.wire) == NextIndex(b.f.wire)
  }

  lemma VisitOnlyWaits(b: Block, l: Line, net: int)
    requires Sound(l.b) && Waited(b, l) && b.status == Sending
    ensures Waited(b, Apply(l, Visit(net)))
  {
    if l.queued { UnansweredVisit(l.b, net); }
  }

  lemma {:induction false} VisitsOnlyWait(b: Block, es: seq<Event>)
    requires Sound(b) && b.status == Sending && forall i :: 0 <= i < |es| ==> es[i].Visit?
    ensures Waited(b, Run(Line(b, true), es))
    decreases |es|
  {
    if es != [] {
      var front, net := es[..|es| - 1], es[|es| - 1].net;
      assert es == front + [Visit(net)];
      VisitsOnlyWait(b, front);
      RunOneMore(Line(b, true), front, Visit(net));
      VisitOnlyWaits(b, Run(Line(b, true), front), net);
    }
  }

  /** After at most six hundred visits the block is still being sent, and its last packet is out again. */
  lemma StillSending(b: Block, x: Exchange)
    requires Sound(b) && JustSent(b) && Bounded(x)
    ensures var l := Run(Line(b, true), x.visits);
      l.queued && l.b.retries == x.lost && l.b.timeLeft == TIMEOUT && Waited(b, l)
  {
    UnansweredVisits(b, x.visits);
    VisitsOnlyWait(b, x.visits);
  }

  /** The packet that is out. */
  function Last(w: seq<Attempt>): Packet
    requires w != []
  {
    w[|w| - 1].packet
  }

  lemma LastIsFragment(m: Content, w: seq<Attempt>, k: nat)
    requires 0 < DataSize(m) < 0x8000_0000 && InOrder(m, w) && NextIndex(w) == k + 1 && k < AllOf(m)
    ensures w != [] && Last(w) == Fragment(m, k)
  {
  }

  // ---- the receiver hears a fragment again ----

  /** The receiver after fragment k has come in n times. */
  ghost function Heard(r: Inbox, m: Content, k: nat, n: nat): (s: Inbox)
    requires Transferable(m) && k < AllOf(m) && Holds(r, m, k)
    ensures Holds(s, m, if n == 0 then k else k + 1)
  {
    if n == 0 then r
    else
      var s := Heard(r, m, k, n - 1);
      FragmentFits(s, m, if n == 1 then k else k + 1, k);
      OnRecv(s, Fragment(m, k)).0
  }

  /** However often it has been heard, a fragment is acknowledged, by the request for the next or as
      the last. */
  lemma HeardIsAcknowledged(s: Inbox, m: Content, k: nat, p: nat)
    requires Transferable(m) && DataSize(m) > CHUNK && k < AllOf(m) && Holds(s, m, p) && (p == k || p == k + 1)
    ensures Acceptable(s, Fragment(m, k)) && Holds(OnRecv(s, Fragment(m, k)).0, m, k + 1)
    ensures var reply := OnRecv(s, Fragment(m, k)).2;
      && reply.Some? && reply.value.header.what == (if k + 1 == AllOf(m) then DONE else MORE)
      && reply.value.header.peerUid == m.tag.uid
  {
    if k == 0 { FirstFits(s, m, p); } else { LaterFits(s, m, p, k); }
    FragmentSafety(OnRecv(s, Fragment(m, k)).0, m, k + 1, []);
  }

  // ---- one exchange ----

  /** What an exchange leads to: the sender and the receiver after it. */
  ghost function Exchanged(b: Block, r: Inbox, m: Content, k: nat, x: Exchange): (Block, Inbox)
    requires Awaited(b, r, m, k)
  {
    var l := Run(Line(b, true), x.visits);
    var s := Heard(r, m, k, x.heard);
    HeardIsAcknowledged(s, m, k, if x.heard == 0 then k else k + 1);
    LastIsFragment(m, b.f.wire, k);
    var (t, _, reply) := OnRecv(s, Last(b.f.wire));
    (Apply(l, Incoming(reply.value.header.what, 0)).b, t)
  }

  lemma MoreIsSent(l: Line, m: Content, k: nat)
    requires Sound(l.b) && l.queued && l.b.f.hasIp && ContentOf(l.b.f) == m && Transferable(m)
    requires NextIndex(l.b.f.wire) == k + 1 < AllOf(m)
    ensures !Finished(l.b.f)
    ensures var c := Apply(l, Incoming(MORE, 0)).b;
      && Sound(c) && c.f.hasIp && ContentOf(c.f) == m && NextIndex(c.f.wire) == k + 2
      && (Finished(c.f) <==> k + 2 == AllOf(m))
  {
    BoundaryOf(m, k + 1);
    BoundaryOf(m, k + 2);
    AdvancedSteps(l.b, MORE, 0);
    SettledSteps(Advanced(l.b, MORE, 0), MORE);
    DoneTwiceIsOnce(l.b, 0);
  }

  /** What has been sent is waited for, unless it is the end of a message without a reply. */
  lemma SentIsAwaited(b: Block)
    requires Sound(b) && b.f.hasIp && b.f.obj.Some? && !Finished(b.f) && !Exhausted(b.f) && HasBytes(b.f)
    ensures var c := Sent(b, 0); !(Finished(c.f) && !c.f.needReply) ==> JustSent(c)
  {
    OpeningIsAligned(b);
    SerializedIsNext(Opening(b).f);
  }

  lemma MoreIsAwaited(l: Line)
    requires Sound(l.b) && l.queued && l.b.f.hasIp && l.b.f.obj.Some? && !Finished(l.b.f)
    requires l.b.f.tag.what != MORE
    ensures var c := Apply(l, Incoming(MORE, 0)).b; !(Finished(c.f) && !c.f.needReply) ==> JustSent(c)
  {
    SentIsAwaited(l.b);
    SentSteps(l.b, 0);
    DoneTwiceIsOnce(l.b, 0);
  }

  lemma ExchangeGoesOn(b: Block, r: Inbox, m: Content, k: nat, x: Exchange)
    requires Awaited(b, r, m, k) && Bounded(x) && k + 1 < AllOf(m)
    ensures Awaited(Exchanged(b, r, m, k, x).0, Exchanged(b, r, m, k, x).1, m, k + 1)
  {
    LastIsFragment(m, b.f.wire, k);
    var l := Run(Line(b, true), x.visits);
    StillSending(b, x);
    var s := Heard(r, m, k, x.heard);
    HeardIsAcknowledged(s, m, k, if x.heard == 0 then k else k + 1);
    assert l.b.f.hasIp && ContentOf(l.b.f) == m;
    MoreIsSent(l, m, k);
    MoreIsAwaited(l);
  }

  lemma ExchangeEnds(b: Block, r: Inbox, m: Content, k: nat, x: Exchange)
    requires Awaited(b, r, m, k) && Bounded(x) && k + 1 == AllOf(m)
    ensures Arrived(Exchanged(b, r, m, k, x).1, m)
  {
    LastIsFragment(m, b.f.wire, k);
    var s := Heard(r, m, k, x.heard);
    HeardIsAcknowledged(s, m, k, if x.heard == 0 then k else k + 1);
    FragmentSafety(Exchanged(b, r, m, k, x).1, m, k + 1, []);
  }

  // ---- whole transfers ----

  /** The last fragment of a message without a reply is never sent again, so its first try must
      arrive. */
  ghost predicate Possible(m: Content, k: nat, x: Exchange)
    requires DataSize(m) < 0x8000_0000
  {
    Bounded(x) && (k + 1 == AllOf(m) && !m.needReply ==> x.lost == 0)
  }

  ghost predicate AllPossible(m: Content, k: nat, xs: seq<Exchange>)
    requires DataSize(m) < 0x8000_0000
  {
    forall i :: 0 <= i < |xs| ==> Possible(m, k + i, xs[i])
  }

  /** As many more packets as were lost, all the one before them again. */
  ghost predicate SameAgain(w: seq<Attempt>, v: seq<Attempt>, lost: nat) {
    && w != [] && w <= v && |v| == |w| + lost
    && forall j :: |w| <= j < |v| ==> !v[j].isNew && v[j].packet == Last(w)
  }

  lemma WaitingRepeats(b: Block, x: Exchange)
    requires Sound(b) && JustSent(b) && Bounded(x)
    ensures SameAgain(b.f.wire, Run(Line(b, true), x.visits).b.f.wire, x.lost)
  {
    StillSending(b, x);
    UnansweredVisits(b, x.visits);
  }

  /** The tries of an exchange are on the wire, as packets with the fragment the receiver waits for. */
  lemma TriesAreOut(b: Block, r: Inbox, m: Content, k: nat, x: Exchange)
    requires Awaited(b, r, m, k) && Possible(m, k, x)
    ensures SameAgain(b.f.wire, Run(Line(b, true), x.visits).b.f.wire, x.lost)
    ensures Last(b.f.wire) == Fragment(m, k)
  {
    LastIsFragment(m, b.f.wire, k);
    if x.lost > 0 {
      WaitingRepeats(b, x);
    }
  }

  /** The receiver after the exchanges of all fragments from k on. */
  ghost function Finally(b: Block, r: Inbox, m: Content, k: nat, xs: seq<Exchange>): Inbox
    requires Awaited(b, r, m, k) && |xs| == AllOf(m) - k && AllPossible(m, k, xs)
    decreases |xs|
  {
    assert Possible(m, k + 0, xs[0]);
    var (c, s) := Exchanged(b, r, m, k, xs[0]);
    if k + 1 == AllOf(m) then s
    else
      ExchangeGoesOn(b, r, m, k, xs[0]);
      RestIsPossible(m, k, xs);
      Finally(c, s, m, k + 1, xs[1..])
  }

  lemma RestIsPossible(m: Content, k: nat, xs: seq<Exchange>)
    requires DataSize(m) < 0x8000_0000 && xs != [] && AllPossible(m, k, xs)
    ensures AllPossible(m, k + 1, xs[1..])
  {
    forall i | 0 <= i < |xs[1..]| ensures Possible(m, k + 1 + i, xs[1..][i]) {
      assert Possible(m, k + (i + 1), xs[i + 1]);
    }
  }

  lemma {:induction false} ExchangesArrive(b: Block, r: Inbox, m: Content, k: nat, xs: seq<Exchange>)
    requires Awaited(b, r, m, k) && |xs| == AllOf(m) - k && AllPossible(m, k, xs)
    ensures Arrived(Finally(b, r, m, k, xs), m)
    decreases |xs|
  {
    hide Exchanged, Arrived, Bounded;
    assert Possible(m, k + 0, xs[0]);
    if k + 1 == AllOf(m) {
      ExchangeEnds(b, r, m, k, xs[0]);
    } else {
      var (c, s) := Exchanged(b, r, m, k, xs[0]);
      ExchangeGoesOn(b, r, m, k, xs[0]);
      RestIsPossible(m, k, xs);
      ExchangesArrive(c, s, m, k + 1, xs[1..]);
    }
  }

  lemma FirstIsAwaited(b: Block, uid: int32)
    requires b.f.wire == [] && b.f.hasIp && Sized(b.f) && b.f.obj.Some? && b.f.tag.what != MORE
    requires Transferable(ContentOf(b.f)) && Size(b.f.obj.value) > CHUNK
    ensures Sound(Queued(b, uid)) && !Exhausted(Queued(b, uid).f)
    ensures var b1 := Visited(Queued(b, uid), 0);
      && Awaited(b1, Empty, ContentOf(b1.f), 0) && ContentOf(b1.f).data == b.f.obj.value.data
  {
    QueuedIsSound(b, uid);
    FirstVisitInStep(b, uid);
    SentIsAwaited(Queued(b, uid));
    BoundaryOf(ContentOf(Visited(Queued(b, uid), 0).f), 1);
  }

  /** Retransmission makes up for loss: a queued message of n > 10204 bytes arrives as sent over a channel
      that, for each fragment, loses the datagram or the acknowledgement of at most six tries; of the last
      fragment of a message without a reply there is only one try. */
  lemma LossyTransferArrives(b: Block, uid: int32, xs: seq<Exchange>)
    requires b.f.wire == [] && b.f.hasIp && Sized(b.f) && b.f.obj.Some? && b.f.tag.what != MORE
    requires Transferable(ContentOf(b.f)) && Size(b.f.obj.value) > CHUNK
    requires |xs| == CeilDiv(Size(b.f.obj.value), 10204)
    requires Sound(Queued(b, uid)) && AllPossible(ContentOf(Visited(Queued(b, uid), 0).f), 0, xs)
    ensures var b1 := Visited(Queued(b, uid), 0); var m := ContentOf(b1.f);
      && Awaited(b1, Empty, m, 0)
      && var s := Finally(b1, Empty, m, 0, xs);
         Arrived(s, m) && s.obj.value.data == b.f.obj.value.data
  {
    FirstIsAwaited(b, uid);
    var b1 := Visited(Queued(b, uid), 0);
    ExchangesArrive(b1, Empty, ContentOf(b1.f), 0, xs);
  }

  /** Why there is only one: once the last fragment of a message without a reply has been sent, nothing
      more is, whatever happens, and the receiver never completes if that datagram is lost. */
  lemma {:induction false} LastIsSentOnce(l: Line, es: seq<Event>)
    requires Sound(l.b) && l.b.status == Idle && Finished(l.b.f)
    ensures Run(l, es).b.f.wire == l.b.f.wire
    decreases |es|
  {
    if es != [] {
      if l.queued && es[0].Incoming? {
        SettledSteps(l.b, es[0].what);
        DoneTwiceIsOnce(l.b, es[0].net);
      }
      LastIsSentOnce(Apply(l, es[0]), es[1..]);
    }
  }

  lemma LastIsNotAwaited(l: Line, m: Content, k: nat)
    requires Sound(l.b) && l.queued && l.b.f.hasIp && ContentOf(l.b.f) == m && Transferable(m)
    requires NextIndex(l.b.f.wire) == k + 1 && k + 2 == AllOf(m) && !m.needReply
    ensures var c := Apply(l, Incoming(MORE, 0)).b; Finished(c.f) && c.status == Idle
  {
    MoreIsSent(l, m, k);
    SentSteps(l.b, 0);
    EndIsIdle(l.b);
    DoneTwiceIsOnce(l.b, 0);
  }

  /** Messages of kind 0x8FFE are left out, because for them this is so with a reply too: the request for the last
      fragment counts as the reply, and the block is idle once that has been sent. */
  lemma RequestIsReply(l: Line, m: Content, k: nat)
    requires Sound(l.b) && l.queued && l.b.f.hasIp && ContentOf(l.b.f) == m && Transferable(m)
    requires NextIndex(l.b.f.wire) == k + 1 && k + 2 == AllOf(m) && m.tag.what == MORE
    ensures var c := Apply(l, Incoming(MORE, 0)).b; Finished(c.f) && c.status == Idle
  {
    MoreIsSent(l, m, k);
  }

  lemma EndIsIdle(b: Block)
    requires Sound(b) && b.f.hasIp && b.f.wire != [] && b.f.obj.Some? && !Finished(b.f) && !b.f.needReply
    ensures var c := Sent(b, 0); Finished(c.f) ==> c.status == Idle
  {
    OpeningIsAligned(b);
    SerializedIsNext(Opening(b).f);
  }
}
