/** The out-queue of the message pool (robotbus/lib/MessagePool.cpp): messages join it under new
    numbers, are found by what comes in for them, are visited by the update loop and leave it when
    they are idle. */
module OutPools {
  import opened Basics
  import opened Wire
  import opened DataObjects
  import opened OutBlocks
  import OutRuns

  datatype Entry = Entry(ip: string, b: Block)

  datatype Pool = Pool(queue: seq<Entry>, lastUid: int)

  const QUEUE_LIMIT := 500

  /** The first entry for a message number and an address, or the length of the queue. */
  function Find(queue: seq<Entry>, uid: int32, ip: string): (k: nat)
    ensures k <= |queue|
    ensures k < |queue| ==> queue[k].b.f.tag.uid == uid && queue[k].ip == ip
    ensures forall i :: 0 <= i < k ==> queue[i].b.f.tag.uid != uid || queue[i].ip != ip
  {
    if queue == [] then 0
    else if queue[0].b.f.tag.uid == uid && queue[0].ip == ip then 0
    else 1 + Find(queue[1..], uid, ip)
  }

  /** A call for the pool: a message is sent, a finished message of kind `what` has come in for the
      message `uid`, or the update loop visits the k-th entry. */
  datatype Event =
    | Send(ip: string, b: Block, net: int)
    | Incoming(uid: int32, ip: string, what: int32, net: int)
    | Visit(k: nat, net: int)

  /** The message is kept in the queue until it is answered; others are sent at once. */
  predicate Queues(b: Block) {
    b.hasCompleted || NeedsFragments(b.f)
  }

  /** SendMessage: its code and the pool. */
  function Submitted(p: Pool, ip: string, b: Block): (Pool, int)
    requires -0x8000_0000 <= p.lastUid + 1 < 0x8000_0000
  {
    if !Queues(b) then (p, 0)
    else if |p.queue| > QUEUE_LIMIT then (p, -1)
    else (Pool(p.queue + [Entry(ip, Queued(b, p.lastUid + 1))], p.lastUid + 1), 0)
  }

  /** When a message joins the queue, by its callback, its type and its size: if someone waits for a reply, if it is
      a file, or if with its header it has more than 10240 bytes; but not behind more than 500 others. It joins
      under the next number, as it is, to be read from its beginning. */
  lemma JoinsIff(p: Pool, ip: string, b: Block)
    requires -0x8000_0000 <= p.lastUid + 1 < 0x8000_0000
    ensures var (q, code) := Submitted(p, ip, b);
      var size := if b.f.obj.Some? && b.f.obj.value.data.Some? then |b.f.obj.value.data.value| else 0;
      var joins := b.hasCompleted || (b.f.obj.Some? && (b.f.objType == 1 || 36 + size > 10240));
      if !joins || |p.queue| > 500 then q == p && code == if joins then -1 else 0
      else
        && code == 0 && q.lastUid == p.lastUid + 1
        && |q.queue| == |p.queue| + 1 && q.queue[..|p.queue|] == p.queue
        && var e := q.queue[|p.queue|];
          && e.ip == ip && e.b.status == Waiting && e.b.f.tag == b.f.tag.(uid := p.lastUid + 1)
          && (e.b.f.obj.Some? <==> b.f.obj.Some?)
          && (b.f.obj.Some? ==>
               && e.b.f.obj.value.data == b.f.obj.value.data
               && e.b.f.obj.value.position == 0 && e.b.f.obj.value.mode == Unopened)
          && e.b.f.objType == b.f.objType && e.b.f.hasIp == b.f.hasIp && e.b.f.needReply == b.f.needReply
          && e.b.hasCompleted == b.hasCompleted && e.b.hasRequest == b.hasRequest && e.b.calls == b.calls
  {
  }

  predicate Sendable(b: Block) {
    Sized(b.f) && b.f.wire == []
  }

  predicate Allowed(p: Pool, e: Event) {
    match e
    case Send(_, b, _) => Sendable(b) && p.lastUid + 1 < 0x8000_0000
    case Incoming(_, _, _, _) => true
    case Visit(k, _) => k < |p.queue|
  }

  ghost predicate EntryOk(p: Pool, i: nat)
    requires i < |p.queue|
  {
    Sound(p.queue[i].b) && 0 < p.queue[i].b.f.tag.uid <= p.lastUid
  }

  /** Every entry is sound, and numbered in the order of the queue. */
  ghost predicate Ok(p: Pool) {
    && 0 <= p.lastUid < 0x8000_0000
    && (forall i :: 0 <= i < |p.queue| ==> EntryOk(p, i))
    && (forall i, j :: 0 <= i < j < |p.queue| ==> p.queue[i].b.f.tag.uid < p.queue[j].b.f.tag.uid)
  }

  function Delivered(p: Pool, uid: int32, ip: string, what: int32, net: int): Pool
    requires Ok(p)
  {
    var k := Find(p.queue, uid, ip);
    if k == |p.queue| then p
    else
      assert EntryOk(p, k);
      p.(queue := p.queue[k := p.queue[k].(b := OnOutMessage(p.queue[k].b, what, net))])
  }

  function VisitedAt(p: Pool, k: nat, net: int): Pool
    requires Ok(p) && k < |p.queue|
  {
    assert EntryOk(p, k);
    var b := Visited(p.queue[k].b, net);
    p.(queue := if b.status == Idle then Without(p.queue, k) else p.queue[k := p.queue[k].(b := b)])
  }

  function Apply(p: Pool, e: Event): Pool
    requires Ok(p) && Allowed(p, e)
  {
    match e
    case Send(ip, b, _) => Submitted(p, ip, b).0
    case Incoming(uid, ip, what, net) => Delivered(p, uid, ip, what, net)
    case Visit(k, net) => VisitedAt(p, k, net)
  }

  lemma VisitKeepsTag(b: Block, net: int)
    requires Sound(b)
    ensures Sound(Visited(b, net)) && Visited(b, net).f.tag == b.f.tag
  {
    VisitedIsSound(b, net);
    OutRuns.VisitKeepsMessage(b, net);
  }

  lemma IncomingKeepsTag(b: Block, what: int32, net: int)
    requires Sound(b)
    ensures Sound(OnOutMessage(b, what, net)) && OnOutMessage(b, what, net).f.tag == b.f.tag
  {
    OnOutMessageIsSound(b, what, net);
    OutRuns.IncomingKeepsMessage(b, what, net);
  }

  /** An entry changes, but not its number. */
  lemma UpdateIsOk(p: Pool, k: nat, b: Block)
    requires Ok(p) && k < |p.queue| && Sound(b) && b.f.tag == p.queue[k].b.f.tag
    ensures Ok(p.(queue := p.queue[k := p.queue[k].(b := b)]))
  {
    var q := p.(queue := p.queue[k := p.queue[k].(b := b)]);
    forall i | 0 <= i < |q.queue| ensures EntryOk(q, i) { assert EntryOk(p, i); }
    assert forall i :: 0 <= i < |q.queue| ==> q.queue[i].b.f.tag == p.queue[i].b.f.tag;
  }

  lemma RemovalIsOk(p: Pool, k: nat)
    requires Ok(p) && k < |p.queue|
    ensures Ok(p.(queue := Without(p.queue, k)))
  {
    var q := p.(queue := Without(p.queue, k));
    assert forall i :: 0 <= i < |q.queue| ==> q.queue[i] == p.queue[if i < k then i else i + 1];
    forall i | 0 <= i < |q.queue| ensures EntryOk(q, i) { assert EntryOk(p, if i < k then i else i + 1); }
  }

  lemma SubmittedIsOk(p: Pool, ip: string, b: Block)
    requires Ok(p) && Sendable(b) && p.lastUid + 1 < 0x8000_0000
    ensures Ok(Submitted(p, ip, b).0)
  {
    if Queues(b) && |p.queue| <= QUEUE_LIMIT {
      QueuedIsSound(b, p.lastUid + 1);
      var q := Submitted(p, ip, b).0;
      forall i | 0 <= i < |q.queue| ensures EntryOk(q, i) {
        if i < |p.queue| { assert EntryOk(p, i); }
      }
      forall i, j | 0 <= i < j < |q.queue| ensures q.queue[i].b.f.tag.uid < q.queue[j].b.f.tag.uid {
        assert EntryOk(p, i);
      }
    }
  }

  /** The numbers in the queue stay distinct and growing, and its blocks sound. */
  lemma ApplyIsOk(p: Pool, e: Event)
    requires Ok(p) && Allowed(p, e)
    ensures Ok(Apply(p, e))
  {
    match e
    case Send(ip, b, _) => SubmittedIsOk(p, ip, b);
    case Incoming(uid, ip, what, net) =>
      var k := Find(p.queue, uid, ip);
      if k < |p.queue| {
        assert EntryOk(p, k);
        IncomingKeepsTag(p.queue[k].b, what, net);
        UpdateIsOk(p, k, OnOutMessage(p.queue[k].b, what, net));
      }
    case Visit(k, net) =>
      assert EntryOk(p, k);
      VisitKeepsTag(p.queue[k].b, net);
      var b := Visited(p.queue[k].b, net);
      if b.status == Idle { RemovalIsOk(p, k); } else { UpdateIsOk(p, k, b); }
  }

  predicate Feasible(p: Pool, es: seq<Event>)
    requires Ok(p)
    decreases |es|
  {
    es == [] || (Allowed(p, es[0]) && (ApplyIsOk(p, es[0]); Feasible(Apply(p, es[0]), es[1..])))
  }

  function Run(p: Pool, es: seq<Event>): (r: Pool)
    requires Ok(p) && Feasible(p, es)
    ensures Ok(r)
    decreases |es|
  {
    if es == [] then p
    else
      ApplyIsOk(p, es[0]);
      Run(Apply(p, es[0]), es[1..])
  }

  lemma RunOfOne(p: Pool, e: Event)
    requires Ok(p) && Allowed(p, e)
    ensures Ok(Apply(p, e)) && Feasible(p, [e]) && Run(p, [e]) == Apply(p, e)
  {
    hide Apply;
    ApplyIsOk(p, e);
    assert [e][1..] == [];
  }

  lemma {:induction false} RunJoins(p: Pool, a: seq<Event>, b: seq<Event>)
    requires Ok(p) && Feasible(p, a) && Feasible(Run(p, a), b)
    ensures Feasible(p, a + b) && Run(p, a + b) == Run(Run(p, a), b)
    decreases |a|
  {
    hide Apply, Ok;
    if a == [] {
      assert a + b == b;
    } else {
      ApplyIsOk(p, a[0]);
      assert (a + b)[0] == a[0] && (a + b)[1..] == a[1..] + b;
      RunJoins(Apply(p, a[0]), a[1..], b);
    }
  }

  // ---- one message in the pool ----

  /** What of an event reaches the message with this number and address. */
  function Seen(p: Pool, e: Event, uid: int32, ip: string): seq<OutRuns.Event>
    requires Allowed(p, e)
  {
    match e
    case Send(_, _, _) => []
    case Incoming(u, i, what, net) => if u == uid && i == ip then [OutRuns.Incoming(what, net)] else []
    case Visit(k, net) => if p.queue[k].b.f.tag.uid == uid then [OutRuns.Visit(net)] else []
  }

  function SeenAll(p: Pool, es: seq<Event>, uid: int32, ip: string): seq<OutRuns.Event>
    requires Ok(p) && Feasible(p, es)
    decreases |es|
  {
    if es == [] then []
    else
      ApplyIsOk(p, es[0]);
      Seen(p, es[0], uid, ip) + SeenAll(Apply(p, es[0]), es[1..], uid, ip)
  }

  /** The pool has the message in the state of the line, or, once it has left, not any more. */
  ghost predicate Follows(p: Pool, uid: int32, ip: string, l: OutRuns.Line) {
    && 0 < uid <= p.lastUid && l.b.f.tag.uid == uid && Sound(l.b)
    && if l.queued then exists k :: 0 <= k < |p.queue| && p.queue[k] == Entry(ip, l.b)
       else forall k :: 0 <= k < |p.queue| ==> p.queue[k].b.f.tag.uid != uid
  }

  /** An entry with the number of a followed message is that message. */
  lemma SameNumberIsSame(p: Pool, k: nat, uid: int32, ip: string, l: OutRuns.Line)
    requires Ok(p) && k < |p.queue| && Follows(p, uid, ip, l) && p.queue[k].b.f.tag.uid == uid
    ensures l.queued && p.queue[k] == Entry(ip, l.b)
  {
    var j :| 0 <= j < |p.queue| && p.queue[j] == Entry(ip, l.b);
    assert j == k;
  }

  lemma UpdateFollows(p: Pool, k: nat, b: Block, uid: int32, ip: string, l: OutRuns.Line)
    requires Ok(p) && k < |p.queue| && Follows(p, uid, ip, l) && Sound(b) && b.f.tag == p.queue[k].b.f.tag
    ensures Follows(p.(queue := p.queue[k := p.queue[k].(b := b)]), uid, ip,
                    if p.queue[k].b.f.tag.uid == uid then OutRuns.Line(b, true) else l)
  {
    var q := p.queue[k := p.queue[k].(b := b)];
    if p.queue[k].b.f.tag.uid == uid {
      SameNumberIsSame(p, k, uid, ip, l);
      assert q[k] == Entry(ip, b);
    } else if l.queued {
      var j :| 0 <= j < |p.queue| && p.queue[j] == Entry(ip, l.b);
      assert q[j] == p.queue[j];
    }
  }

  lemma RemovalFollows(p: Pool, k: nat, b: Block, uid: int32, ip: string, l: OutRuns.Line)
    requires Ok(p) && k < |p.queue| && Follows(p, uid, ip, l) && Sound(b) && b.f.tag == p.queue[k].b.f.tag
    ensures Follows(p.(queue := Without(p.queue, k)), uid, ip,
                    if p.queue[k].b.f.tag.uid == uid then OutRuns.Line(b, false) else l)
  {
    hide Sound;
    var q := Without(p.queue, k);
    if p.queue[k].b.f.tag.uid == uid || !l.queued {
      forall i | 0 <= i < |q| ensures q[i].b.f.tag.uid != uid {
        var j := if i < k then i else i + 1;
        assert q[i] == p.queue[j];
        if l.queued { SameNumberIsSame(p, k, uid, ip, l); }
      }
    } else {
      var j :| 0 <= j < |p.queue| && p.queue[j] == Entry(ip, l.b);
      assert q[if j < k then j else j - 1] == p.queue[j];
    }
  }

  lemma IncomingFollows(p: Pool, uid: int32, ip: string, l: OutRuns.Line, u: int32, i: string, what: int32, net: int)
    requires Ok(p) && Follows(p, uid, ip, l)
    ensures Follows(Delivered(p, u, i, what, net), uid, ip,
                    if u == uid && i == ip then OutRuns.Apply(l, OutRuns.Incoming(what, net)) else l)
  {
    var k := Find(p.queue, u, i);
    if k < |p.queue| {
      var b := p.queue[k].b;
      assert EntryOk(p, k);
      IncomingKeepsTag(b, what, net);
      UpdateFollows(p, k, OnOutMessage(b, what, net), uid, ip, l);
      if u == uid { SameNumberIsSame(p, k, uid, ip, l); }
      DoneTwiceIsOnce(b, net);
    }
  }

  lemma VisitFollows(p: Pool, uid: int32, ip: string, l: OutRuns.Line, k: nat, net: int)
    requires Ok(p) && Follows(p, uid, ip, l) && k < |p.queue|
    ensures Follows(VisitedAt(p, k, net), uid, ip,
                    if p.queue[k].b.f.tag.uid == uid then OutRuns.Apply(l, OutRuns.Visit(net)) else l)
  {
    assert EntryOk(p, k);
    var b := Visited(p.queue[k].b, net);
    VisitKeepsTag(p.queue[k].b, net);
    if p.queue[k].b.f.tag.uid == uid { SameNumberIsSame(p, k, uid, ip, l); }
    if b.status == Idle { RemovalFollows(p, k, b, uid, ip, l); } else { UpdateFollows(p, k, b, uid, ip, l); }
  }

  lemma ApplyFollows(p: Pool, e: Event, uid: int32, ip: string, l: OutRuns.Line)
    requires Ok(p) && Allowed(p, e) && Follows(p, uid, ip, l)
    ensures Follows(Apply(p, e), uid, ip, OutRuns.Run(l, Seen(p, e, uid, ip)))
  {
    match e
    case Incoming(u, i, what, net) => IncomingFollows(p, uid, ip, l, u, i, what, net);
    case Visit(k, net) => VisitFollows(p, uid, ip, l, k, net);
    case Send(i, b, _) =>
      var q := Apply(p, e);
      assert forall k :: 0 <= k < |p.queue| ==> q.queue[k] == p.queue[k];
  }

  lemma RunAfterFirst(l: OutRuns.Line, a: seq<OutRuns.Event>, es: seq<OutRuns.Event>)
    requires Sound(l.b) && |a| <= 1
    ensures OutRuns.Run(l, a + es) == OutRuns.Run(OutRuns.Run(l, a), es)
  {
    if a == [] { assert a + es == es; } else { assert (a + es)[0] == a[0] && (a + es)[1..] == es && a[1..] == []; }
  }

  /** The pool keeps its messages apart: in any run, each goes through exactly what reaches it, as if
      it were alone, so that what is proved of the runs of one message holds in the pool. */
  lemma {:induction false} RunFollows(p: Pool, es: seq<Event>, uid: int32, ip: string, l: OutRuns.Line)
    requires Ok(p) && Feasible(p, es) && Follows(p, uid, ip, l)
    ensures Follows(Run(p, es), uid, ip, OutRuns.Run(l, SeenAll(p, es, uid, ip)))
    decreases |es|
  {
    if es != [] {
      ApplyIsOk(p, es[0]);
      ApplyFollows(p, es[0], uid, ip, l);
      var seen := Seen(p, es[0], uid, ip);
      var m := OutRuns.Run(l, seen);
      RunFollows(Apply(p, es[0]), es[1..], uid, ip, m);
      RunAfterFirst(l, seen, SeenAll(Apply(p, es[0]), es[1..], uid, ip));
    }
  }

  lemma {:induction false} AcceptedFollows(p: Pool, ip: string, b: Block)
    requires Ok(p) && Sendable(b) && p.lastUid + 1 < 0x8000_0000 && Queues(b) && |p.queue| <= QUEUE_LIMIT
    ensures var uid := p.lastUid + 1; var q := Submitted(p, ip, b).0;
      Sound(Queued(b, uid)) && Ok(q) && Follows(q, uid, ip, OutRuns.Line(Queued(b, uid), true))
  {
    SubmittedIsOk(p, ip, b);
    QueuedIsSound(b, p.lastUid + 1);
    var q := Submitted(p, ip, b).0;
    assert q.queue[|p.queue|] == Entry(ip, Queued(b, p.lastUid + 1));
  }

  /** An accepted message of n > 0 bytes has left the queue for good once the loop has visited it
      601 * ceil(n / 10204) + 1 times, whatever else happens in the pool. */
  lemma {:induction false} AcceptedLeaves(p: Pool, ip: string, b: Block, es: seq<Event>)
    requires Ok(p) && Sendable(b) && p.lastUid + 1 < 0x8000_0000 && Queues(b) && |p.queue| <= QUEUE_LIMIT
    requires b.f.obj.Some? && Size(b.f.obj.value) > 0
    requires Ok(Submitted(p, ip, b).0) && Feasible(Submitted(p, ip, b).0, es)
    requires OutRuns.Visits(SeenAll(Submitted(p, ip, b).0, es, p.lastUid + 1, ip))
             >= 601 * CeilDiv(Size(b.f.obj.value), 10204) + 1
    ensures var r := Run(Submitted(p, ip, b).0, es);
      forall k :: 0 <= k < |r.queue| ==> r.queue[k].b.f.tag.uid != p.lastUid + 1
  {
    var uid, q := p.lastUid + 1, Submitted(p, ip, b).0;
    AcceptedFollows(p, ip, b);
    RunFollows(q, es, uid, ip, OutRuns.Line(Queued(b, uid), true));
    OutRuns.QueuedLeavesQueue(b, uid, SeenAll(q, es, uid, ip));
  }
}
