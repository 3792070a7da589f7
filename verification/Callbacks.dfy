/** When do the callbacks of a message run (robotbus/lib/MessageBlock.cpp:88-135,
    robotbus/lib/MessagePool.cpp:298-314, 342-359)? The reply callback exactly when a message of the same kind answers
    one that is all out; the result callback exactly when a send ends it, or the tries are used up. */
module Callbacks {
  import opened Basics
  import opened Wire
  import opened DataObjects
  import opened OutBlocks
  import opened OutRuns

  function BytesIn(b: Block): nat {
    if b.f.obj.Some? && b.f.obj.value.data.Some? then |b.f.obj.value.data.value| else 0
  }

  /** Nothing of the message is left to be read. */
  predicate AllOut(b: Block) {
    b.f.obj.None? || b.f.obj.value.position >= BytesIn(b)
  }

  /** Another packet takes all that is left. */
  predicate LastPart(b: Block) {
    b.f.obj.None? || b.f.obj.value.position + 10204 >= BytesIn(b)
  }

  /** The code with which a send ends the message, if it does. */
  function EndCode(b: Block, net: int): Option<int> {
    if !b.f.hasIp || (b.f.obj.Some? && BytesIn(b) == 0) then Some(-1)
    else if net < 0 then Some(net)
    else if LastPart(b) && !b.f.needReply && !b.hasCompleted then Some(0)
    else None
  }

  /** The block has come to its end, and has told the result callback, if there is one. */
  predicate EndedWith(b: Block, r: Block, code: int) {
    && r.status == Idle && !r.hasCompleted && !r.hasRequest
    && r.calls == b.calls + if b.hasRequest then [OnResult(code)] else []
  }

  /** It waits for an acknowledgement or a reply. */
  predicate StillOut(b: Block, r: Block) {
    && r.status == Sending && r.retries == 0 && r.timeLeft == 100
    && r.calls == b.calls && r.hasCompleted == b.hasCompleted && r.hasRequest == b.hasRequest
  }

  lemma SentFinishes(b: Block, net: int)
    requires Sound(b) && !Exhausted(b.f) && (b.f.obj.None? ==> b.f.wire == [])
    requires b.f.hasIp && (b.f.obj.Some? ==> BytesIn(b) > 0)
    ensures var r := Sent(b, net);
      (Finished(r.f) <==> LastPart(b)) && r.f.needReply == (b.f.needReply || b.hasCompleted)
  {
    SentSteps(b, net);
    SentNeedsReply(b, net);
    hide Sent, InOrder;
  }

  /** Send, exactly: the message ends with the code, or waits. */
  lemma SendCalls(b: Block, net: int)
    requires Sound(b) && !Exhausted(b.f) && (b.f.obj.None? ==> b.f.wire == [])
    ensures var r, code := Sent(b, net), EndCode(b, net);
      if code.Some? then EndedWith(b, r, code.value) else StillOut(b, r)
  {
    SentSteps(b, net);
    if b.f.hasIp && (b.f.obj.Some? ==> BytesIn(b) > 0) { SentFinishes(b, net); }
    hide Sent, Sound;
  }

  /** The reply that the message waits for: of its own kind, when all is out, or goes out at its request. */
  predicate IsReply(b: Block, what: int32, net: int) {
    && b.hasCompleted && what == b.f.tag.what
    && (AllOut(b) || (what == 0x8FFE && b.f.hasIp && net >= 0 && LastPart(b)))
  }

  /** What a message that comes in for a block does to it, exactly. */
  lemma IncomingCalls(b: Block, what: int32, net: int)
    requires Sound(b)
    ensures var r := OnOutMessage(b, what, net);
      if IsReply(b, what, net) then
        r.calls == b.calls + [Replied] && r.status == Idle && !r.hasCompleted && !r.hasRequest
      else if what == 0x8FFE && !AllOut(b) then
        var code := EndCode(b, net);
        if code.Some? then EndedWith(b, r, code.value)
        else if what == b.f.tag.what && LastPart(b) then r.calls == b.calls && r.status == Idle
        else StillOut(b, r)
      else if AllOut(b) && (what == b.f.tag.what || (what == 0x8FFF && !b.hasCompleted)) then
        r.calls == b.calls && r.status == Idle && !r.hasCompleted && !r.hasRequest
      else r == b
  {
    if !Finished(b.f) && what == MORE {
      SendCalls(b, net);
      AdvancedSteps(b, what, net);
      if b.f.hasIp && (b.f.obj.Some? ==> BytesIn(b) > 0) { SentFinishes(b, net); }
    }
    hide Sent, Sound;
  }

  /** And a visit: the first send, a try again, or the end of all tries. */
  lemma VisitCalls(b: Block, net: int)
    requires Sound(b) && (b.status == Waiting ==> !Exhausted(b.f))
    ensures var r := Visited(b, net);
      match b.status
      case Waiting =>
        var code := EndCode(b, net); if code.Some? then EndedWith(b, r, code.value) else StillOut(b, r)
      case Sending =>
        if b.retries == 6 then EndedWith(b, r, -1)
        else if b.timeLeft == 1 then
          r.retries == b.retries + 1 && r.timeLeft == 100 && r.status == Sending && r.calls == b.calls
        else r == b.(timeLeft := b.timeLeft - 1)
      case _ => r == b
  {
    if b.status == Waiting { SendCalls(b, net); }
    hide Sent;
  }

  // ---- in every run ----

  /** The event is a reply, for a block that is still queued. */
  predicate Answers(l: Line, e: Event) {
    l.queued && e.Incoming? && IsReply(l.b, e.what, e.net)
  }

  ghost predicate Answered(l: Line, es: seq<Event>)
    requires Sound(l.b)
    decreases |es|
  {
    es != [] && (Answers(l, es[0]) || Answered(Apply(l, es[0]), es[1..]))
  }

  lemma ApplyReplies(l: Line, e: Event)
    requires Sound(l.b)
    ensures Replied in Apply(l, e).b.calls <==> Replied in l.b.calls || Answers(l, e)
  {
    if l.queued {
      match e
      case Incoming(what, net) =>
        IncomingCalls(l.b, what, net);
        DoneTwiceIsOnce(l.b, net);
      case Visit(net) =>
        VisitedIsSound(l.b, net);
        VisitCalls(l.b, net);
    }
    hide Sound, OnOutMessage, Received, Visited;
  }

  lemma {:induction false} RunReplies(l: Line, es: seq<Event>)
    requires Sound(l.b)
    ensures Replied in Run(l, es).b.calls <==> Replied in l.b.calls || Answered(l, es)
    decreases |es|
  {
    hide Apply, Sound, Answers;
    if es != [] {
      ApplyReplies(l, es[0]);
      RunReplies(Apply(l, es[0]), es[1..]);
    }
  }

  /** The reply callback of a new message runs if and only if a reply reaches it while it is queued, and then
      once, and no other callback does. */
  lemma RepliedIff(b: Block, uid: int32, es: seq<Event>)
    requires Sized(b.f) && b.f.wire == [] && b.calls == []
    ensures Sound(Queued(b, uid))
    ensures var l := Line(Queued(b, uid), true); var calls := Run(l, es).b.calls;
      && (Replied in calls <==> Answered(l, es))
      && (Answered(l, es) ==> calls == [Replied])
  {
    QueuedIsSound(b, uid);
    RunReplies(Line(Queued(b, uid), true), es);
    RunEndsOnce(Line(Queued(b, uid), true), es);
  }
}
