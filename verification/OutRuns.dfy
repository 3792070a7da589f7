/** Whole runs of a queued message: acknowledgements and replies of any kind and visits of the
    update loop, in any order and number. */
module OutRuns {
  import opened Basics
  import opened Wire
  import opened DataObjects
  import opened OutBlocks

  /** A block and whether the out-queue still holds it. */
  datatype Line = Line(b: Block, queued: bool)

  datatype Event = Incoming(what: int32, net: int) | Visit(net: int)

  /** Send is only called where its precondition holds, so it never meets an exhausted object. */
  function Apply(l: Line, e: Event): (r: Line)
    requires Sound(l.b)
    ensures Sound(r.b)
  {
    if !l.queued then l
    else
      match e
      case Incoming(what, net) =>
        OnOutMessageIsSound(l.b, what, net);
        DoneTwiceIsOnce(l.b, net);
        Line(Received(l.b, what, net), true)
      case Visit(net) =>
        VisitedIsSound(l.b, net);
        Line(Visited(l.b, net), Visited(l.b, net).status != Idle)
  }

  /** Wire order: whatever comes in and however often the loop visits, position, status and log
      stay aligned, so that every packet on the wire is a fragment of the one chunking. */
  function Run(l: Line, es: seq<Event>): (r: Line)
    requires Sound(l.b)
    ensures Sound(r.b)
    decreases |es|
  {
    if es == [] then l else Run(Apply(l, es[0]), es[1..])
  }

  lemma {:induction false} RunJoins(l: Line, a: seq<Event>, b: seq<Event>)
    requires Sound(l.b)
    ensures Run(l, a + b) == Run(Run(l, a), b)
    decreases |a|
  {
    if a == [] {
      assert a + b == b;
    } else {
      assert (a + b)[0] == a[0] && (a + b)[1..] == a[1..] + b;
      RunJoins(Apply(l, a[0]), a[1..], b);
    }
  }

  lemma RunOneMore(l: Line, es: seq<Event>, e: Event)
    requires Sound(l.b)
    ensures Run(l, es + [e]) == Apply(Run(l, es), e)
  {
    RunJoins(l, es, [e]);
    assert [e][1..] == [];
  }

  ghost predicate OneChunking(f: Freight, g: Freight) {
    SameMessage(f, g) && f.wire <= g.wire
  }

  lemma StepsKeepMessage(b: Block, r: Block, net: int)
    requires SendStep(b, r, net) || SettleStep(b, r)
    ensures OneChunking(b.f, r.f)
  {
  }

  lemma IncomingKeepsMessage(b: Block, what: int32, net: int)
    requires Sound(b)
    ensures OneChunking(b.f, OnOutMessage(b, what, net).f)
  {
    AdvancedSteps(b, what, net);
    var r := Advanced(b, what, net);
    if r != b { StepsKeepMessage(b, r, net); }
    SettledSteps(r, what);
    assert Settled(r, what).f == r.f;
  }

  lemma VisitKeepsMessage(b: Block, net: int)
    requires Sound(b) && (b.status == Waiting ==> !Exhausted(b.f))
    ensures OneChunking(b.f, Visited(b, net).f)
  {
    if b.status == Waiting {
      hide Sent, SendStep, OneChunking;
      SentSteps(b, net);
      StepsKeepMessage(b, Sent(b, net), net);
    }
  }

  lemma ApplyKeepsMessage(l: Line, e: Event)
    requires Sound(l.b)
    ensures OneChunking(l.b.f, Apply(l, e).b.f)
  {
    if l.queued {
      match e
      case Incoming(what, net) =>
        IncomingKeepsMessage(l.b, what, net);
        DoneTwiceIsOnce(l.b, net);
      case Visit(net) =>
        VisitKeepsMessage(l.b, net);
    }
  }

  /** The log is only added to, and the message it is a chunking of does not change. */
  lemma {:induction false} RunKeepsMessage(l: Line, es: seq<Event>)
    requires Sound(l.b)
    ensures OneChunking(l.b.f, Run(l, es).b.f)
    decreases |es|
  {
    if es != [] {
      ApplyKeepsMessage(l, es[0]);
      RunKeepsMessage(Apply(l, es[0]), es[1..]);
    }
  }

  // ---- at most one callback ends a message ----

  ghost predicate EndedOnce(b: Block) {
    b.calls == [] || (|b.calls| == 1 && !b.hasCompleted && !b.hasRequest)
  }

  lemma StepsEndOnce(b: Block, r: Block, net: int)
    requires EndedOnce(b) && (SendStep(b, r, net) || SettleStep(b, r))
    ensures EndedOnce(r)
  {
  }

  lemma ApplyEndsOnce(l: Line, e: Event)
    requires Sound(l.b) && EndedOnce(l.b)
    ensures EndedOnce(Apply(l, e).b)
  {
    var b := l.b;
    match e
    case Incoming(what, net) =>
      AdvancedSteps(b, what, net);
      var r := Advanced(b, what, net);
      if r != b { StepsEndOnce(b, r, net); }
      SettledSteps(r, what);
      StepsEndOnce(r, Settled(r, what), net);
      DoneTwiceIsOnce(b, net);
    case Visit(net) =>
      if b.status == Waiting {
        SentSteps(b, net);
        StepsEndOnce(b, Sent(b, net), net);
      }
  }

  /** Of the reply callback and the result callback at most one runs, and at most once. */
  lemma {:induction false} RunEndsOnce(l: Line, es: seq<Event>)
    requires Sound(l.b) && EndedOnce(l.b)
    ensures EndedOnce(Run(l, es).b)
    decreases |es|
  {
    if es != [] {
      ApplyEndsOnce(l, es[0]);
      RunEndsOnce(Apply(l, es[0]), es[1..]);
    }
  }

  // ---- every queued block leaves the queue ----

  /** Six timeouts of a hundred visits each, and the visit that gives up. */
  const VISITS_PER_SEND := 601

  /** Visits until the block is given up if nothing comes in. */
  function Patience(b: Block): int {
    if b.status == Sending && b.retries < MAX_RETRIES then
      b.timeLeft + 100 * (5 - b.retries) + 1
    else 1
  }

  function VisitsLeft(b: Block): int {
    VISITS_PER_SEND * (AllFragments(b.f) - NextIndex(b.f.wire)) + Patience(b)
  }

  lemma SendUsesVisits(b: Block, r: Block, net: int)
    requires Sound(b) && b.status != Receiving && !Exhausted(b.f) && (b.f.obj.None? ==> b.f.wire == [])
    requires SendStep(b, r, net)
    ensures r.status != Receiving && VisitsLeft(r) <= VisitsLeft(b)
    ensures r.status != Idle && b.status == Waiting ==> VisitsLeft(r) < VisitsLeft(b)
  {
    assert AllFragments(r.f) == AllFragments(b.f);
    assert 1 <= Patience(b) && Patience(r) <= VISITS_PER_SEND;
  }

  lemma SettlingUsesVisits(b: Block, r: Block)
    requires Sound(b) && b.status != Receiving && SettleStep(b, r)
    ensures r.status != Receiving && VisitsLeft(r) <= VisitsLeft(b)
  {
  }

  lemma IncomingUsesVisits(b: Block, what: int32, net: int)
    requires Sound(b) && b.status != Receiving
    ensures var r := OnOutMessage(b, what, net); r.status != Receiving && VisitsLeft(r) <= VisitsLeft(b)
  {
    AdvancedSteps(b, what, net);
    var r := Advanced(b, what, net);
    if !Finished(b.f) && what == MORE { SendUsesVisits(b, r, net); }
    SettledSteps(r, what);
    SettlingUsesVisits(r, Settled(r, what));
  }

  lemma VisitUsesVisits(b: Block, net: int)
    requires Sound(b) && b.status != Receiving && (b.status == Waiting ==> !Exhausted(b.f))
    ensures var r := Visited(b, net); r.status != Receiving && (r.status != Idle ==> VisitsLeft(r) < VisitsLeft(b))
  {
    if b.status == Waiting {
      SentSteps(b, net);
      SendUsesVisits(b, Sent(b, net), net);
    } else if b.status == Sending {
      UnansweredVisit(b, net);
    }
  }

  lemma ApplyUsesVisits(l: Line, e: Event)
    requires Sound(l.b) && (l.queued ==> l.b.status != Receiving)
    ensures var r := Apply(l, e);
      r.queued ==> r.b.status != Receiving && VisitsLeft(r.b) <= VisitsLeft(l.b) - if e.Visit? then 1 else 0
  {
    if l.queued {
      match e
      case Incoming(what, net) =>
        DoneTwiceIsOnce(l.b, net);
        IncomingUsesVisits(l.b, what, net);
      case Visit(net) =>
        VisitUsesVisits(l.b, net);
    }
  }

  function Visits(es: seq<Event>): nat {
    if es == [] then 0 else (if es[0].Visit? then 1 else 0) + Visits(es[1..])
  }

  /** Whatever comes in, a queued block has left the queue after VisitsLeft visits. */
  lemma {:induction false} RunLeavesQueue(l: Line, es: seq<Event>)
    requires Sound(l.b) && (l.queued ==> l.b.status != Receiving && Visits(es) >= VisitsLeft(l.b))
    ensures !Run(l, es).queued
    decreases |es|
  {
    if es != [] {
      ApplyUsesVisits(l, es[0]);
      RunLeavesQueue(Apply(l, es[0]), es[1..]);
    }
  }

  /** While it stays queued, every visit uses up one of those left, and nothing gives any back. */
  lemma {:induction false} RunUsesVisits(l: Line, es: seq<Event>)
    requires Sound(l.b) && (l.queued ==> l.b.status != Receiving)
    ensures var r := Run(l, es);
      && (r.queued ==> l.queued && r.b.status != Receiving && VisitsLeft(r.b) <= VisitsLeft(l.b) - Visits(es))
    decreases |es|
  {
    if es != [] {
      ApplyUsesVisits(l, es[0]);
      RunUsesVisits(Apply(l, es[0]), es[1..]);
    }
  }

  lemma {:induction false} VisitsJoin(a: seq<Event>, b: seq<Event>)
    ensures Visits(a + b) == Visits(a) + Visits(b)
    decreases |a|
  {
    if a == [] {
      assert a + b == b;
    } else {
      assert (a + b)[0] == a[0] && (a + b)[1..] == a[1..] + b;
      VisitsJoin(a[1..], b);
    }
  }

  /** For a message of n > 0 bytes that is 601 * ceil(n / 10204) + 1 visits. */
  lemma QueuedLeavesQueue(b: Block, uid: int32, es: seq<Event>)
    requires Sized(b.f) && b.f.wire == [] && b.f.obj.Some? && Size(b.f.obj.value) > 0
    requires Visits(es) >= 601 * CeilDiv(Size(b.f.obj.value), 10204) + 1
    ensures Sound(Queued(b, uid)) && !Run(Line(Queued(b, uid), true), es).queued
  {
    QueuedIsSound(b, uid);
    RunLeavesQueue(Line(Queued(b, uid), true), es);
  }

  lemma UnansweredVisit(b: Block, net: int)
    requires Sound(b) && b.status == Sending
    ensures var r := Apply(Line(b, true), Visit(net));
      if b.retries == MAX_RETRIES then !r.queued && r.b.f.wire == b.f.wire
      else if b.timeLeft == 1 then
        && r.queued && r.b.status == Sending && r.b.retries == b.retries + 1 && r.b.timeLeft == TIMEOUT
        && r.b.f == Repeated(b.f, net >= 0)
      else r.queued && r.b == b.(timeLeft := b.timeLeft - 1)
  {
  }

  /** l is b after n visits and nothing else. */
  ghost predicate Unanswered(b: Block, l: Line, n: nat)
    requires b.f.wire != []
  {
    && l.queued == (n < VISITS_PER_SEND)
    && (l.queued ==> l.b.status == Sending && l.b.retries <= MAX_RETRIES && 1 <= l.b.timeLeft <= TIMEOUT
                     && n == 100 * l.b.retries + (TIMEOUT - l.b.timeLeft))
    && b.f.wire <= l.b.f.wire
    && |l.b.f.wire| == |b.f.wire| + (if l.queued then l.b.retries else MAX_RETRIES)
    && (forall j :: |b.f.wire| <= j < |l.b.f.wire| ==>
          !l.b.f.wire[j].isNew && l.b.f.wire[j].packet == b.f.wire[|b.f.wire| - 1].packet)
  }

  lemma UnansweredStep(b: Block, l: Line, n: nat, net: int)
    requires b.f.wire != [] && Sound(l.b) && Unanswered(b, l, n) && n < VISITS_PER_SEND
    ensures Unanswered(b, Apply(l, Visit(net)), n + 1)
  {
    UnansweredVisit(l.b, net);
  }

  /** Retry exactness: after a send that nothing answers, the same packet is sent again on every
      hundredth visit, six times, and the visit after that, the 601st, gives the block up. */
  lemma {:induction false} UnansweredVisits(b: Block, es: seq<Event>)
    requires Sound(b) && b.status == Sending && b.retries == 0 && b.timeLeft == TIMEOUT
    requires forall k :: 0 <= k < |es| ==> es[k].Visit?
    requires |es| <= VISITS_PER_SEND
    ensures Unanswered(b, Run(Line(b, true), es), |es|)
    decreases |es|
  {
    if es != [] {
      var n := |es| - 1;
      var front, net := es[..n], es[n].net;
      assert es == front + [Visit(net)];
      UnansweredVisits(b, front);
      RunOneMore(Line(b, true), front, Visit(net));
      UnansweredStep(b, Run(Line(b, true), front), n, net);
    }
  }

  // ---- in every run at most six repeats in a row ----

  /** How many attempts at the end of the log repeat a packet. */
  function Repeats(w: seq<Attempt>): nat {
    if w == [] || w[|w| - 1].isNew then 0 else 1 + Repeats(w[..|w| - 1])
  }

  ghost predicate NeverLong(w: seq<Attempt>) {
    forall n :: 0 <= n <= |w| ==> Repeats(w[..n]) <= MAX_RETRIES
  }

  /** The retry counter of a block that is being sent covers the repeats. */
  ghost predicate Patient(b: Block) {
    NeverLong(b.f.wire) && (b.status == Sending ==> Repeats(b.f.wire) <= b.retries)
  }

  ghost predicate OneMore(w: seq<Attempt>, v: seq<Attempt>) {
    |v| == |w| + 1 && v[..|w|] == w
  }

  /** How log and counter change together. */
  ghost predicate RetryStep(b: Block, r: Block) {
    var w, v := b.f.wire, r.f.wire;
    || (v == w && (r.status == Sending ==> b.status == Sending && r.retries == b.retries))
    || (OneMore(w, v) && v[|w|].isNew)
    || (OneMore(w, v) && !v[|w|].isNew && b.status == r.status == Sending && r.retries == b.retries + 1 <= MAX_RETRIES)
  }

  lemma IncomingRetryStep(b: Block, what: int32, net: int)
    requires Sound(b)
    ensures RetryStep(b, OnOutMessage(b, what, net))
  {
    AdvancedSteps(b, what, net);
    SettledSteps(Advanced(b, what, net), what);
  }

  lemma VisitRetryStep(b: Block, net: int)
    requires Sound(b) && (b.status == Waiting ==> !Exhausted(b.f))
    ensures RetryStep(b, Visited(b, net))
  {
    if b.status == Waiting {
      hide Sent;
      SentSteps(b, net);
    }
  }

  lemma ApplyRetryStep(l: Line, e: Event)
    requires Sound(l.b)
    ensures RetryStep(l.b, Apply(l, e).b)
  {
    if l.queued {
      match e
      case Incoming(what, net) =>
        IncomingRetryStep(l.b, what, net);
        DoneTwiceIsOnce(l.b, net);
      case Visit(net) =>
        VisitedIsSound(l.b, net);
        VisitRetryStep(l.b, net);
    }
  }

  lemma OneMoreRepeats(w: seq<Attempt>, v: seq<Attempt>)
    requires OneMore(w, v)
    ensures Repeats(v) == if v[|w|].isNew then 0 else Repeats(w) + 1
    ensures NeverLong(w) && Repeats(v) <= MAX_RETRIES ==> NeverLong(v)
  {
    if NeverLong(w) && Repeats(v) <= MAX_RETRIES {
      forall n | 0 <= n <= |v| ensures Repeats(v[..n]) <= MAX_RETRIES {
        if n <= |w| { assert v[..n] == w[..n]; } else { assert v[..n] == v; }
      }
    }
  }

  lemma RetryStepIsPatient(b: Block, r: Block)
    requires Sound(b) && Patient(b) && RetryStep(b, r)
    ensures Patient(r)
  {
    if OneMore(b.f.wire, r.f.wire) { OneMoreRepeats(b.f.wire, r.f.wire); }
  }

  lemma {:induction false} RunIsPatient(l: Line, es: seq<Event>)
    requires Sound(l.b) && Patient(l.b)
    ensures Patient(Run(l, es).b)
    decreases |es|
  {
    hide Apply, Sound, Patient;
    if es != [] {
      ApplyRetryStep(l, es[0]);
      RetryStepIsPatient(l.b, Apply(l, es[0]).b);
      RunIsPatient(Apply(l, es[0]), es[1..]);
    }
  }

  lemma {:induction false} ManyRepeats(w: seq<Attempt>, n: nat)
    requires n <= |w| && forall i :: |w| - n <= i < |w| ==> !w[i].isNew
    ensures Repeats(w) >= n
  {
    if n > 0 { ManyRepeats(w[..|w| - 1], n - 1); }
  }

  /** Of any seven attempts in a row that a message makes in any run, one is the first of a fragment: after
      each first try at most six repeats follow, whatever comes in. */
  lemma SixRepeatsAtMost(b: Block, uid: int32, es: seq<Event>, j: nat)
    requires Sized(b.f) && b.f.wire == []
    ensures Sound(Queued(b, uid))
    ensures var w := Run(Line(Queued(b, uid), true), es).b.f.wire;
      j + 7 <= |w| ==> exists i :: j <= i < j + 7 && w[i].isNew
  {
    QueuedIsSound(b, uid);
    assert Patient(Queued(b, uid));
    RunIsPatient(Line(Queued(b, uid), true), es);
    var w := Run(Line(Queued(b, uid), true), es).b.f.wire;
    if j + 7 <= |w| && forall i :: j <= i < j + 7 ==> !w[i].isNew {
      ManyRepeats(w[..j + 7], 7);
    }
  }

  // ---- a fragment is skipped only by a refusal of the socket ----

  /** A queued block that is idle with bytes left has just had a new send refused by the socket. */
  ghost predicate StoppedByRefusal(l: Line) {
    l.queued && l.b.status == Idle && !Finished(l.b.f) && l.b.f.hasIp ==>
      && l.b.f.wire != []
      && l.b.f.wire[|l.b.f.wire| - 1].isNew && !l.b.f.wire[|l.b.f.wire| - 1].ok
  }

  lemma ApplyStopsByRefusal(l: Line, e: Event)
    requires Sound(l.b) && StoppedByRefusal(l)
    ensures StoppedByRefusal(Apply(l, e))
  {
    match e
    case Incoming(what, net) =>
      AdvancedSteps(l.b, what, net);
      SettledSteps(Advanced(l.b, what, net), what);
      DoneTwiceIsOnce(l.b, net);
    case Visit(net) =>
  }

  /** The only block that a request for more can bring back to life has lost a fragment to the
      socket: neither an acknowledgement nor giving up leaves unsent bytes in the queue. */
  lemma {:induction false} RunStopsByRefusal(l: Line, es: seq<Event>)
    requires Sound(l.b) && StoppedByRefusal(l)
    ensures StoppedByRefusal(Run(l, es))
    decreases |es|
  {
    if es != [] {
      ApplyStopsByRefusal(l, es[0]);
      RunStopsByRefusal(Apply(l, es[0]), es[1..]);
    }
  }
}
