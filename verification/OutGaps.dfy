/** When does a sender skip a fragment? A new send that the socket refuses leaves the block idle
    with its object moved on, and a request for more that still reaches it goes on with the fragment
    after the refused one (robotbus/lib/MessageBlock.cpp:98-135, robotbus/lib/MessagePool.cpp:298-301). */
module OutGaps {
  import opened Basics
  import opened Wire
  import opened DataObjects
  import opened OutBlocks
  import opened OutRuns

  /** The socket has taken some try of the k-th fragment. */
  ghost predicate Accepted(wire: seq<Attempt>, k: int) {
    exists i :: 0 <= i < |wire| && wire[i].index == k && wire[i].ok
  }

  /** The j-th attempt is the first of a fragment, and no try of the one before it was taken. */
  ghost predicate SkipsAt(wire: seq<Attempt>, j: nat)
    requires j < |wire|
  {
    j > 0 && wire[j].isNew && !Accepted(wire[..j], wire[j].index - 1)
  }

  ghost predicate HasGap(wire: seq<Attempt>) {
    exists j :: 0 <= j < |wire| && SkipsAt(wire, j)
  }

  predicate LastRefused(wire: seq<Attempt>) {
    wire != [] && wire[|wire| - 1].isNew && !wire[|wire| - 1].ok
  }

  /** A request for more for a queued block whose last new send was refused. */
  predicate Revives(l: Line, e: Event) {
    && l.queued && l.b.f.hasIp && !Finished(l.b.f) && LastRefused(l.b.f.wire)
    && e.Incoming? && e.what == MORE
  }

  /** One of the events of a run is such a request. */
  ghost predicate Revived(l: Line, es: seq<Event>)
    requires Sound(l.b)
    decreases |es|
  {
    es != [] && (Revives(l, es[0]) || Revived(Apply(l, es[0]), es[1..]))
  }

  /** A revived block goes on with the next fragment, whether or not the last one was taken. */
  lemma RevivedGoesOn(l: Line, net: int)
    requires Sound(l.b) && l.queued && l.b.f.hasIp && !Finished(l.b.f)
    ensures var r := Apply(l, Incoming(MORE, net)); var n := |l.b.f.wire|;
      && |r.b.f.wire| == n + 1 && r.b.f.wire[..n] == l.b.f.wire
      && r.b.f.wire[n].isNew && r.b.f.wire[n].ok == (net >= 0)
      && r.b.f.wire[n].index == NextIndex(l.b.f.wire)
      && r.b.f.wire[n].packet == Fragment(ContentOf(r.b.f), NextIndex(l.b.f.wire))
      && (net >= 0 && !Finished(r.b.f) ==> r.b.status == Sending)
  {
    AdvancedSteps(l.b, MORE, net);
    SettledSteps(Advanced(l.b, MORE, net), MORE);
  }

  // ---- what one event does to the log ----

  /** One more attempt. */
  ghost predicate Extends(w: seq<Attempt>, v: seq<Attempt>, index: int, isNew: bool) {
    |v| == |w| + 1 && v[..|w|] == w && v[|w|].index == index && v[|w|].isNew == isNew
  }

  /** How the log can change: not at all, by another try of the last packet, or by a new one. */
  ghost predicate LogStep(l: Line, e: Event, r: Line) {
    var w, v := l.b.f.wire, r.b.f.wire;
    && (r.queued ==> l.queued) && (Finished(l.b.f) ==> Finished(r.b.f))
    && if l.queued && l.b.f.hasIp && e.Incoming? && e.what == MORE && !Finished(l.b.f) then
      Extends(w, v, NextIndex(w), true) && (r.b.status == Sending ==> v[|w|].ok)
    else if l.queued && e.Visit? && l.b.status == Waiting then
      (v == w && r.b.status != Sending)
      || (w == [] && Extends(w, v, 0, true) && (r.b.status == Sending ==> v[|w|].ok))
    else
      && (r.b.status == Sending ==> l.b.status == Sending)
      && (v == w || (w != [] && l.b.status == Sending && Extends(w, v, w[|w| - 1].index, false)))
  }

  lemma IncomingLogStep(l: Line, what: int32, net: int)
    requires Sound(l.b) && l.queued
    ensures LogStep(l, Incoming(what, net), Apply(l, Incoming(what, net)))
  {
    DoneTwiceIsOnce(l.b, net);
    AdvancedSteps(l.b, what, net);
    SettledSteps(Advanced(l.b, what, net), what);
  }

  lemma FirstLogStep(l: Line, net: int)
    requires Sound(l.b) && l.queued && l.b.status == Waiting
    ensures LogStep(l, Visit(net), Apply(l, Visit(net)))
  {
    SentSteps(l.b, net);
  }

  lemma LaterLogStep(l: Line, net: int)
    requires Sound(l.b) && l.queued && l.b.status != Waiting
    ensures LogStep(l, Visit(net), Apply(l, Visit(net)))
  {
  }

  lemma ApplyLogStep(l: Line, e: Event)
    requires Sound(l.b)
    ensures LogStep(l, e, Apply(l, e))
  {
    if l.queued {
      match e
      case Incoming(what, net) => IncomingLogStep(l, what, net);
      case Visit(net) => if l.b.status == Waiting { FirstLogStep(l, net); } else { LaterLogStep(l, net); }
    }
  }

  // ---- gaps in the log ----

  lemma {:induction false} IndicesGrow(m: Content, wire: seq<Attempt>, i: nat, j: nat)
    requires DataSize(m) < 0x8000_0000 && InOrder(m, wire) && i <= j < |wire|
    ensures wire[i].index <= wire[j].index && (i < j && wire[j].isNew ==> wire[i].index < wire[j].index)
    decreases j - i
  {
    if i < j { IndicesGrow(m, wire, i, j - 1); }
  }

  lemma RefusedIsNotAccepted(f: Freight)
    requires Aligned(f) && LastRefused(f.wire)
    ensures !Accepted(f.wire, NextIndex(f.wire) - 1)
  {
    var w := f.wire;
    forall i | 0 <= i < |w| && w[i].index == NextIndex(w) - 1 ensures !w[i].ok {
      IndicesGrow(ContentOf(f), w, i, |w| - 1);
    }
  }

  lemma ExtendedAccepts(w: seq<Attempt>, v: seq<Attempt>, index: int, isNew: bool, k: int)
    requires Extends(w, v, index, isNew)
    ensures Accepted(v, k) <==> Accepted(w, k) || (index == k && v[|w|].ok)
  {
    forall i | 0 <= i < |w| ensures v[i] == w[i] { assert v[i] == v[..|w|][i]; }
    if Accepted(w, k) {
      var i :| 0 <= i < |w| && w[i].index == k && w[i].ok;
      assert v[i] == w[i];
    }
  }

  lemma ExtendedGaps(w: seq<Attempt>, v: seq<Attempt>, index: int, isNew: bool)
    requires Extends(w, v, index, isNew)
    ensures HasGap(v) <==> HasGap(w) || (isNew && w != [] && !Accepted(w, index - 1))
  {
    forall j | 0 <= j < |w| ensures SkipsAt(v, j) <==> SkipsAt(w, j) {
      assert v[..j] == v[..|w|][..j] == w[..j] && v[j] == v[..|w|][j];
    }
    assert SkipsAt(v, |w|) <==> isNew && w != [] && !Accepted(w, index - 1);
    if HasGap(w) {
      var j :| 0 <= j < |w| && SkipsAt(w, j);
      assert SkipsAt(v, j);
    }
  }

  /** A block that is being sent has had its last fragment taken; one with bytes left whose last
      fragment was not taken has had its new send refused. */
  ghost predicate Fed(l: Line) {
    var w := l.b.f.wire;
    && (l.b.status == Sending ==> Accepted(w, NextIndex(w) - 1))
    && (l.queued && w != [] && !Finished(l.b.f) && !Accepted(w, NextIndex(w) - 1) ==> LastRefused(w))
  }

  lemma StepKeepsFed(l: Line, e: Event, r: Line)
    requires LogStep(l, e, r) && Fed(l)
    requires l.b.status == Waiting ==> l.b.f.wire == []
    ensures Fed(r)
  {
    var w, v := l.b.f.wire, r.b.f.wire;
    if v != w { ExtendedAccepts(w, v, v[|w|].index, v[|w|].isNew, v[|w|].index); }
  }

  lemma ApplyKeepsFed(l: Line, e: Event)
    requires Sound(l.b) && Fed(l)
    ensures Fed(Apply(l, e))
  {
    ApplyLogStep(l, e);
    StepKeepsFed(l, e, Apply(l, e));
  }

  lemma ApplyGaps(l: Line, e: Event)
    requires Sound(l.b) && Fed(l)
    ensures HasGap(Apply(l, e).b.f.wire) <==> HasGap(l.b.f.wire) || Revives(l, e)
  {
    var w, v := l.b.f.wire, Apply(l, e).b.f.wire;
    ApplyLogStep(l, e);
    if LastRefused(w) { RefusedIsNotAccepted(l.b.f); }
    if v != w { ExtendedGaps(w, v, v[|w|].index, v[|w|].isNew); }
  }

  /** When a fragment is skipped: the log of a run has a gap that was not there before if and only if
      a request for more reaches the queued block after a refused new send. */
  lemma {:induction false} RunSkipsIff(l: Line, es: seq<Event>)
    requires Sound(l.b) && Fed(l)
    ensures HasGap(Run(l, es).b.f.wire) <==> HasGap(l.b.f.wire) || Revived(l, es)
    decreases |es|
  {
    if es != [] {
      ApplyKeepsFed(l, es[0]);
      ApplyGaps(l, es[0]);
      RunSkipsIff(Apply(l, es[0]), es[1..]);
    }
  }

  /** For a new message: every fragment that follows another does so after that one was taken by the
      socket, if and only if no request for more reaches the block after a refused new send. */
  lemma NewMessageSkipsIff(b: Block, uid: int32, es: seq<Event>)
    requires Sized(b.f) && b.f.wire == []
    ensures Sound(Queued(b, uid))
    ensures var l := Line(Queued(b, uid), true); HasGap(Run(l, es).b.f.wire) <==> Revived(l, es)
  {
    QueuedIsSound(b, uid);
    RunSkipsIff(Line(Queued(b, uid), true), es);
  }

  // ---- runs that skip or run ahead ----

  lemma RunThree(l: Line, e: Event, f: Event, g: Event)
    requires Sound(l.b)
    ensures Run(l, [e, f, g]) == Apply(Apply(Apply(l, e), f), g)
  {
    RunOneMore(l, [], e);
    RunOneMore(l, [e], f);
    RunOneMore(l, [e, f], g);
    assert [] + [e] == [e] && [e] + [f] == [e, f] && [e, f] + [g] == [e, f, g];
  }

  predicate HasThree(f: Freight) {
    f.hasIp && f.obj.Some? && Size(f.obj.value) > 20408
  }

  lemma FirstOfThree(b: Block, uid: int32)
    requires Sized(b.f) && b.f.wire == [] && HasThree(b.f)
    ensures Sound(Queued(b, uid))
    ensures var r := Apply(Line(Queued(b, uid), true), Visit(0));
      && r.queued && HasThree(r.b.f) && !Finished(r.b.f)
      && |r.b.f.wire| == 1 && r.b.f.wire[0].index == 0 && r.b.f.wire[0].isNew && r.b.f.wire[0].ok
  {
    QueuedIsSound(b, uid);
    SentSteps(Queued(b, uid), 0);
  }

  /** Any request for more that reaches an unfinished block in the queue brings out a fragment. */
  lemma NextOfThree(l: Line, net: int)
    requires Sound(l.b) && l.queued && HasThree(l.b.f) && !Finished(l.b.f) && NextIndex(l.b.f.wire) <= 1
    ensures var r := Apply(l, Incoming(MORE, net)); r.queued && HasThree(r.b.f) && !Finished(r.b.f)
  {
    RevivedGoesOn(l, net);
    IncomingKeepsMessage(l.b, MORE, net);
    DoneTwiceIsOnce(l.b, net);
  }

  /** Two requests for more in a row bring out the second and the third fragment, whatever has
      reached the receiver: if the socket refuses the second, it is never sent again. */
  lemma TwoRequests(b: Block, uid: int32, net: int)
    requires Sized(b.f) && b.f.wire == [] && HasThree(b.f)
    ensures Sound(Queued(b, uid))
    ensures var w := Run(Line(Queued(b, uid), true), [Visit(0), Incoming(MORE, net), Incoming(MORE, 0)]).b.f.wire;
      && |w| == 3 && w[0].index == 0 && w[1].index == 1 && w[2].index == 2
      && w[0].ok && (w[1].ok <==> net >= 0) && w[2].ok
      && (HasGap(w) <==> net < 0)
  {
    FirstOfThree(b, uid);
    var l0 := Line(Queued(b, uid), true);
    var l1 := Apply(l0, Visit(0));
    RevivedGoesOn(l1, net);
    NextOfThree(l1, net);
    var l2 := Apply(l1, Incoming(MORE, net));
    RevivedGoesOn(l2, 0);
    RunThree(l0, Visit(0), Incoming(MORE, net), Incoming(MORE, 0));
    GapOfThree(Apply(l2, Incoming(MORE, 0)).b.f.wire, l2.b.f.wire, l1.b.f.wire);
  }

  lemma GapOfThree(w: seq<Attempt>, v: seq<Attempt>, u: seq<Attempt>)
    requires |u| == 1 && Extends(u, v, 1, true) && Extends(v, w, 2, true) && u[0].index == 0 && u[0].ok
    ensures w[0] == u[0] && w[1] == v[1] && (HasGap(w) <==> !v[1].ok)
  {
    assert w[..2][0] == w[0] && w[..2][1] == w[1] && v[..1][0] == v[0];
    assert Accepted(u, 0);
    assert !HasGap(u);
    ExtendedGaps(u, v, 1, true);
    ExtendedAccepts(u, v, 1, true, 1);
    ExtendedGaps(v, w, 2, true);
  }

  /** A block of three fragments. */
  function ThreeFragments(): Block {
    Block(Freight(Tag(0, 0, 1, 0, 0), BYTES_OBJECT, Some(Obj(Some(seq(20409, _ => 0)), 0, Unopened, Fresh)),
                  true, false, []), Idle, 0, 0, false, false, [])
  }

  /** The second of its fragments is refused, and a late request brings out the third. */
  lemma FragmentIsSkipped()
    ensures Sound(Queued(ThreeFragments(), 1))
    ensures var l := Line(Queued(ThreeFragments(), 1), true);
      var es := [Visit(0), Incoming(MORE, -1), Incoming(MORE, 0)];
      HasGap(Run(l, es).b.f.wire) && Revived(l, es)
  {
    TwoRequests(ThreeFragments(), 1, -1);
    NewMessageSkipsIff(ThreeFragments(), 1, [Visit(0), Incoming(MORE, -1), Incoming(MORE, 0)]);
  }
}
