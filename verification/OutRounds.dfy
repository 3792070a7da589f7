/** Passes of the update loop over the out-queue (robotbus/lib/MessagePool.cpp). A pass erases idle
    messages and steps over the one after each, so that it does not reach all of them. */
module OutRounds {
  import opened Basics
  import opened DataObjects
  import opened OutBlocks
  import opened OutPools
  import OutRuns

  /** The visits of a pass from the i-th entry on; `nets` is what the socket returns. An erased entry
      moves the next one to its place, and the pass goes on behind it. */
  function PassVisits(p: Pool, i: nat, nets: nat -> int): seq<Event>
    requires Ok(p)
    decreases |p.queue| - i
  {
    if i >= |p.queue| then []
    else
      ApplyIsOk(p, Visit(i, nets(i)));
      [Visit(i, nets(i))] + PassVisits(VisitedAt(p, i, nets(i)), i + 1, nets)
  }

  lemma {:induction false} PassIsFeasible(p: Pool, i: nat, nets: nat -> int)
    requires Ok(p)
    ensures Feasible(p, PassVisits(p, i, nets))
    decreases |p.queue| - i
  {
    if i < |p.queue| {
      ApplyIsOk(p, Visit(i, nets(i)));
      PassIsFeasible(VisitedAt(p, i, nets(i)), i + 1, nets);
    }
  }

  /** The pool after a pass from the i-th entry on. */
  function Passed(p: Pool, i: nat, nets: nat -> int): (q: Pool)
    requires Ok(p)
    ensures Ok(q)
  {
    PassIsFeasible(p, i, nets);
    Run(p, PassVisits(p, i, nets))
  }

  /** How often the pass visits a message. */
  function VisitsIn(p: Pool, i: nat, nets: nat -> int, uid: int32, ip: string): nat
    requires Ok(p)
  {
    PassIsFeasible(p, i, nets);
    OutRuns.Visits(SeenAll(p, PassVisits(p, i, nets), uid, ip))
  }

  lemma RunFirst(p: Pool, e: Event, q: Pool, es: seq<Event>, uid: int32, ip: string)
    requires Ok(p) && Allowed(p, e) && q == Apply(p, e) && Ok(q) && Feasible(q, es)
    ensures Feasible(p, [e] + es) && Run(p, [e] + es) == Run(q, es)
    ensures SeenAll(p, [e] + es, uid, ip) == Seen(p, e, uid, ip) + SeenAll(q, es, uid, ip)
  {
    assert ([e] + es)[0] == e && ([e] + es)[1..] == es;
  }

  lemma PassGoesOn(p: Pool, i: nat, nets: nat -> int, uid: int32, ip: string)
    requires Ok(p) && i < |p.queue|
    ensures var q := VisitedAt(p, i, nets(i));
      && Ok(q) && Passed(p, i, nets) == Passed(q, i + 1, nets)
      && VisitsIn(p, i, nets, uid, ip)
         == (if p.queue[i].b.f.tag.uid == uid then 1 else 0) + VisitsIn(q, i + 1, nets, uid, ip)
  {
    var e := Visit(i, nets(i));
    ApplyIsOk(p, e);
    var q := Apply(p, e);
    var es := PassVisits(q, i + 1, nets);
    PassIsFeasible(q, i + 1, nets);
    RunFirst(p, e, q, es, uid, ip);
    OutRuns.VisitsJoin(Seen(p, e, uid, ip), SeenAll(q, es, uid, ip));
    assert OutRuns.Visits([OutRuns.Visit(nets(i))]) == 1;
    assert PassVisits(p, i, nets) == [e] + es;
  }

  lemma PassEnds(p: Pool, i: nat, nets: nat -> int)
    requires Ok(p) && i >= |p.queue|
    ensures Passed(p, i, nets) == p
  {
  }

  lemma VisitKeepsFront(p: Pool, i: nat, net: int)
    requires Ok(p) && i < |p.queue|
    ensures var q := VisitedAt(p, i, net).queue; i <= |q| && q[..i] == p.queue[..i] && |q| <= |p.queue|
  {
    hide Visited, Ok;
  }

  /** What is before the place the pass goes on from stays as it is. */
  lemma {:induction false} FrontStays(p: Pool, i: nat, nets: nat -> int)
    requires Ok(p) && i <= |p.queue|
    ensures var q := Passed(p, i, nets).queue; i <= |q| && q[..i] == p.queue[..i]
    decreases |p.queue| - i
  {
    hide Ok, Passed, VisitedAt, VisitsIn;
    if i == |p.queue| {
      PassEnds(p, i, nets);
    } else {
      var q := VisitedAt(p, i, nets(i));
      PassGoesOn(p, i, nets, 0, "");
      VisitKeepsFront(p, i, nets(i));
      if i < |q.queue| {
        FrontStays(q, i + 1, nets);
        var r := Passed(q, i + 1, nets).queue;
        assert r[..i] == r[..i + 1][..i] && q.queue[..i + 1][..i] == q.queue[..i];
      } else {
        PassEnds(q, i + 1, nets);
      }
    }
  }

  /** The turn of the entry at a place: if its visit leaves it idle it is gone, and the one behind it comes to its
      place and is left alone in this pass; otherwise it stays there, as the visit leaves it. */
  lemma TurnInPass(p: Pool, i: nat, nets: nat -> int)
    requires Ok(p) && i < |p.queue| && EntryOk(p, i)
    ensures var b, q := Visited(p.queue[i].b, nets(i)), Passed(p, i, nets).queue;
      if b.status != Idle then i < |q| && q[i] == Entry(p.queue[i].ip, b)
      else if i + 1 < |p.queue| then i < |q| && q[i] == p.queue[i + 1]
      else q == p.queue[..i]
  {
    var q := VisitedAt(p, i, nets(i));
    PassGoesOn(p, i, nets, 0, "");
    if i < |q.queue| {
      FrontStays(q, i + 1, nets);
      var r := Passed(q, i + 1, nets).queue;
      assert r[..i + 1][i] == q.queue[..i + 1][i];
    }
  }

  // ---- the same on message numbers alone ----

  function Numbers(p: Pool): seq<int> {
    seq(|p.queue|, i requires 0 <= i < |p.queue| => p.queue[i].b.f.tag.uid)
  }

  /** A pass from the i-th number on; each choice says whether the number that is visited is erased. */
  function PassOver(ns: seq<int>, i: nat, choices: seq<bool>): seq<int>
    decreases |choices|
  {
    if i >= |ns| || choices == [] then ns
    else PassOver(if choices[0] then Without(ns, i) else ns, i + 1, choices[1..])
  }

  function VisitsTo(ns: seq<int>, i: nat, choices: seq<bool>, n: int): nat
    decreases |choices|
  {
    if i >= |ns| || choices == [] then 0
    else (if ns[i] == n then 1 else 0) + VisitsTo(if choices[0] then Without(ns, i) else ns, i + 1, choices[1..], n)
  }

  /** The choices last to the end of the list. */
  predicate ToTheEnd(ns: seq<int>, i: nat, choices: seq<bool>)
    decreases |choices|
  {
    i >= |ns| || (choices != [] && ToTheEnd(if choices[0] then Without(ns, i) else ns, i + 1, choices[1..]))
  }

  predicate Increasing(ns: seq<int>) {
    forall i, j :: 0 <= i < j < |ns| ==> ns[i] < ns[j]
  }

  lemma {:induction false} GoneStaysGone(ns: seq<int>, i: nat, choices: seq<bool>, n: int)
    requires n !in ns
    ensures n !in PassOver(ns, i, choices)
    decreases |choices|
  {
    if i < |ns| && choices != [] { GoneStaysGone(if choices[0] then Without(ns, i) else ns, i + 1, choices[1..], n); }
  }

  /** Behind a number a pass leaves it where it is. */
  lemma {:induction false} PassBehind(ns: seq<int>, i: nat, choices: seq<bool>, place: nat)
    requires place < |ns| && i > place
    ensures var r := PassOver(ns, i, choices); place < |r| && r[place] == ns[place]
    decreases |choices|
  {
    if i < |ns| && choices != [] { PassBehind(if choices[0] then Without(ns, i) else ns, i + 1, choices[1..], place); }
  }

  /** What a pass has done for a number: it has left, has been visited, or has moved up. */
  predicate Served(r: seq<int>, n: int, place: nat, visits: nat) {
    n !in r || (place < |r| && r[place] == n && visits > 0) || n in r[..Min(place, |r|)]
  }

  lemma ErasedBefore(ns: seq<int>, i: nat, place: nat)
    requires Increasing(ns) && i <= place < |ns|
    ensures Increasing(Without(ns, i))
    ensures if i < place then Without(ns, i)[place - 1] == ns[place] else ns[place] !in Without(ns, i)
  {
  }

  lemma ServedHigherUp(r: seq<int>, n: int, place: nat, visits: nat)
    requires place > 0 && (Served(r, n, place - 1, visits) || (place - 1 < |r| && r[place - 1] == n))
    ensures Served(r, n, place, visits)
  {
    if n in r && (place - 1 < |r| && r[place - 1] == n) {
      assert r[..Min(place, |r|)][place - 1] == n;
    } else if n in r {
      var k :| 0 <= k < |r[..Min(place - 1, |r|)]| && r[..Min(place - 1, |r|)][k] == n;
      assert r[..Min(place, |r|)][k] == n;
    }
  }

  /** A pass to the end visits a number or moves it up: it is stepped over only if the one right
      before it is erased. */
  lemma {:induction false} PassServes(ns: seq<int>, i: nat, choices: seq<bool>, place: nat)
    requires Increasing(ns) && i <= place < |ns| && ToTheEnd(ns, i, choices)
    ensures Served(PassOver(ns, i, choices), ns[place], place, VisitsTo(ns, i, choices, ns[place]))
    decreases |choices|
  {
    hide Increasing;
    var n, rest := ns[place], choices[1..];
    if !choices[0] {
      if i == place { PassBehind(ns, i + 1, rest, place); } else { PassServes(ns, i + 1, rest, place); }
    } else {
      var ns1 := Without(ns, i);
      ErasedBefore(ns, i, place);
      if i == place {
        GoneStaysGone(ns1, i + 1, rest, n);
      } else {
        if i + 1 < place { PassServes(ns1, i + 1, rest, place - 1); } else { PassBehind(ns1, i + 1, rest, place - 1); }
        ServedHigherUp(PassOver(ns1, i + 1, rest), n, place, VisitsTo(ns1, i + 1, rest, n));
      }
    }
  }

  lemma PassOverFirst(ns: seq<int>, i: nat, c: bool, cs: seq<bool>, ns1: seq<int>, n: int)
    requires i < |ns| && ns1 == (if c then Without(ns, i) else ns)
    ensures PassOver(ns, i, [c] + cs) == PassOver(ns1, i + 1, cs)
    ensures VisitsTo(ns, i, [c] + cs, n) == (if ns[i] == n then 1 else 0) + VisitsTo(ns1, i + 1, cs, n)
    ensures ToTheEnd(ns, i, [c] + cs) == ToTheEnd(ns1, i + 1, cs)
  {
    assert ([c] + cs)[0] == c && ([c] + cs)[1..] == cs;
  }

  /** The choices that a pass of the loop makes. */
  function Choices(p: Pool, i: nat, nets: nat -> int): seq<bool>
    requires Ok(p)
    decreases |p.queue| - i
  {
    if i >= |p.queue| then []
    else
      ApplyIsOk(p, Visit(i, nets(i)));
      assert EntryOk(p, i);
      [Visited(p.queue[i].b, nets(i)).status == Idle] + Choices(VisitedAt(p, i, nets(i)), i + 1, nets)
  }

  lemma ErasedOnNumbers(p: Pool, i: nat)
    requires i < |p.queue|
    ensures Numbers(p.(queue := Without(p.queue, i))) == Without(Numbers(p), i)
  {
  }

  lemma KeptOnNumbers(p: Pool, i: nat, b: Block)
    requires i < |p.queue| && b.f.tag == p.queue[i].b.f.tag
    ensures Numbers(p.(queue := p.queue[i := p.queue[i].(b := b)])) == Numbers(p)
  {
  }

  lemma VisitOnNumbers(p: Pool, i: nat, net: int)
    requires Ok(p) && i < |p.queue| && EntryOk(p, i)
    ensures Numbers(VisitedAt(p, i, net))
            == if Visited(p.queue[i].b, net).status == Idle then Without(Numbers(p), i) else Numbers(p)
  {
    VisitKeepsTag(p.queue[i].b, net);
    ErasedOnNumbers(p, i);
    KeptOnNumbers(p, i, Visited(p.queue[i].b, net));
  }

  /** The loop's pass is the pass on numbers with these choices. */
  lemma {:induction false} PassOnNumbers(p: Pool, i: nat, nets: nat -> int, uid: int32, ip: string)
    requires Ok(p)
    ensures var ns, cs := Numbers(p), Choices(p, i, nets);
      && ToTheEnd(ns, i, cs)
      && Numbers(Passed(p, i, nets)) == PassOver(ns, i, cs)
      && VisitsIn(p, i, nets, uid, ip) == VisitsTo(ns, i, cs, uid)
    decreases |p.queue| - i
  {
    if i < |p.queue| {
      PassGoesOn(p, i, nets, uid, ip);
      assert EntryOk(p, i);
      VisitOnNumbers(p, i, nets(i));
      var q := VisitedAt(p, i, nets(i));
      PassOnNumbers(q, i + 1, nets, uid, ip);
      var erased := Visited(p.queue[i].b, nets(i)).status == Idle;
      PassOverFirst(Numbers(p), i, erased, Choices(q, i + 1, nets), Numbers(q), uid);
    }
  }

  // ---- the loop among other calls ----

  /** Calls of the pool other than by the loop, and then a pass of the loop. */
  datatype Round = Round(calls: seq<Event>, nets: nat -> int)

  ghost predicate FeasibleRound(p: Pool, r: Round)
    requires Ok(p)
  {
    (forall i :: 0 <= i < |r.calls| ==> !r.calls[i].Visit?) && Feasible(p, r.calls)
  }

  ghost function AfterRound(p: Pool, r: Round): (q: Pool)
    requires Ok(p) && FeasibleRound(p, r)
    ensures Ok(q)
  {
    Passed(Run(p, r.calls), 0, r.nets)
  }

  ghost function SeenInRound(p: Pool, r: Round, uid: int32, ip: string): seq<OutRuns.Event>
    requires Ok(p) && FeasibleRound(p, r)
  {
    var q := Run(p, r.calls);
    PassIsFeasible(q, 0, r.nets);
    SeenAll(p, r.calls, uid, ip) + SeenAll(q, PassVisits(q, 0, r.nets), uid, ip)
  }

  lemma {:induction false} RoundFollows(p: Pool, r: Round, uid: int32, ip: string, l: OutRuns.Line)
    requires Ok(p) && FeasibleRound(p, r) && Follows(p, uid, ip, l)
    ensures Follows(AfterRound(p, r), uid, ip, OutRuns.Run(l, SeenInRound(p, r, uid, ip)))
  {
    var q := Run(p, r.calls);
    PassIsFeasible(q, 0, r.nets);
    var a, b := SeenAll(p, r.calls, uid, ip), SeenAll(q, PassVisits(q, 0, r.nets), uid, ip);
    RunFollows(p, r.calls, uid, ip, l);
    RunFollows(q, PassVisits(q, 0, r.nets), uid, ip, OutRuns.Run(l, a));
    OutRuns.RunJoins(l, a, b);
  }

  lemma CallOnlyAdds(p: Pool, e: Event)
    requires Ok(p) && Allowed(p, e) && !e.Visit?
    ensures Ok(Apply(p, e)) && Numbers(p) <= Numbers(Apply(p, e))
  {
    ApplyIsOk(p, e);
    if e.Incoming? {
      var k := Find(p.queue, e.uid, e.ip);
      if k < |p.queue| {
        assert EntryOk(p, k);
        IncomingKeepsTag(p.queue[k].b, e.what, e.net);
      }
    }
  }

  /** Other calls leave the queue's messages in their places. */
  lemma {:induction false} CallsOnlyAdd(p: Pool, es: seq<Event>)
    requires Ok(p) && Feasible(p, es) && forall i :: 0 <= i < |es| ==> !es[i].Visit?
    ensures Numbers(p) <= Numbers(Run(p, es))
    decreases |es|
  {
    if es != [] {
      CallOnlyAdds(p, es[0]);
      CallsOnlyAdd(Apply(p, es[0]), es[1..]);
    }
  }

  lemma NumbersIncrease(p: Pool)
    requires Ok(p)
    ensures Increasing(Numbers(p))
  {
  }

  lemma ServedByMore(r: seq<int>, n: int, place: nat, visits: nat, more: nat)
    requires Served(r, n, place, visits) && more >= visits
    ensures Served(r, n, place, more)
  {
  }

  lemma {:induction false} LoopServes(p: Pool, nets: nat -> int, uid: int32, ip: string, place: nat)
    requires Ok(p) && place < |Numbers(p)| && Numbers(p)[place] == uid
    ensures Served(Numbers(Passed(p, 0, nets)), uid, place, VisitsIn(p, 0, nets, uid, ip))
  {
    NumbersIncrease(p);
    PassOnNumbers(p, 0, nets, uid, ip);
    PassServes(Numbers(p), 0, Choices(p, 0, nets), place);
  }

  /** A round serves every message that is in the queue. */
  lemma {:induction false} RoundServes(p: Pool, r: Round, uid: int32, ip: string, place: nat)
    requires Ok(p) && FeasibleRound(p, r) && place < |Numbers(p)| && Numbers(p)[place] == uid
    ensures Served(Numbers(AfterRound(p, r)), uid, place, OutRuns.Visits(SeenInRound(p, r, uid, ip)))
  {
    var q := Run(p, r.calls);
    CallsOnlyAdd(p, r.calls);
    LoopServes(q, r.nets, uid, ip, place);
    PassIsFeasible(q, 0, r.nets);
    OutRuns.VisitsJoin(SeenAll(p, r.calls, uid, ip), SeenAll(q, PassVisits(q, 0, r.nets), uid, ip));
    ServedByMore(Numbers(AfterRound(p, r)), uid, place, VisitsIn(q, 0, r.nets, uid, ip),
                 OutRuns.Visits(SeenInRound(p, r, uid, ip)));
  }

  ghost predicate FeasibleRounds(p: Pool, rs: seq<Round>)
    requires Ok(p)
    decreases |rs|
  {
    rs == [] || (FeasibleRound(p, rs[0]) && FeasibleRounds(AfterRound(p, rs[0]), rs[1..]))
  }

  ghost function AfterRounds(p: Pool, rs: seq<Round>): (q: Pool)
    requires Ok(p) && FeasibleRounds(p, rs)
    ensures Ok(q)
    decreases |rs|
  {
    if rs == [] then p else AfterRounds(AfterRound(p, rs[0]), rs[1..])
  }

  /** The message is followed, and if it is queued, these many rounds are enough for it. */
  ghost predicate Within(p: Pool, uid: int32, ip: string, l: OutRuns.Line, rounds: int) {
    && Follows(p, uid, ip, l)
    && (l.queued ==>
         && l.b.status != Receiving
         && exists place :: 0 <= place < |Numbers(p)| && Numbers(p)[place] == uid
                            && place + OutRuns.VisitsLeft(l.b) <= rounds)
  }

  lemma {:induction false} RoundUsesOne(p: Pool, r: Round, uid: int32, ip: string, l: OutRuns.Line, rounds: int)
    requires Ok(p) && FeasibleRound(p, r) && Within(p, uid, ip, l, rounds)
    ensures Within(AfterRound(p, r), uid, ip, OutRuns.Run(l, SeenInRound(p, r, uid, ip)), rounds - 1)
  {
    hide Ok, FeasibleRound, AfterRound, Numbers;
    var m := OutRuns.Run(l, SeenInRound(p, r, uid, ip));
    var ns := Numbers(AfterRound(p, r));
    RoundFollows(p, r, uid, ip, l);
    OutRuns.RunUsesVisits(l, SeenInRound(p, r, uid, ip));
    if m.queued {
      var place :| 0 <= place < |Numbers(p)| && Numbers(p)[place] == uid
                   && place + OutRuns.VisitsLeft(l.b) <= rounds;
      RoundServes(p, r, uid, ip, place);
      FollowedIsListed(AfterRound(p, r), uid, ip, m);
      if !(place < |ns| && ns[place] == uid && OutRuns.Visits(SeenInRound(p, r, uid, ip)) > 0) {
        var k :| 0 <= k < |ns[..Min(place, |ns|)]| && ns[..Min(place, |ns|)][k] == uid;
        assert ns[k] == uid;
      }
    }
  }

  lemma FollowedIsListed(p: Pool, uid: int32, ip: string, l: OutRuns.Line)
    requires Follows(p, uid, ip, l)
    ensures l.queued <==> uid in Numbers(p)
  {
    if l.queued {
      var k :| 0 <= k < |p.queue| && p.queue[k] == Entry(ip, l.b);
      assert Numbers(p)[k] == uid;
    }
  }

  lemma VisitsAreLeft(b: Block)
    requires Sound(b)
    ensures OutRuns.VisitsLeft(b) >= 1
  {
  }

  lemma {:induction false} RoundsAreEnough(p: Pool, rs: seq<Round>, uid: int32, ip: string, l: OutRuns.Line)
    requires Ok(p) && FeasibleRounds(p, rs) && Within(p, uid, ip, l, |rs|)
    ensures uid !in Numbers(AfterRounds(p, rs))
    decreases |rs|
  {
    if rs == [] {
      VisitsAreLeft(l.b);
      FollowedIsListed(p, uid, ip, l);
    } else {
      RoundUsesOne(p, rs[0], uid, ip, l, |rs|);
      RoundsAreEnough(AfterRound(p, rs[0]), rs[1..], uid, ip, OutRuns.Run(l, SeenInRound(p, rs[0], uid, ip)));
    }
  }

  /** The queue drains, although the loop steps over messages: an accepted message of n > 0 bytes that
      finds k others before it has left after 601 * ceil(n / 10204) + 1 + k passes, whatever is
      sent and whatever comes in between them. */
  lemma {:induction false} AcceptedLeavesInTime(p: Pool, ip: string, b: Block, rs: seq<Round>)
    requires Ok(p) && Sendable(b) && p.lastUid + 1 < 0x8000_0000 && Queues(b) && |p.queue| <= QUEUE_LIMIT
    requires b.f.obj.Some? && Size(b.f.obj.value) > 0
    requires Ok(Submitted(p, ip, b).0) && FeasibleRounds(Submitted(p, ip, b).0, rs)
    requires |rs| >= 601 * CeilDiv(Size(b.f.obj.value), 10204) + 1 + |p.queue|
    ensures p.lastUid + 1 !in Numbers(AfterRounds(Submitted(p, ip, b).0, rs))
  {
    var uid, q := p.lastUid + 1, Submitted(p, ip, b).0;
    var l := OutRuns.Line(Queued(b, uid), true);
    AcceptedFollows(p, ip, b);
    assert Numbers(q)[|p.queue|] == uid;
    assert |p.queue| + OutRuns.VisitsLeft(l.b) <= |rs|;
    RoundsAreEnough(q, rs, uid, ip, l);
  }
}
