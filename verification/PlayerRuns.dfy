/** What holds over whole runs of the player: its invariant, the ticks at which frames are run, and
    that a pause changes nothing but the time (server/service/MotionPlayer.cpp). */
module PlayerRuns {
  import opened Basics
  import opened ArmFiles
  import opened MotionFiles
  import opened Players

  // ---- the invariant ----

  /** While it plays or pauses, the player has frames and is at one of them or just past the last. */
  predicate Playable(p: Player) {
    p.status == Running || p.status == Paused ==> p.movie.Some? && 0 <= p.currentFrame <= |p.movie.value.frames|
  }

  /** The error branch of update has not been taken. */
  predicate NoError(p: Player) {
    forall i :: 0 <= i < |p.log| ==> p.log[i] != Completed(Unready, -2)
  }

  lemma ApplyKeepsPlayable(p: Player, e: Event)
    requires Playable(p) && NoError(p) && Allowed(p, e)
    ensures Playable(Apply(p, e)) && NoError(Apply(p, e))
  {
  }

  /** From a new player on, whatever the calls, the error branch of update is never taken. */
  lemma {:induction false} RunKeepsPlayable(p: Player, es: seq<Event>)
    requires Playable(p) && NoError(p) && Feasible(p, es)
    ensures Playable(Run(p, es)) && NoError(Run(p, es))
    decreases |es|
  {
    if es != [] {
      ApplyKeepsPlayable(p, es[0]);
      RunKeepsPlayable(Apply(p, es[0]), es[1..]);
    }
  }

  lemma NewPlayerIsPlayable(enabled: bool, es: seq<Event>)
    requires Feasible(Initial(enabled), es)
    ensures Playable(Run(Initial(enabled), es)) && NoError(Run(Initial(enabled), es))
  {
    RunKeepsPlayable(Initial(enabled), es);
  }

  // ---- seeking ----

  /** setPosition finds the last frame that `pos` reaches, or none if there is none. */
  lemma {:induction false} SeekFindsLast(frames: seq<Option<Frame>>, pos: int, n: nat)
    requires n <= |frames|
    ensures var k := SeekIndex(frames, pos, n);
      && (k >= 0 ==> Reaches(pos, frames[k]))
      && forall i :: k < i < n ==> !Reaches(pos, frames[i])
  {
    if n > 0 && !Reaches(pos, frames[n - 1]) { SeekFindsLast(frames, pos, n - 1); }
  }

  /** A player that runs when it is told to seek goes on, and its next update runs the frame found,
      at the frame's own time, if and only if there is one; otherwise it stops. */
  lemma SeekThenUpdate(p: Player, pos: int, dt: int, rc: int)
    requires p.status == Running && p.movie.Some?
    ensures var frames := p.movie.value.frames; var k := SeekIndex(frames, pos, |frames|); var q := Sought(p, pos);
      && (q.status == Running <==> exists i :: 0 <= i < |frames| && Reaches(pos, frames[i]))
      && (q.status == Running ==>
           && frames[k].Some?
           && Tick(q, dt, rc).currentFrame == k + 1
           && Tick(q, dt, rc).log
              == p.log + Signals(p, p.movie.value, k, frames[k].value, frames[k].value.timePosition, rc))
      && (q.status != Running ==> q.status == Ready && Tick(q, dt, rc) == q)
  {
    SeekFindsLast(p.movie.value.frames, pos, |p.movie.value.frames|);
  }

  // ---- pausing ----

  predicate Playing(e: Event) {
    e.Update? || e.Pause? || e.Resume?
  }

  /** The updates that do not fall into a pause. */
  function Elided(es: seq<Event>, paused: bool): seq<Event>
    decreases |es|
  {
    if es == [] then []
    else
      match es[0]
      case Pause => Elided(es[1..], true)
      case Resume => Elided(es[1..], false)
      case _ => if paused then Elided(es[1..], true) else [es[0]] + Elided(es[1..], false)
  }

  function EndsPaused(es: seq<Event>, paused: bool): bool
    decreases |es|
  {
    if es == [] then paused
    else EndsPaused(es[1..], if es[0].Pause? then true else if es[0].Resume? then false else paused)
  }

  function Held(p: Player, paused: bool): Player {
    if paused && p.status == Running then p.(status := Paused) else p
  }

  lemma {:induction false} PlayingIsFeasible(p: Player, es: seq<Event>)
    requires forall i :: 0 <= i < |es| ==> Playing(es[i])
    ensures Feasible(p, es)
    decreases |es|
  {
    if es != [] { PlayingIsFeasible(Apply(p, es[0]), es[1..]); }
  }

  lemma {:induction false} ElidedIsPlaying(es: seq<Event>, paused: bool)
    requires forall i :: 0 <= i < |es| ==> Playing(es[i])
    ensures forall i :: 0 <= i < |Elided(es, paused)| ==> Playing(Elided(es, paused)[i])
    decreases |es|
  {
    if es != [] {
      ElidedIsPlaying(es[1..], if es[0].Pause? then true else if es[0].Resume? then false else paused);
    }
  }

  /** Pausing and resuming at any times, any number of times, with any updates in between: the
      player ends where it would be without the pauses, with the same frames run at the same
      positions, only held if the last pause was not ended. */
  lemma {:induction false} PausesOnlyDelay(p: Player, es: seq<Event>, paused: bool)
    requires p.status != Paused && forall i :: 0 <= i < |es| ==> Playing(es[i])
    ensures Feasible(Held(p, paused), es) && Feasible(p, Elided(es, paused))
    ensures Run(Held(p, paused), es) == Held(Run(p, Elided(es, paused)), EndsPaused(es, paused))
    decreases |es|
  {
    PlayingIsFeasible(Held(p, paused), es);
    ElidedIsPlaying(es, paused);
    PlayingIsFeasible(p, Elided(es, paused));
    if es != [] {
      if es[0].Update? && !paused {
        var q := Apply(p, es[0]);
        assert Elided(es, false)[0] == es[0] && Elided(es, false)[1..] == Elided(es[1..], false);
        PausesOnlyDelay(q, es[1..], false);
      } else {
        PausesOnlyDelay(p, es[1..], if es[0].Pause? then true else if es[0].Resume? then false else paused);
      }
    }
  }

  // ---- the ticks ----

  /** The position after n updates by `dt`. */
  function Position(dt: int, n: nat): int {
    if n == 0 then 0 else Position(dt, n - 1) + dt
  }

  /** The first tick from `from` on whose position is not before `time`. */
  function FirstAt(time: int, dt: int, from: nat): (t: nat)
    requires dt > 0
    ensures t >= from
    decreases time - Position(dt, from)
  {
    if Position(dt, from) >= time then from else FirstAt(time, dt, from + 1)
  }

  lemma {:induction false} FirstAtIsFirst(time: int, dt: int, from: nat, n: nat)
    requires dt > 0 && from <= n <= FirstAt(time, dt, from)
    ensures n == FirstAt(time, dt, from) <==> Position(dt, n) >= time
    decreases n - from
  {
    if from < n { FirstAtIsFirst(time, dt, from + 1, n); }
  }

  lemma {:induction false} PositionIsProduct(dt: int, n: nat)
    ensures Position(dt, n) == n * dt
  {
    if n > 0 {
      PositionIsProduct(dt, n - 1);
      assert n * dt == (n - 1) * dt + dt;
    }
  }

  /** In closed form: `time` divided by `dt` and rounded up, or `from` if that is later. */
  lemma FirstAtInClosedForm(time: int, dt: int, from: nat)
    requires dt > 0
    ensures FirstAt(time, dt, from) == Max(from, CeilDiv(Max(time, 0), dt))
  {
    var t := FirstAt(time, dt, from);
    var c := CeilDiv(Max(time, 0), dt);
    PositionIsProduct(dt, t);
    FirstAtIsFirst(time, dt, from, t);
    CeilDivBounds(Max(time, 0), dt, t);
    var d := Max(from, c);
    if d < t {
      PositionIsProduct(dt, d);
      FirstAtIsFirst(time, dt, from, d);
      CeilDivBounds(Max(time, 0), dt, d);
    }
  }

  /** The tick at which the k-th frame is run, from 0: the first after that of the frame before it
      whose position is not before the frame's time; an empty entry takes one tick. */
  function TickOf(m: Movie, dt: int, k: nat): (t: int)
    requires dt > 0 && k < |m.frames|
    ensures t >= k
    decreases k, 1
  {
    if m.frames[k].None? then TickBefore(m, dt, k) + 1
    else FirstAt(m.frames[k].value.timePosition, dt, TickBefore(m, dt, k) + 1)
  }

  function TickBefore(m: Movie, dt: int, k: nat): (t: int)
    requires dt > 0 && k <= |m.frames|
    ensures t >= k - 1
    decreases k, 0
  {
    if k == 0 then -1 else TickOf(m, dt, k - 1)
  }

  /** The k-th tick as a formula. */
  lemma TickInClosedForm(m: Movie, dt: int, k: nat)
    requires dt > 0 && k < |m.frames| && m.frames[k].Some?
    ensures TickOf(m, dt, k)
            == Max(TickBefore(m, dt, k) + 1, CeilDiv(Max(m.frames[k].value.timePosition, 0), dt))
  {
    FirstAtInClosedForm(m.frames[k].value.timePosition, dt, TickBefore(m, dt, k) + 1);
  }

  /** n updates by `dt` each; `rcs` is what the motor commands return. */
  function Ticks(p: Player, dt: int, rcs: nat -> int, n: nat): Player {
    if n == 0 then p else Tick(Ticks(p, dt, rcs, n - 1), dt, rcs(n - 1))
  }

  /** What is seen of the first k frames. */
  function Shown(p: Player, m: Movie, dt: int, rcs: nat -> int, k: nat): seq<Signal>
    requires dt > 0 && k <= |m.frames|
  {
    if k == 0 then []
    else
      var t: nat := TickOf(m, dt, k - 1);
      Shown(p, m, dt, rcs, k - 1)
      + if m.frames[k - 1].None? then []
        else Signals(p, m, k - 1, m.frames[k - 1].value, Position(dt, t), rcs(t))
  }

  /** The player after n updates, with c frames run. */
  function After(p: Player, m: Movie, dt: int, rcs: nat -> int, c: nat, n: nat): Player
    requires dt > 0 && c <= |m.frames|
  {
    p.(currentFrame := c, currentPosition := Position(dt, n), log := p.log + Shown(p, m, dt, rcs, c))
  }

  /** Exactly the first c frames have their ticks among the first n. */
  predicate Passed(m: Movie, dt: int, c: int, n: nat)
    requires dt > 0
  {
    0 <= c <= |m.frames| && TickBefore(m, dt, c) < n && (c < |m.frames| ==> n <= TickOf(m, dt, c))
  }

  predicate InTime(p: Player, m: Movie, dt: int, rcs: nat -> int, n: nat, q: Player)
    requires dt > 0
  {
    Passed(m, dt, q.currentFrame, n) && q == After(p, m, dt, rcs, q.currentFrame, n)
  }

  predicate AtStart(p: Player, m: Movie) {
    p.movie == Some(m) && p.status == Running && p.currentFrame == 0 && p.currentPosition == 0
  }

  /** A frame that is waited for is due at its tick and not before. */
  lemma DueAtTick(m: Movie, dt: int, k: nat, n: nat)
    requires dt > 0 && k < |m.frames| && TickBefore(m, dt, k) < n <= TickOf(m, dt, k)
    ensures n == TickOf(m, dt, k) <==> (m.frames[k].None? || Position(dt, n) >= m.frames[k].value.timePosition)
  {
    if m.frames[k].Some? { FirstAtIsFirst(m.frames[k].value.timePosition, dt, TickBefore(m, dt, k) + 1, n); }
  }

  lemma ShownGoesOn(p: Player, m: Movie, dt: int, rcs: nat -> int, k: nat, n: nat)
    requires dt > 0 && k < |m.frames| && n == TickOf(m, dt, k)
    ensures Shown(p, m, dt, rcs, k + 1) == Shown(p, m, dt, rcs, k)
      + if m.frames[k].None? then [] else Signals(p, m, k, m.frames[k].value, Position(dt, n), rcs(n))
  {
  }

  lemma TickWaits(p: Player, m: Movie, dt: int, rcs: nat -> int, c: nat, n: nat)
    requires dt > 0 && AtStart(p, m) && c < |m.frames| && m.frames[c].Some?
    requires Position(dt, n) < m.frames[c].value.timePosition
    ensures Tick(After(p, m, dt, rcs, c, n), dt, rcs(n)) == After(p, m, dt, rcs, c, n + 1)
  {
  }

  lemma TickRuns(p: Player, m: Movie, dt: int, rcs: nat -> int, c: nat, n: nat)
    requires dt > 0 && AtStart(p, m) && c < |m.frames| && n == TickOf(m, dt, c)
    requires m.frames[c].Some? ==> Position(dt, n) >= m.frames[c].value.timePosition
    ensures Tick(After(p, m, dt, rcs, c, n), dt, rcs(n)) == After(p, m, dt, rcs, c + 1, n + 1)
  {
    ShownGoesOn(p, m, dt, rcs, c, n);
    var shown := Shown(p, m, dt, rcs, c);
    if m.frames[c].Some? {
      var last := Signals(p, m, c, m.frames[c].value, Position(dt, n), rcs(n));
      assert p.log + (shown + last) == (p.log + shown) + last;
    }
  }

  lemma TickInTime(p: Player, m: Movie, dt: int, rcs: nat -> int, n: nat, c: nat)
    requires dt > 0 && AtStart(p, m) && Passed(m, dt, c, n) && c < |m.frames|
    ensures InTime(p, m, dt, rcs, n + 1, Tick(After(p, m, dt, rcs, c, n), dt, rcs(n)))
  {
    DueAtTick(m, dt, c, n);
    if n == TickOf(m, dt, c) { TickRuns(p, m, dt, rcs, c, n); } else { TickWaits(p, m, dt, rcs, c, n); }
  }

  /** The performance is over: every frame has been run, and the listener told. */
  predicate Ended(p: Player, m: Movie, dt: int, rcs: nat -> int, q: Player)
    requires dt > 0
  {
    q == p.(status := Over, currentFrame := |m.frames|,
            currentPosition := Position(dt, TickBefore(m, dt, |m.frames|) + 1),
            log := p.log + Shown(p, m, dt, rcs, |m.frames|) + Told(p, Over, 0))
  }

  lemma EndInTime(p: Player, m: Movie, dt: int, rcs: nat -> int, n: nat)
    requires dt > 0 && AtStart(p, m) && n == TickBefore(m, dt, |m.frames|) + 1
    ensures Ended(p, m, dt, rcs, Tick(After(p, m, dt, rcs, |m.frames|, n), dt, rcs(n)))
  {
  }

  lemma {:induction false} TicksGrow(m: Movie, dt: int, j: nat, k: nat)
    requires dt > 0 && j <= k <= |m.frames|
    ensures TickBefore(m, dt, j) <= TickBefore(m, dt, k) - (k - j)
  {
    if j < k { TicksGrow(m, dt, j, k - 1); }
  }

  /** Until the tick after that of the last frame, the player has run exactly the frames whose
      ticks have passed; that tick ends it. */
  predicate Performed(p: Player, m: Movie, dt: int, rcs: nat -> int, n: nat, q: Player)
    requires dt > 0
  {
    if n <= TickBefore(m, dt, |m.frames|) + 1 then InTime(p, m, dt, rcs, n, q) else Ended(p, m, dt, rcs, q)
  }

  lemma PerformedGoesOn(p: Player, m: Movie, dt: int, rcs: nat -> int, n: nat, q: Player)
    requires dt > 0 && AtStart(p, m) && Performed(p, m, dt, rcs, n, q)
    ensures Performed(p, m, dt, rcs, n + 1, Tick(q, dt, rcs(n)))
  {
    if n <= TickBefore(m, dt, |m.frames|) + 1 {
      if q.currentFrame < |m.frames| {
        TickInTime(p, m, dt, rcs, n, q.currentFrame);
        TicksGrow(m, dt, q.currentFrame + 1, |m.frames|);
      } else {
        EndInTime(p, m, dt, rcs, n);
      }
    }
  }

  /** The timing of a whole performance, after any number of ticks: each frame is run once, at the
      position of its tick, and the listener is told once that it is over, on the tick after that of
      the last frame; nothing happens afterwards. */
  lemma {:induction false} Performance(p: Player, m: Movie, dt: int, rcs: nat -> int, n: nat)
    requires dt > 0 && AtStart(p, m)
    ensures Performed(p, m, dt, rcs, n, Ticks(p, dt, rcs, n))
  {
    if n == 0 {
      assert p.log + [] == p.log;
    } else {
      Performance(p, m, dt, rcs, n - 1);
      PerformedGoesOn(p, m, dt, rcs, n - 1, Ticks(p, dt, rcs, n - 1));
    }
  }

  /** Seen from one frame: it has its turn at its tick, and at no other. */
  lemma FrameHasItsTick(p: Player, m: Movie, dt: int, rcs: nat -> int, k: nat, n: nat)
    requires dt > 0 && AtStart(p, m) && k < |m.frames| && n <= TickBefore(m, dt, |m.frames|) + 1
    ensures Ticks(p, dt, rcs, n).currentFrame <= k <==> n <= TickOf(m, dt, k)
  {
    hide TickOf;
    Performance(p, m, dt, rcs, n);
    var c := Ticks(p, dt, rcs, n).currentFrame;
    if c <= k { TicksGrow(m, dt, c + 1, k + 1); } else { TicksGrow(m, dt, k + 1, c); }
  }

  function Updates(dt: int, rcs: nat -> int, n: nat): seq<Event> {
    if n == 0 then [] else Updates(dt, rcs, n - 1) + [Update(dt, rcs(n - 1))]
  }

  lemma {:induction false} RunOneMore(p: Player, es: seq<Event>, e: Event)
    requires Feasible(p, es) && !e.Seek?
    ensures Feasible(p, es + [e]) && Run(p, es + [e]) == Apply(Run(p, es), e)
    decreases |es|
  {
    if es == [] {
      assert [] + [e] == [e];
    } else {
      assert (es + [e])[0] == es[0] && (es + [e])[1..] == es[1..] + [e];
      RunOneMore(Apply(p, es[0]), es[1..], e);
    }
  }

  lemma {:induction false} UpdatesAreTicks(p: Player, dt: int, rcs: nat -> int, n: nat)
    ensures Feasible(p, Updates(dt, rcs, n)) && Run(p, Updates(dt, rcs, n)) == Ticks(p, dt, rcs, n)
  {
    if n > 0 {
      UpdatesAreTicks(p, dt, rcs, n - 1);
      RunOneMore(p, Updates(dt, rcs, n - 1), Update(dt, rcs(n - 1)));
    }
  }

  /** A performance with pauses: if n updates by `dt` fall outside the pauses, whatever updates fall
      into them, the player has performed n ticks, and is held if a pause lasts. */
  lemma PausedPerformance(p: Player, m: Movie, dt: int, rcs: nat -> int, n: nat, es: seq<Event>)
    requires dt > 0 && AtStart(p, m) && (forall i :: 0 <= i < |es| ==> Playing(es[i]))
    requires Elided(es, false) == Updates(dt, rcs, n)
    ensures Feasible(p, es)
    ensures var q := Ticks(p, dt, rcs, n);
      Performed(p, m, dt, rcs, n, q) && Run(p, es) == Held(q, EndsPaused(es, false))
  {
    PausesOnlyDelay(p, es, false);
    UpdatesAreTicks(p, dt, rcs, n);
    Performance(p, m, dt, rcs, n);
  }

  // ---- lateness ----

  /** The tick from which on the k-th frame's time has come. */
  function Earliest(m: Movie, dt: int, k: nat): nat
    requires dt > 0 && k < |m.frames| && m.frames[k].Some?
  {
    CeilDiv(Max(m.frames[k].value.timePosition, 0), dt)
  }

  ghost predicate AllFrames(m: Movie) {
    forall k :: 0 <= k < |m.frames| ==> m.frames[k].Some?
  }

  predicate Prompt(m: Movie, dt: int, k: nat)
    requires dt > 0 && k < |m.frames| && m.frames[k].Some?
  {
    TickOf(m, dt, k) == Earliest(m, dt, k)
  }

  predicate Spaced(m: Movie, dt: int, k: nat)
    requires dt > 0 && k < |m.frames| && m.frames[k].Some? && (k > 0 ==> m.frames[k - 1].Some?)
  {
    k == 0 || Earliest(m, dt, k - 1) < Earliest(m, dt, k)
  }

  lemma PromptAfterPrompt(m: Movie, dt: int, k: nat)
    requires dt > 0 && k < |m.frames| && m.frames[k].Some?
    requires k > 0 ==> m.frames[k - 1].Some? && Prompt(m, dt, k - 1)
    ensures Prompt(m, dt, k) <==> Spaced(m, dt, k)
  {
    TickInClosedForm(m, dt, k);
  }

  /** Each of the first n frames is run as soon as its time has come if and only if each has an
      earliest tick after that of the frame before it. */
  lemma {:induction false} PromptIff(m: Movie, dt: int, n: nat)
    requires dt > 0 && AllFrames(m) && n <= |m.frames|
    ensures (forall k :: 0 <= k < n ==> Prompt(m, dt, k)) <==> (forall k :: 0 <= k < n ==> Spaced(m, dt, k))
  {
    if n > 0 {
      PromptIff(m, dt, n - 1);
      if forall k :: 0 <= k < n - 1 ==> Prompt(m, dt, k) { PromptAfterPrompt(m, dt, n - 1); }
    }
  }

  lemma LongEnough(a: int, d: int, dt: int)
    requires dt > 0 && d >= dt && a >= 0
    ensures CeilDiv(a, dt) < CeilDiv(a + d, dt)
  {
    CeilDivBounds(a + d, dt, CeilDiv(a, dt));
    CeilDivBounds(a, dt, CeilDiv(a, dt) - 1);
    assert (CeilDiv(a, dt) - 1) * dt == CeilDiv(a, dt) * dt - dt;
  }

  /** A frame that is run as soon as its time has come is less than one tick late. */
  lemma PromptIsOnTime(m: Movie, dt: int, k: nat)
    requires dt > 0 && k < |m.frames| && m.frames[k].Some? && m.frames[k].value.timePosition >= 0
    requires Prompt(m, dt, k)
    ensures 0 <= Position(dt, TickOf(m, dt, k)) - m.frames[k].value.timePosition < dt
  {
    var t := TickOf(m, dt, k);
    PositionIsProduct(dt, t);
    CeilDivBounds(m.frames[k].value.timePosition, dt, t);
    CeilDivBounds(m.frames[k].value.timePosition, dt, t - 1);
    assert (t - 1) * dt == t * dt - dt;
  }

  lemma {:induction false} DurationsGrow(fs: seq<Frame>, i: nat, j: nat)
    requires i <= j <= |fs| && forall k :: 0 <= k < |fs| ==> fs[k].duration >= 0
    ensures Durations(fs, i) <= Durations(fs, j)
  {
    if i < j { DurationsGrow(fs, i, j - 1); }
  }

  lemma StartIsSum(m: Movie, fs: seq<Frame>, k: nat)
    requires Timeline(m, fs) && k < |fs|
    requires (forall i :: 0 <= i < |fs| ==> fs[i].duration >= 0) && Durations(fs, |fs|) < 0x8000_0000
    ensures m.frames[k] == Some(fs[k]) && fs[k].timePosition == Durations(fs, k) >= 0
  {
    assert StartsOnSum(fs, k);
    DurationsGrow(fs, 0, k);
    DurationsGrow(fs, k, |fs|);
    WrapIsIdentityIff(Durations(fs, k));
  }

  lemma EarliestOfSum(m: Movie, fs: seq<Frame>, dt: int, k: nat)
    requires dt > 0 && Timeline(m, fs) && k < |fs|
    requires (forall i :: 0 <= i < |fs| ==> fs[i].duration >= 0) && Durations(fs, |fs|) < 0x8000_0000
    ensures Durations(fs, k) >= 0 && m.frames[k].Some? && m.frames[k].value.timePosition == Durations(fs, k)
    ensures Earliest(m, dt, k) == CeilDiv(Durations(fs, k), dt)
  {
    StartIsSum(m, fs, k);
  }

  /** Of two sums, the later has the later tick if a whole tick lies between them. */
  lemma SpacedBySums(m: Movie, dt: int, k: nat, a: nat, d: int)
    requires 0 < dt <= d && 0 < k < |m.frames| && m.frames[k].Some? && m.frames[k - 1].Some?
    requires Earliest(m, dt, k - 1) == CeilDiv(a, dt) && Earliest(m, dt, k) == CeilDiv(a + d, dt)
    ensures Spaced(m, dt, k)
  {
    LongEnough(a, d, dt);
  }

  lemma LongFramesAreSpaced(m: Movie, fs: seq<Frame>, dt: int, k: nat)
    requires dt > 0 && Timeline(m, fs) && k < |fs|
    requires (forall i :: 0 <= i < |fs| ==> fs[i].duration >= dt) && Durations(fs, |fs|) < 0x8000_0000
    ensures m.frames[k].Some? && (k > 0 ==> m.frames[k - 1].Some?) && Spaced(m, dt, k)
  {
    EarliestOfSum(m, fs, dt, k);
    if k > 0 {
      EarliestOfSum(m, fs, dt, k - 1);
      SpacedBySums(m, dt, k, Durations(fs, k - 1), fs[k - 1].duration);
    }
  }

  /** From the file to the motors: if every frame of a file was read, every duration is at least a
      tick and they add up within 32 bits, the player runs frame k at the first tick that is not
      before the sum of the durations before it, and so less than a tick late. */
  lemma LoadedFileIsOnTime(s: seq<byte>, m: Movie, fs: seq<Frame>, dt: int, k: nat)
    requires Load(s) == Loaded(m) && fs == FramesOf(s) && |fs| == |m.frames| && k < |fs|
    requires dt > 0 && forall i :: 0 <= i < |fs| ==> fs[i].duration >= dt
    requires Durations(fs, |fs|) < 0x8000_0000
    ensures Durations(fs, k) >= 0
    ensures TickOf(m, dt, k) == CeilDiv(Durations(fs, k), dt)
    ensures 0 <= Position(dt, TickOf(m, dt, k)) - Durations(fs, k) < dt
  {
    LoadedIsTimeline(s);
    forall i | 0 <= i < |m.frames| ensures Spaced(m, dt, i) {
      LongFramesAreSpaced(m, fs, dt, i);
    }
    PromptIff(m, dt, |m.frames|);
    EarliestOfSum(m, fs, dt, k);
    PromptIsOnTime(m, dt, k);
  }
}
