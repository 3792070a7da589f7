/** The player with its motors (server/service/MotionPlayer.cpp:97): what an update is told by the motors
    is what running the frame's commands returns. */
module MotorPlayers {
  import opened Basics
  import opened ArmFiles
  import opened MotionFiles
  import opened Players
  import Motors

  const FAILED := Completed(Running, -3)

  /** What the player runs; a frame without commands has no bytes. */
  function CommandsOf(f: Frame): seq<byte> {
    if f.commands.Some? then f.commands.value else []
  }

  /** The next update runs this frame's commands. */
  predicate Runs(p: Player, f: Frame) {
    && p.status == Running && p.enabled && p.movie.Some?
    && 0 <= p.currentFrame < |p.movie.value.frames| && p.movie.value.frames[p.currentFrame] == Some(f)
    && p.currentPosition >= f.timePosition
  }

  /** An update is told what the motors return. */
  ghost predicate Answered(p: Player, e: Event, session: nat) {
    e.Update? ==> forall f :: Runs(p, f) ==> e.rc == Motors.RunCode(session, CommandsOf(f))
  }

  ghost predicate AllAnswered(p: Player, es: seq<Event>, session: nat)
    requires Feasible(p, es)
    decreases |es|
  {
    es == [] || (Answered(p, es[0], session) && AllAnswered(Apply(p, es[0]), es[1..], session))
  }

  /** The next update runs commands that are not a whole number of units, and someone listens. */
  ghost predicate Fails(p: Player) {
    p.listening && exists f :: Runs(p, f) && |CommandsOf(f)| % 10 != 0
  }

  ghost predicate FailsOnce(p: Player, es: seq<Event>)
    requires Feasible(p, es)
    decreases |es|
  {
    es != [] && ((es[0].Update? && Fails(p)) || FailsOnce(Apply(p, es[0]), es[1..]))
  }

  /** Only such an update reports a failure. */
  lemma StepFailsIff(p: Player, e: Event, session: nat)
    requires Allowed(p, e) && Answered(p, e, session)
    ensures FAILED in Apply(p, e).log <==> FAILED in p.log || (e.Update? && Fails(p))
  {
    var q := Apply(p, e);
    if e.Update? && p.status == Running && p.movie.Some? && 0 <= p.currentFrame < |p.movie.value.frames| {
      var f := p.movie.value.frames[p.currentFrame];
      if f.Some? && p.enabled && p.currentPosition >= f.value.timePosition {
        assert Runs(p, f.value);
        var told := if e.rc < 0 then Told(p, Running, -3) else [];
        assert q.log == p.log + [Ran(p.currentFrame, p.currentPosition, f.value.commands,
                                     RunDuration(p.movie.value, f.value))] + told;
        if e.rc < 0 && p.listening { assert told[0] == FAILED; }
      }
    }
  }

  lemma {:induction false} RunFailsIff(p: Player, es: seq<Event>, session: nat)
    requires Feasible(p, es) && AllAnswered(p, es, session)
    ensures FAILED in Run(p, es).log <==> FAILED in p.log || FailsOnce(p, es)
    decreases |es|
  {
    if es != [] {
      StepFailsIff(p, es[0], session);
      RunFailsIff(Apply(p, es[0]), es[1..], session);
    }
  }

  // ---- movies from modern files ----

  ghost predicate IsModern(m: Movie) {
    exists s :: Load(s) == Loaded(m) && VersionOf(s) >= MODERN
  }

  ghost predicate Holds(p: Player) {
    p.movie.Some? ==> IsModern(p.movie.value)
  }

  lemma ModernIsWhole(m: Movie, k: nat)
    requires IsModern(m) && k < |m.frames| && m.frames[k].Some?
    ensures |CommandsOf(m.frames[k].value)| % 10 == 0
  {
    hide Load, FramesOf, OpeningOf, VersionOf;
    var s :| Load(s) == Loaded(m) && VersionOf(s) >= MODERN;
    LoadedIsTimeline(s);
    assert WholeCommands(FramesOf(s)[k]);
  }

  lemma ModernDoesNotFail(p: Player)
    requires Holds(p)
    ensures !Fails(p)
  {
    forall f | Runs(p, f) ensures |CommandsOf(f)| % 10 == 0 {
      ModernIsWhole(p.movie.value, p.currentFrame);
    }
  }

  lemma StaysModern(p: Player, e: Event)
    requires Allowed(p, e) && Holds(p)
    requires e.SetSource? && e.movie.Some? ==> IsModern(e.movie.value)
    ensures Holds(Apply(p, e))
  {
    hide IsModern;
  }

  lemma {:induction false} ModernNeverFailsOnce(p: Player, es: seq<Event>)
    requires Feasible(p, es) && Holds(p)
    requires forall i :: 0 <= i < |es| && es[i].SetSource? && es[i].movie.Some? ==> IsModern(es[i].movie.value)
    ensures !FailsOnce(p, es)
    decreases |es|
  {
    if es != [] {
      hide IsModern, Fails, Apply;
      ModernDoesNotFail(p);
      StaysModern(p, es[0]);
      assert forall i :: 0 <= i < |es[1..]| ==> es[1..][i] == es[i + 1];
      ModernNeverFailsOnce(Apply(p, es[0]), es[1..]);
    }
  }

  /** From the file to the motors: with the codes that the decoder returns, a new player that is
      given movies of modern files only never reports that the motors failed. */
  lemma ModernNeverFails(enabled: bool, es: seq<Event>, session: nat)
    requires Feasible(Initial(enabled), es) && AllAnswered(Initial(enabled), es, session)
    requires forall i :: 0 <= i < |es| && es[i].SetSource? && es[i].movie.Some? ==> IsModern(es[i].movie.value)
    ensures FAILED !in Run(Initial(enabled), es).log
  {
    RunFailsIff(Initial(enabled), es, session);
    ModernNeverFailsOnce(Initial(enabled), es);
  }
}
