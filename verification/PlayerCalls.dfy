/** What each call of the player does, status by status, and how long a frame's motors are told to take
    (server/service/MotionPlayer.cpp:53-249). */
module PlayerCalls {
  import opened Basics
  import opened ArmFiles
  import opened Players

  /** The rhythm of a movie: 1 takes the run time of the frame, if it has one, 2 a tenth of a second, 3 leaves it to
      the unit, and any other the duration of the frame, or of all frames if it has none. */
  lemma RhythmSets(m: Movie, f: Frame)
    ensures var d := RunDuration(m, f);
      && (m.rhythm == 3 ==> d == 0) && (m.rhythm == 2 ==> d == 100)
      && (m.rhythm == 1 && f.runTime != 0 ==> d == f.runTime)
      && (m.rhythm != 3 && m.rhythm != 2 && (m.rhythm != 1 || f.runTime == 0) ==>
           d == if f.duration == 0 then m.frameTime else f.duration)
  {
  }

  /** The listener is told, if there is one. */
  predicate Adds(p: Player, q: Player, status: Status, code: int) {
    q.log == p.log + if p.listening then [Completed(status, code)] else []
  }

  predicate AtStart(q: Player) {
    q.currentFrame == 0 && q.currentPosition == 0 && q.seekTo == 0
  }

  predicate KeepsPlace(p: Player, q: Player) {
    q.currentFrame == p.currentFrame && q.currentPosition == p.currentPosition && q.seekTo == p.seekTo
  }

  /** No call but those that say so changes movie, listener or switch. */
  predicate KeepsRest(p: Player, q: Player) {
    q.movie == p.movie && q.listening == p.listening && q.enabled == p.enabled
  }

  /** The calls that control the player. */
  lemma ControlCalls(p: Player)
    ensures var q := Apply(p, Prepare);
      && KeepsRest(p, q)
      && (if p.movie.None? then q.status == Unready && KeepsPlace(p, q) && q.log == p.log
          else q.status == Ready && AtStart(q) && Adds(p, q, Ready, 0))
    ensures var q := Apply(p, Start);
      && KeepsRest(p, q) && AtStart(q) && q.log == p.log
      && q.status == (if p.status == Ready && p.movie.Some? then Running else p.status)
    ensures var q := Apply(p, Pause);
      KeepsRest(p, q) && KeepsPlace(p, q) && q.log == p.log
      && q.status == (if p.status == Running then Paused else p.status)
    ensures var q := Apply(p, Resume);
      KeepsRest(p, q) && KeepsPlace(p, q) && q.log == p.log
      && q.status == (if p.status == Paused then Running else p.status)
    ensures var q := Apply(p, Stop); KeepsRest(p, q) && KeepsPlace(p, q) && q.log == p.log && q.status == Ready
  {
  }

  /** The calls that set it up. */
  lemma SettingCalls(p: Player, m: Option<Movie>, on: bool)
    ensures var q := Apply(p, SetSource(m));
      q.movie == m && q.status == Unready && KeepsPlace(p, q) && q.log == p.log
      && q.listening == p.listening && q.enabled == p.enabled
    ensures var q := Apply(p, RefuseSource);
      KeepsRest(p, q) && q.status == Unready && KeepsPlace(p, q) && q.log == p.log
    ensures var q := Apply(p, Listen(on));
      q.listening == on && q.movie == p.movie && q.enabled == p.enabled && q.status == p.status
      && KeepsPlace(p, q) && q.log == p.log
    ensures var q := Apply(p, Enable(on));
      q.enabled == on && q.movie == p.movie && q.listening == p.listening && q.status == p.status
      && KeepsPlace(p, q) && q.log == p.log
  {
  }

  /** An update: nothing unless the player runs; at the end it is over; a missing frame takes one tick; a frame whose
      time has come is run, if motors are switched on, and a refusal of the motors is told; otherwise time passes. */
  lemma UpdateCall(p: Player, dt: int, rc: int)
    ensures var q := Apply(p, Update(dt, rc));
      if p.status != Running || p.movie.None? then q == p
      else
        && KeepsRest(p, q) && q.seekTo == p.seekTo
        && var m := p.movie.value; var k, n := p.currentFrame, |m.frames|;
          if k < 0 || k > n then q.status == Unready && KeepsPlace(p, q) && Adds(p, q, Unready, -2)
          else if k == n then q.status == Over && KeepsPlace(p, q) && Adds(p, q, Over, 0)
          else
            && q.status == Running && q.currentPosition == p.currentPosition + dt
            && if m.frames[k].None? then q.currentFrame == k + 1 && q.log == p.log
               else
                 var f := m.frames[k].value;
                 if p.currentPosition < f.timePosition then q.currentFrame == k && q.log == p.log
                 else
                   && q.currentFrame == k + 1
                   && if !p.enabled then q.log == p.log
                      else
                        var ran := p.(log := p.log + [Ran(k, p.currentPosition, f.commands, RunDuration(m, f))]);
                        if rc < 0 then Adds(ran, q, Running, -3) else q.log == ran.log
  {
  }

  /** The frame begins in the same second as the position, or in an earlier one. */
  predicate BeginsBy(f: Option<Frame>, pos: int) {
    f.Some? && TruncDiv(f.value.timePosition, 1000) <= TruncDiv(pos, 1000)
  }

  /** A seek: to the last such frame, and its own time, if there is one; otherwise the player stops before the
      first. The position asked for is remembered. */
  lemma SeekCall(p: Player, pos: int)
    requires p.movie.Some?
    ensures var q, frames := Apply(p, Seek(pos)), p.movie.value.frames;
      && KeepsRest(p, q) && q.seekTo == pos && q.log == p.log
      && if exists k :: 0 <= k < |frames| && BeginsBy(frames[k], pos) then
           && 0 <= q.currentFrame < |frames| && BeginsBy(frames[q.currentFrame], pos)
           && (forall k :: q.currentFrame < k < |frames| ==> !BeginsBy(frames[k], pos))
           && q.currentPosition == frames[q.currentFrame].value.timePosition && q.status == p.status
         else q.currentFrame == -1 && q.currentPosition == p.currentPosition && q.status == Ready
  {
    LastBegins(p.movie.value.frames, pos, |p.movie.value.frames|);
  }

  lemma {:induction false} LastBegins(frames: seq<Option<Frame>>, pos: int, n: nat)
    requires n <= |frames|
    ensures var k := SeekIndex(frames, pos, n);
      && (k >= 0 ==> BeginsBy(frames[k], pos))
      && forall i :: k < i < n ==> !BeginsBy(frames[i], pos)
  {
    if n > 0 { LastBegins(frames, pos, n - 1); }
  }
}
