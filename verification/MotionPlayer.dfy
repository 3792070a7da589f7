/** The player updated in place (server/service/MotionPlayer.cpp), proved against the functions on
    its state. */
module MotionPlayers {
  import opened Basics
  import opened ArmFiles
  import opened Players

  class MotionPlayer {
    var motionFrames: Option<Movie>
    var status: Status
    var currentFrame: int
    var currentPosition: int
    var seekToPosition: int
    var listening: bool
    var bEnableRun: bool
    /** The commands given to the motors, and the listener's calls. */
    var log: seq<Signal>

    ghost function View(): Player
      reads this
    {
      Player(motionFrames, status, currentFrame, currentPosition, seekToPosition, listening, bEnableRun, log)
    }

    constructor (enabled: bool)
      ensures View() == Initial(enabled)
    {
      motionFrames, status, currentFrame, currentPosition, seekToPosition := None, Unready, 0, 0, 0;
      listening, bEnableRun, log := false, enabled, [];
    }

    method OnCompletion(code: int)
      modifies this`log
      ensures log == old(log) + Told(old(View()), status, code)
    {
      if listening { log := log + [Completed(status, code)]; }
    }

    /** The switch of update. */
    method Duration(m: Movie, frame: Frame) returns (d: int)
      ensures d == RunDuration(m, frame)
    {
      d := if frame.duration == 0 then m.frameTime else frame.duration;
      if m.rhythm == 1 {
        if frame.runTime != 0 { d := frame.runTime; }
      } else if m.rhythm == 2 {
        d := 100;
      } else if m.rhythm == 3 {
        d := 0;
      }
    }

    /** The part of update for a frame whose time has come; the motors return `rc`. */
    method RunFrame(m: Movie, frame: Frame, rc: int)
      requires status == Running
      modifies this`log, this`currentFrame
      ensures currentFrame == old(currentFrame) + 1
      ensures log == old(log) + Signals(old(View()), m, old(currentFrame), frame, currentPosition, rc)
    {
      var d := Duration(m, frame);
      if bEnableRun {
        log := log + [Ran(currentFrame, currentPosition, frame.commands, d)];
        if rc < 0 { OnCompletion(-3); }
      }
      currentFrame := currentFrame + 1;
    }

    method Update(timeSincelastFrame: int, rc: int) returns (r: int)
      modifies this
      ensures View() == Tick(old(View()), timeSincelastFrame, rc)
      ensures r < 0 <==> old(status) == Running && status == Unready
    {
      if status != Running || motionFrames.None? { return 0; }
      var m := motionFrames.value;
      if currentFrame < 0 || currentFrame > |m.frames| {
        status := Unready;
        OnCompletion(-2);
        return -1;
      }
      if currentFrame == |m.frames| {
        status := Over;
        OnCompletion(0);
        return 0;
      }
      var frame := m.frames[currentFrame];
      if frame.Some? && currentPosition >= frame.value.timePosition {
        RunFrame(m, frame.value, rc);
      }
      if frame.None? {
        currentFrame := currentFrame + 1;
      }
      currentPosition := currentPosition + timeSincelastFrame;
      return 0;
    }

    /** setDataSource and setDataSourceByStream; `loaded` is what the loader gives, and a path that is
        refused leaves the frames as they are. */
    method SetDataSource(accepted: bool, loaded: Option<Movie>) returns (r: int)
      modifies this`status, this`motionFrames
      ensures View() == Apply(old(View()), if accepted then SetSource(loaded) else RefuseSource)
      ensures r == if accepted then 0 else -1
    {
      status := Unready;
      if !accepted { return -1; }
      motionFrames := loaded;
      return 0;
    }

    method Prepare() returns (r: int)
      modifies this
      ensures View() == Apply(old(View()), Event.Prepare)
      ensures r == if old(motionFrames).None? then -1 else 0
    {
      status := Unready;
      if motionFrames.None? { return -1; }
      currentFrame, currentPosition, seekToPosition := 0, 0, 0;
      status := Ready;
      OnCompletion(0);
      return 0;
    }

    method Start() returns (r: int)
      modifies this
      ensures View() == Apply(old(View()), Event.Start)
      ensures r == 0 <==> old(status) == Ready && old(motionFrames).Some?
    {
      currentFrame, currentPosition, seekToPosition := 0, 0, 0;
      if status != Ready || motionFrames.None? { return -1; }
      status := Running;
      return 0;
    }

    method Pause()
      modifies this`status
      ensures View() == Apply(old(View()), Event.Pause)
    {
      if status == Running { status := Paused; }
    }

    method Resume()
      modifies this`status
      ensures View() == Apply(old(View()), Event.Resume)
    {
      if status == Paused { status := Running; }
    }

    method Stop()
      modifies this`status
      ensures View() == Apply(old(View()), Event.Stop)
    {
      status := Ready;
    }

    method SetPosition(pos: int) returns (r: int)
      requires motionFrames.Some?
      modifies this`status, this`currentFrame, this`currentPosition, this`seekToPosition
      ensures View() == Apply(old(View()), Seek(pos))
      ensures r == SeekIndex(motionFrames.value.frames, pos, |motionFrames.value.frames|)
    {
      var frames := motionFrames.value.frames;
      currentFrame := -1;
      for i := 0 to |frames|
        invariant status == old(status)
        invariant currentFrame == SeekIndex(frames, pos, i)
        invariant currentFrame >= 0 ==> frames[currentFrame].Some?
        invariant currentPosition ==
          if currentFrame >= 0 then frames[currentFrame].value.timePosition else old(currentPosition)
      {
        var frame := frames[i];
        if frame.Some? && TruncDiv(pos, 1000) >= TruncDiv(frame.value.timePosition, 1000) {
          currentFrame := i;
          currentPosition := frame.value.timePosition;
        }
      }
      if currentFrame == -1 {
        Stop();
      }
      seekToPosition := pos;
      return currentFrame;
    }
  }
}
