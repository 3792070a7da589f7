/** The player of motion files as a state machine over its calls and frame ticks
    (server/service/MotionPlayer.cpp). What a motor command returns is a parameter of the tick. */
module Players {
  import opened Basics
  import opened ArmFiles

  datatype Status = Unready | Over | Ready | Paused | Running

  /** A frame handed to the motors, or a call of the completion listener. */
  datatype Signal =
    | Ran(frame: int, position: int, commands: Option<seq<byte>>, duration: int)
    | Completed(status: Status, code: int)

  datatype Player = Player(
    movie: Option<Movie>,
    status: Status,
    currentFrame: int,
    currentPosition: int,
    seekTo: int,
    listening: bool,
    enabled: bool,
    log: seq<Signal>)

  /** The duration that goes with a frame's commands. */
  function RunDuration(m: Movie, f: Frame): int {
    var duration := if f.duration == 0 then m.frameTime else f.duration;
    match m.rhythm
    case 1 => if f.runTime == 0 then duration else f.runTime
    case 2 => 100
    case 3 => 0
    case _ => duration
  }

  function Told(p: Player, status: Status, code: int): seq<Signal> {
    if p.listening then [Completed(status, code)] else []
  }

  /** What is seen of a frame that is run at a position. */
  function Signals(p: Player, m: Movie, k: int, f: Frame, position: int, rc: int): seq<Signal> {
    if !p.enabled then []
    else [Ran(k, position, f.commands, RunDuration(m, f))] + if rc < 0 then Told(p, Running, -3) else []
  }

  /** update while a frame is left. */
  function Stepped(p: Player, m: Movie, dt: int, rc: int): Player
    requires 0 <= p.currentFrame < |m.frames|
  {
    var frame := m.frames[p.currentFrame];
    var q := p.(currentPosition := p.currentPosition + dt);
    if frame.None? then q.(currentFrame := p.currentFrame + 1)
    else if p.currentPosition >= frame.value.timePosition then
      q.(currentFrame := p.currentFrame + 1,
         log := p.log + Signals(p, m, p.currentFrame, frame.value, p.currentPosition, rc))
    else q
  }

  /** update. */
  function Tick(p: Player, dt: int, rc: int): Player {
    if p.status != Running || p.movie.None? then p
    else
      var n := |p.movie.value.frames|;
      if p.currentFrame < 0 || p.currentFrame > n then p.(status := Unready, log := p.log + Told(p, Unready, -2))
      else if p.currentFrame == n then p.(status := Over, log := p.log + Told(p, Over, 0))
      else Stepped(p, p.movie.value, dt, rc)
  }

  function Rewound(p: Player): Player {
    p.(currentFrame := 0, currentPosition := 0, seekTo := 0)
  }

  function Prepared(p: Player): Player {
    if p.movie.None? then p.(status := Unready)
    else Rewound(p).(status := Ready, log := p.log + Told(p, Ready, 0))
  }

  function Started(p: Player): Player {
    if p.status != Ready || p.movie.None? then Rewound(p) else Rewound(p).(status := Running)
  }

  /** C's division by a positive number, which rounds towards zero. */
  function TruncDiv(a: int, b: int): int
    requires b > 0
  {
    if a >= 0 then a / b else -(-a / b)
  }

  predicate Reaches(pos: int, f: Option<Frame>) {
    f.Some? && TruncDiv(pos, 1000) >= TruncDiv(f.value.timePosition, 1000)
  }

  /** The last of the first n frames that begins in an earlier second than `pos` or in the same. */
  function SeekIndex(frames: seq<Option<Frame>>, pos: int, n: nat): (k: int)
    requires n <= |frames|
    ensures -1 <= k < n
  {
    if n == 0 then -1 else if Reaches(pos, frames[n - 1]) then n - 1 else SeekIndex(frames, pos, n - 1)
  }

  function Sought(p: Player, pos: int): Player
    requires p.movie.Some?
  {
    var frames := p.movie.value.frames;
    var k := SeekIndex(frames, pos, |frames|);
    if k < 0 then p.(currentFrame := -1, status := Ready, seekTo := pos)
    else if frames[k].Some? then p.(currentFrame := k, currentPosition := frames[k].value.timePosition, seekTo := pos)
    else p
  }

  datatype Event =
    | Update(dt: int, rc: int)
    | SetSource(movie: Option<Movie>)
    | RefuseSource
    | Prepare
    | Start
    | Pause
    | Resume
    | Stop
    | Seek(pos: int)
    | Listen(on: bool)
    | Enable(on: bool)

  /** The source demands loaded frames of a caller that seeks. */
  predicate Allowed(p: Player, e: Event) {
    e.Seek? ==> p.movie.Some?
  }

  function Apply(p: Player, e: Event): Player
    requires Allowed(p, e)
  {
    match e
    case Update(dt, rc) => Tick(p, dt, rc)
    case SetSource(movie) => p.(movie := movie, status := Unready)
    case RefuseSource => p.(status := Unready)
    case Prepare => Prepared(p)
    case Start => Started(p)
    case Pause => if p.status == Running then p.(status := Paused) else p
    case Resume => if p.status == Paused then p.(status := Running) else p
    case Stop => p.(status := Ready)
    case Seek(pos) => Sought(p, pos)
    case Listen(on) => p.(listening := on)
    case Enable(on) => p.(enabled := on)
  }

  predicate Feasible(p: Player, es: seq<Event>)
    decreases |es|
  {
    es == [] || (Allowed(p, es[0]) && Feasible(Apply(p, es[0]), es[1..]))
  }

  function Run(p: Player, es: seq<Event>): Player
    requires Feasible(p, es)
    decreases |es|
  {
    if es == [] then p else Run(Apply(p, es[0]), es[1..])
  }

  /** A new player. */
  function Initial(enabled: bool): Player {
    Player(None, Unready, 0, 0, 0, false, enabled, [])
  }
}
