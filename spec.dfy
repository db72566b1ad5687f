/**
 * The behaviour of boy.py's four states and of one StateMachine.update() tick,
 * as functions on values. The classes in machine.dfy are proved against these.
 */
module Spec {
  import opened Wrappers
  import opened Events

  /** The four state classes of boy.py; they carry no data of their own. */
  datatype State = Idle | Sleep | Run | AutoRun

  /**
   * The fields of a Boy that the states read and write. speed and
   * sizeMultiplier are None until AutoRun.enter first assigns them;
   * startTime is a clock reading in seconds.
   */
  datatype Body = Body(
    x: int, y: int, frame: int, dir: int, action: int,
    speed: Option<int>, sizeMultiplier: Option<int>, startTime: real)

  const FrameCount := 8        // frames per sprite-sheet row
  const RunStep := 5           // Run.do moves this far per tick
  const AutoRunSpeed := 10     // AutoRun.enter
  const AutoRunScale := 2      // AutoRun.enter
  const NormalSpeed := 5       // AutoRun.exit
  const NormalScale := 1       // AutoRun.exit
  const LeftBound := 50        // AutoRun.do turns around below this x
  const RightBound := 750      // and above this x
  const AutoRunSeconds := 5.0  // AutoRun.do posts TIME_OUT after this long
  const StandingAction := 3
  const RightAction := 1
  const LeftAction := 0

  /** The frame index after one animation step. */
  function NextFrame(frame: int): (r: int)
    ensures 0 <= r < FrameCount
    ensures 0 <= frame < FrameCount - 1 ==> r == frame + 1
    ensures frame == FrameCount - 1 ==> r == 0
  {
    (frame + 1) % FrameCount
  }

  /** The effect of s.enter(boy, e) at clock reading now. */
  function EnterEffect(s: State, b: Body, e: Event, now: real): (r: Body)
    ensures r.x == b.x && r.y == b.y  // entering a state never moves the boy
    ensures r.startTime == b.startTime || r.startTime == now
    ensures s != AutoRun ==> r.speed == b.speed && r.sizeMultiplier == b.sizeMultiplier
  {
    match s
    case Idle => b.(dir := 0, frame := 0, action := StandingAction, startTime := now)
    case Sleep => b
    case Run =>
      if RightDown(e) || LeftUp(e) then b.(dir := 1, action := RightAction)
      else if LeftDown(e) || RightUp(e) then b.(dir := -1, action := LeftAction)
      else b
    case AutoRun =>
      b.(dir := 1, speed := Some(AutoRunSpeed), sizeMultiplier := Some(AutoRunScale),
         startTime := now, action := RightAction)
  }

  /** The effect of s.exit(boy, e); only AutoRun's does anything. */
  function ExitEffect(s: State, b: Body): (r: Body)
    ensures r.(speed := b.speed, sizeMultiplier := b.sizeMultiplier) == b
    ensures s != AutoRun ==> r == b
  {
    if s == AutoRun then b.(speed := Some(NormalSpeed), sizeMultiplier := Some(NormalScale))
    else b
  }

  /** AutoRun.do reads speed, which exists only once AutoRun.enter has run. */
  predicate CanDo(s: State, b: Body) {
    s == AutoRun ==> b.speed.Some?
  }

  /** The effect of s.do(boy) on the Boy's fields. */
  function DoEffect(s: State, b: Body): (r: Body)
    requires CanDo(s, b)
    ensures r.y == b.y && r.action == b.action && r.startTime == b.startTime
    ensures r.speed == b.speed && r.sizeMultiplier == b.sizeMultiplier
    ensures 0 <= r.frame < FrameCount
    ensures s == Idle || s == Sleep ==> r.x == b.x && r.dir == b.dir
  {
    match s
    case Idle => b.(frame := NextFrame(b.frame))
    case Sleep => b.(frame := NextFrame(b.frame))
    case Run => b.(x := b.x + b.dir * RunStep, frame := NextFrame(b.frame))
    case AutoRun =>
      var x := b.x + b.dir * b.speed.value;
      b.(x := x, frame := NextFrame(b.frame),
         dir := if x < LeftBound || x > RightBound then -b.dir else b.dir)
  }

  /** The events s.do(boy) appends to the machine's queue at clock reading now. */
  function Posted(s: State, b: Body, now: real): (r: seq<Event>)
    ensures r == [] || r == [TimeOut]
    ensures s != AutoRun ==> r == []
  {
    if s == AutoRun && now - b.startTime > AutoRunSeconds then [TimeOut] else []
  }

  /** A transition row: (predicate, next state) pairs in declaration order. */
  type Row = seq<(Guard, State)>

  type Table = map<State, Row>

  /** The table Boy installs with set_transitions. */
  const Transitions: Table := map[
    Idle := [(OnRightDown, Run), (OnLeftDown, Run), (OnLeftUp, Run), (OnRightUp, Run),
             (OnAutoRunDown, AutoRun), (OnTimeOut, Sleep)],
    AutoRun := [(OnTimeOut, Idle), (OnRightDown, Run), (OnLeftDown, Run)],
    Sleep := [(OnRightDown, Run), (OnLeftDown, Run), (OnRightUp, Run), (OnLeftUp, Run),
              (OnSpaceDown, Idle)],
    Run := [(OnRightDown, Idle), (OnLeftDown, Idle), (OnRightUp, Idle), (OnLeftUp, Idle)]
  ]

  /** What one update() can see and change: current state, the Boy's fields, the event queue. */
  datatype Config = Config(cur: State, body: Body, queue: seq<Event>)

  /** update() may run: the current state has a row and can run its do. */
  predicate Ready(c: Config, table: Table) {
    c.cur in table && CanDo(c.cur, c.body)
  }

  /** The configuration once the current state's do has run. */
  function AfterDo(c: Config, now: real): Config
    requires CanDo(c.cur, c.body)
  {
    Config(c.cur, DoEffect(c.cur, c.body), c.queue + Posted(c.cur, c.body, now))
  }

  /**
   * One StateMachine.update(): do, then pop the oldest event if any, then
   * take the first matching entry of the current state's row, if any.
   */
  function Tick(c: Config, table: Table, now: real): (r: Config)
    requires Ready(c, table)
    ensures |r.queue| <= |c.queue|
    ensures r.body.y == c.body.y
    ensures r.cur != c.cur ==> exists i :: 0 <= i < |table[c.cur]| && table[c.cur][i].1 == r.cur
  {
    var d := AfterDo(c, now);
    if d.queue == [] then d
    else
      var e := d.queue[0];
      var row := table[c.cur];
      match FirstMatch(row, e)
      case None => d.(queue := d.queue[1..])
      case Some(i) =>
        Config(row[i].1, EnterEffect(row[i].1, ExitEffect(c.cur, d.body), e, now), d.queue[1..])
  }

  /** A call of a state's do, exit or enter. */
  datatype Call = DoCalled(s: State) | ExitCalled(s: State, e: Event) | EnterCalled(s: State, e: Event)

  /** The state calls one update() makes, in order. */
  function TickCalls(c: Config, table: Table, now: real): (r: seq<Call>)
    requires Ready(c, table)
    ensures |r| == 1 || (|r| == 3 && r[1].ExitCalled? && r[2].EnterCalled? && r[1].e == r[2].e)
    ensures r[0] == DoCalled(c.cur)
  {
    var d := AfterDo(c, now);
    [DoCalled(c.cur)] +
    if d.queue == [] then []
    else
      var e := d.queue[0];
      var row := table[c.cur];
      match FirstMatch(row, e)
      case None => []
      case Some(i) => [ExitCalled(c.cur, e), EnterCalled(row[i].1, e)]
  }
}
