/**
 * The objects: the StateMachine of state_machine.py and the Boy of boy.py,
 * with the states' enter, exit and do as methods that update a Boy in place.
 * The two classes refer to each other (machine.obj and boy.stateMachine), so
 * they share one module.
 */
module Animation {
  import opened Wrappers
  import opened Events
  import opened Spec
  import opened Properties

  // The states' operations. Each is proved against the function of Spec
  // that gives its effect; the dispatchers below play the part of the
  // dynamic call self.cur_state.enter/exit/do. Idle.exit, Sleep.enter,
  // Sleep.exit and Run.exit are `pass` and need no method.

  /** Idle.enter: stand still at frame 0 and note the entry time. */
  method IdleEnter(boy: Boy, e: Event, now: real)
    modifies boy`dir, boy`frame, boy`action, boy`startTime
    ensures boy.View() == old(boy.View()).(dir := 0, frame := 0, action := StandingAction, startTime := now)
    ensures boy.View() == EnterEffect(Idle, old(boy.View()), e, now)
  {
    boy.dir := 0;
    boy.frame := 0;
    boy.action := StandingAction;
    boy.startTime := now;
  }

  /** Idle.do: the next animation frame, nothing else. */
  method IdleDo(boy: Boy)
    modifies boy`frame
    ensures boy.View() == old(boy.View()).(frame := NextFrame(old(boy.frame)))
    ensures boy.View() == DoEffect(Idle, old(boy.View()))
  {
    boy.frame := (boy.frame + 1) % FrameCount;
  }

  /** Sleep.do: the next animation frame, nothing else. */
  method SleepDo(boy: Boy)
    modifies boy`frame
    ensures boy.View() == old(boy.View()).(frame := NextFrame(old(boy.frame)))
    ensures boy.View() == DoEffect(Sleep, old(boy.View()))
  {
    boy.frame := (boy.frame + 1) % FrameCount;
  }

  /**
   * Run.enter: right press or left release runs right, left press or right
   * release runs left; any other event leaves direction and action alone.
   */
  method RunEnter(boy: Boy, e: Event)
    modifies boy`dir, boy`action
    ensures RightDown(e) || LeftUp(e) ==> boy.dir == 1 && boy.action == RightAction
    ensures !(RightDown(e) || LeftUp(e)) && (LeftDown(e) || RightUp(e))
            ==> boy.dir == -1 && boy.action == LeftAction
    ensures !(RightDown(e) || LeftUp(e) || LeftDown(e) || RightUp(e))
            ==> boy.dir == old(boy.dir) && boy.action == old(boy.action)
    ensures forall now :: boy.View() == EnterEffect(Run, old(boy.View()), e, now)
  {
    if RightDown(e) || LeftUp(e) {
      boy.dir, boy.action := 1, RightAction;
    } else if LeftDown(e) || RightUp(e) {
      boy.dir, boy.action := -1, LeftAction;
    }
  }

  /** Run.do: one step of RunStep in the current direction, and the next frame. */
  method RunDo(boy: Boy)
    modifies boy`x, boy`frame
    ensures boy.x == old(boy.x) + old(boy.dir) * RunStep && boy.y == old(boy.y)
    ensures boy.View() == DoEffect(Run, old(boy.View()))
  {
    boy.x := boy.x + boy.dir * RunStep;
    boy.frame := (boy.frame + 1) % FrameCount;
  }

  /** AutoRun.enter: run right at double speed and double size, noting the entry time. */
  method AutoRunEnter(boy: Boy, e: Event, now: real)
    modifies boy`dir, boy`speed, boy`sizeMultiplier, boy`startTime, boy`action
    ensures boy.dir == 1 && boy.action == RightAction && boy.startTime == now
    ensures boy.speed == Some(AutoRunSpeed) && boy.sizeMultiplier == Some(AutoRunScale)
    ensures boy.View() == EnterEffect(AutoRun, old(boy.View()), e, now)
  {
    boy.dir := 1;
    boy.speed := Some(AutoRunSpeed);
    boy.sizeMultiplier := Some(AutoRunScale);
    boy.startTime := now;
    boy.action := RightAction;
  }

  /** AutoRun.exit: back to normal speed and size. */
  method AutoRunExit(boy: Boy, e: Event)
    modifies boy`speed, boy`sizeMultiplier
    ensures boy.speed == Some(NormalSpeed) && boy.sizeMultiplier == Some(NormalScale)
    ensures boy.View() == ExitEffect(AutoRun, old(boy.View()))
  {
    boy.speed := Some(NormalSpeed);
    boy.sizeMultiplier := Some(NormalScale);
  }

  /**
   * AutoRun.do: move by speed, then turn around if past a bound; after more
   * than AutoRunSeconds in AutoRun, post a TIME_OUT to the boy's own machine.
   */
  method AutoRunDo(boy: Boy, now: real)
    requires boy.stateMachine != null && boy.speed.Some?
    modifies boy`x, boy`frame, boy`dir, boy.stateMachine`eventQue
    ensures boy.x == old(boy.x + boy.dir * boy.speed.value) && boy.y == old(boy.y)
    ensures boy.dir == if boy.x < LeftBound || boy.x > RightBound then -old(boy.dir) else old(boy.dir)
    ensures boy.View() == DoEffect(AutoRun, old(boy.View()))
    ensures boy.stateMachine.eventQue
         == old(boy.stateMachine.eventQue)
            + (if now - old(boy.startTime) > AutoRunSeconds then [TimeOut] else [])
  {
    boy.x := boy.x + boy.dir * boy.speed.value;
    boy.frame := (boy.frame + 1) % FrameCount;
    if boy.x < LeftBound || boy.x > RightBound {
      boy.dir := -boy.dir;
    }
    if now - boy.startTime > AutoRunSeconds {
      boy.stateMachine.AddEvent(TimeOut);
    }
  }

  /** s.enter(boy, e), with now the clock reading get_time() would return. */
  method Enter(s: State, boy: Boy, e: Event, now: real)
    modifies boy`dir, boy`frame, boy`action, boy`speed, boy`sizeMultiplier, boy`startTime
    ensures boy.View() == EnterEffect(s, old(boy.View()), e, now)
  {
    match s
    case Idle => IdleEnter(boy, e, now);
    case Sleep =>
    case Run => RunEnter(boy, e);
    case AutoRun => AutoRunEnter(boy, e, now);
  }

  /** s.exit(boy, e). */
  method Exit(s: State, boy: Boy, e: Event)
    modifies boy`speed, boy`sizeMultiplier
    ensures boy.View() == ExitEffect(s, old(boy.View()))
  {
    if s == AutoRun {
      AutoRunExit(boy, e);
    }
  }

  /** s.do(boy), which for AutoRun may post to the boy's machine. */
  method Do(s: State, boy: Boy, now: real)
    requires boy.stateMachine != null && CanDo(s, boy.View())
    modifies boy`x, boy`frame, boy`dir, boy.stateMachine`eventQue
    ensures boy.View() == DoEffect(s, old(boy.View()))
    ensures boy.stateMachine.eventQue
         == old(boy.stateMachine.eventQue) + Posted(s, old(boy.View()), now)
  {
    match s
    case Idle => IdleDo(boy);
    case Sleep => SleepDo(boy);
    case Run => RunDo(boy);
    case AutoRun => AutoRunDo(boy, now);
  }

  class StateMachine {
    var obj: Boy
    var eventQue: seq<Event>
    var curState: State
    var transitions: Table
    /** start() has run; before it cur_state does not exist. */
    ghost var started: bool
    /** The do, exit and enter calls made so far, oldest first. */
    ghost var calls: seq<Call>

    ghost function View(): Config
      reads this, obj
    {
      Config(curState, obj.View(), eventQue)
    }

    constructor (obj: Boy)
      ensures this.obj == obj && eventQue == [] && transitions == map[]
      ensures !started && calls == []
    {
      this.obj := obj;
      eventQue := [];
      curState := Idle;
      transitions := map[];
      started := false;
      calls := [];
    }

    /** Makes s the current state and enters it with a START event; no lookup, queue untouched. */
    method Start(s: State, now: real)
      modifies this, obj
      ensures obj == old(obj) && obj.stateMachine == old(obj.stateMachine)
      ensures curState == s && started
      ensures eventQue == old(eventQue) && transitions == old(transitions)
      ensures obj.View() == EnterEffect(s, old(obj.View()), Event.Start, now)
      ensures calls == old(calls) + [EnterCalled(s, Event.Start)]
    {
      curState := s;
      started := true;
      calls := calls + [EnterCalled(s, Event.Start)];
      Enter(s, obj, Event.Start, now);
    }

    /**
     * One tick: the current state's do, then at most one event, the oldest,
     * dispatched through the first matching entry of the current state's row.
     */
    method Update(now: real)
      requires started && obj.stateMachine == this && Ready(View(), transitions)
      modifies this, obj
      ensures obj == old(obj) && obj.stateMachine == this
      ensures started && transitions == old(transitions)
      ensures View() == Tick(old(View()), transitions, now)
      ensures calls == old(calls) + TickCalls(old(View()), transitions, now)
    {
      ghost var c0 := View();
      calls := calls + [DoCalled(curState)];
      Do(curState, obj, now);
      assert View() == AfterDo(c0, now);
      if eventQue == [] {
        TickWithoutEvent(c0, transitions, now);
        return;
      }
      var e := eventQue[0];
      eventQue := eventQue[1..];
      var row := transitions[curState];
      ghost var popped := View();
      var i := 0;
      while i < |row|
        invariant 0 <= i <= |row|
        invariant forall j :: 0 <= j < i ==> !Holds(row[j].0, e)
        invariant View() == popped && calls == old(calls) + [DoCalled(c0.cur)]
      {
        var (check, next) := row[i];
        if Holds(check, e) {
          TickTakesEntry(c0, transitions, now, i);
          calls := calls + [ExitCalled(curState, e)];
          Exit(curState, obj, e);
          curState := next;
          calls := calls + [EnterCalled(curState, e)];
          Enter(curState, obj, e, now);
          return;
        }
        i := i + 1;
      }
      TickDropsEvent(c0, transitions, now);
    }

    method AddEvent(e: Event)
      modifies this`eventQue
      ensures eventQue == old(eventQue) + [e]
    {
      eventQue := eventQue + [e];
    }

    method SetTransitions(table: Table)
      modifies this`transitions
      ensures transitions == table
    {
      transitions := table;
    }
  }

  class Boy {
    var x: int
    var y: int
    var frame: int
    var dir: int
    var action: int
    var speed: Option<int>
    var sizeMultiplier: Option<int>
    var startTime: real
    var stateMachine: StateMachine?

    ghost function View(): Body
      reads this
    {
      Body(x, y, frame, dir, action, speed, sizeMultiplier, startTime)
    }

    /** The boy owns a started machine that points back at it and holds the boy's table. */
    ghost predicate Valid()
      reads this, stateMachine
    {
      stateMachine != null && stateMachine.obj == this && stateMachine.started
      && stateMachine.transitions == Transitions && Inv(stateMachine.View())
    }

    /** Boy(): fields as set in __init__, machine started in Idle, then the table installed. */
    constructor (now: real)
      ensures Valid() && fresh(stateMachine)
      ensures stateMachine.View() == Config(Idle, Body(400, 90, 0, 0, StandingAction, None, None, now), [])
      ensures stateMachine.calls == [EnterCalled(Idle, Event.Start)]
    {
      x, y := 400, 90;
      frame := 0;
      dir := 0;
      action := StandingAction;
      speed, sizeMultiplier := None, None;
      startTime := 0.0;  // not yet an attribute in the original; Idle.enter sets it below
      stateMachine := null;
      new;
      stateMachine := new StateMachine(this);
      stateMachine.Start(Idle, now);
      stateMachine.SetTransitions(Transitions);
    }

    method Update(now: real)
      requires Valid()
      modifies this, stateMachine
      ensures Valid() && stateMachine == old(stateMachine)
      ensures stateMachine.View() == Tick(old(stateMachine.View()), Transitions, now)
    {
      TickKeepsInv(stateMachine.View(), now);
      stateMachine.Update(now);
    }

    /** Queues a raw key event, tagged as INPUT, behind everything already queued. */
    method HandleEvent(kind: EventType, key: Key)
      requires Valid()
      modifies stateMachine`eventQue
      ensures Valid()
      ensures stateMachine.eventQue == old(stateMachine.eventQue) + [Input(kind, key)]
    {
      stateMachine.AddEvent(Input(kind, key));
    }
  }
}
