/** What the boy's state machine guarantees, proved on the functions of Spec. */
module Properties {
  import opened Wrappers
  import opened Events
  import opened Spec

  /** speed and size multiplier are unset, or at the values AutoRun.exit restores. */
  predicate NormalSize(b: Body) {
    (b.speed == None && b.sizeMultiplier == None)
    || (b.speed == Some(NormalSpeed) && b.sizeMultiplier == Some(NormalScale))
  }

  /** The fields fit the state: direction, action and size are those the state sets. */
  predicate Fits(s: State, b: Body) {
    0 <= b.frame < FrameCount &&
    match s
    case Idle => b.dir == 0 && b.action == StandingAction && NormalSize(b)
    case Sleep => b.dir == 0 && b.action == StandingAction && NormalSize(b)
    case Run =>
      ((b.dir == 1 && b.action == RightAction) || (b.dir == -1 && b.action == LeftAction))
      && NormalSize(b)
    case AutoRun =>
      (b.dir == 1 || b.dir == -1) && b.action == RightAction
      && b.speed == Some(AutoRunSpeed) && b.sizeMultiplier == Some(AutoRunScale)
  }

  /**
   * The invariant of every configuration a Boy can reach: the frame is a
   * column of the sprite sheet, and direction, action and size match the state.
   */
  predicate Inv(c: Config) {
    Fits(c.cur, c.body)
  }

  /** The four arrow-key edges; every entry of the table that leads to Run is guarded by one. */
  predicate Directional(g: Guard) {
    g == OnRightDown || g == OnRightUp || g == OnLeftDown || g == OnLeftUp
  }

  /** The boy's table gives each of the four states a row, so update() never misses one. */
  lemma TableComplete(s: State)
    ensures s in Transitions
  {
  }

  /** Every entry into Run is on an arrow-key edge, and only Idle leads to Sleep. */
  lemma TableTargets(s: State, i: nat)
    requires s in Transitions && i < |Transitions[s]|
    ensures Transitions[s][i].1 == Run ==> Directional(Transitions[s][i].0)
    ensures Transitions[s][i].1 == Sleep ==> s == Idle
  {
  }

  /** A transition of the table, taken on an event its predicate accepts, lands in a fitting state. */
  lemma TransitionFits(s: State, i: nat, b: Body, e: Event, now: real)
    requires s in Transitions && i < |Transitions[s]|
    requires Fits(s, b) && Holds(Transitions[s][i].0, e)
    ensures var t := Transitions[s][i].1;
      Fits(t, EnterEffect(t, ExitEffect(s, b), e, now))
  {
    TableTargets(s, i);
    var t := Transitions[s][i].1;
    var x := ExitEffect(s, b);
    assert NormalSize(x) && 0 <= x.frame < FrameCount;
    if t == Run {
      var g := Transitions[s][i].0;
      assert RightDown(e) || LeftUp(e) || LeftDown(e) || RightUp(e);
    }
  }

  /** Every do keeps the fields fitting the state. */
  lemma DoFits(s: State, b: Body)
    requires Fits(s, b)
    ensures CanDo(s, b) && Fits(s, DoEffect(s, b))
  {
  }

  /** update() under the boy's table keeps the invariant. */
  lemma TickKeepsInv(c: Config, now: real)
    requires Inv(c)
    ensures Ready(c, Transitions)
    ensures Inv(Tick(c, Transitions, now))
  {
    DoFits(c.cur, c.body);
    var d := AfterDo(c, now);
    if d.queue != [] {
      var e := d.queue[0];
      var m := FirstMatch(Transitions[c.cur], e);
      if m.Some? {
        TransitionFits(c.cur, m.value, d.body, e, now);
      }
    }
  }

  /** Several update() calls under the boy's table, one per clock reading in nows. */
  function Ticks(c: Config, nows: seq<real>): (r: Config)
    requires Inv(c)
    ensures Inv(r)
    decreases |nows|
  {
    if nows == [] then c
    else
      TickKeepsInv(c, nows[0]);
      Ticks(Tick(c, Transitions, nows[0]), nows[1..])
  }

  /** Ticks takes the first tick, then the rest. */
  lemma TicksUnfold(c: Config, nows: seq<real>)
    requires Inv(c) && nows != []
    ensures Inv(Tick(c, Transitions, nows[0]))
    ensures Ticks(c, nows) == Ticks(Tick(c, Transitions, nows[0]), nows[1..])
  {
    TickKeepsInv(c, nows[0]);
  }

  /**
   * One update() dispatches on the first matching entry: with no event
   * nothing but do happens; an event no entry accepts is dropped; otherwise
   * the first accepting entry's target becomes current, entered after the old
   * state's exit, and the rest of the queue waits.
   */
  lemma TickDispatch(c: Config, table: Table, now: real)
    requires Ready(c, table)
    ensures var d := AfterDo(c, now); var r := Tick(c, table, now);
      (d.queue == [] ==> r == d)
      && (d.queue != [] ==>
            var e := d.queue[0];
            var row := table[c.cur];
            r.queue == d.queue[1..]
            && (NoMatch(row, e) ==> r.cur == c.cur && r.body == d.body)
            && (forall i: nat :: FirstMatchAt(row, e, i) ==>
                  r.cur == row[i].1
                  && r.body == EnterEffect(row[i].1, ExitEffect(c.cur, d.body), e, now)))
  {
    var d := AfterDo(c, now);
    if d.queue != [] {
      var e := d.queue[0];
      var row := table[c.cur];
      forall i: nat | FirstMatchAt(row, e, i)
        ensures FirstMatch(row, e) == Some(i)
      {
        FirstMatchUnique(row, e, i);
      }
    }
  }

  /**
   * One update() calls do exactly once and first; then either nothing more,
   * or exit of the old state followed by enter of the new one, both with the
   * popped event. Without those two calls the state does not change.
   */
  lemma TickCallOrder(c: Config, table: Table, now: real)
    requires Ready(c, table)
    ensures var calls := TickCalls(c, table, now); var r := Tick(c, table, now);
      var q := c.queue + Posted(c.cur, c.body, now);
      calls[0] == DoCalled(c.cur)
      && (|calls| == 1 || |calls| == 3)
      && (|calls| == 1 ==> r.cur == c.cur)
      && (|calls| == 3 ==>
            q != [] && calls[1] == ExitCalled(c.cur, q[0]) && calls[2] == EnterCalled(r.cur, q[0]))
  {
  }

  /** update() with nothing queued after do: do is the only call and the only change. */
  lemma TickWithoutEvent(c: Config, table: Table, now: real)
    requires Ready(c, table) && AfterDo(c, now).queue == []
    ensures Tick(c, table, now) == AfterDo(c, now)
    ensures TickCalls(c, table, now) == [DoCalled(c.cur)]
  {
  }

  /** update() on an event no entry of the row accepts: the event is dropped, the state stays. */
  lemma TickDropsEvent(c: Config, table: Table, now: real)
    requires Ready(c, table)
    requires var q := AfterDo(c, now).queue; q != [] && NoMatch(table[c.cur], q[0])
    ensures var d := AfterDo(c, now); Tick(c, table, now) == d.(queue := d.queue[1..])
    ensures TickCalls(c, table, now) == [DoCalled(c.cur)]
  {
  }

  /** update() on an event whose first accepting entry is i: exit, then enter row[i]'s target. */
  lemma TickTakesEntry(c: Config, table: Table, now: real, i: nat)
    requires Ready(c, table)
    requires var q := AfterDo(c, now).queue; q != [] && FirstMatchAt(table[c.cur], q[0], i)
    ensures var d := AfterDo(c, now); var e := d.queue[0]; var t := table[c.cur][i].1;
      Tick(c, table, now) == Config(t, EnterEffect(t, ExitEffect(c.cur, d.body), e, now), d.queue[1..])
      && TickCalls(c, table, now) == [DoCalled(c.cur), ExitCalled(c.cur, e), EnterCalled(t, e)]
  {
    FirstMatchUnique(table[c.cur], AfterDo(c, now).queue[0], i);
  }

  /** update() removes exactly the oldest event, after do has appended what it posts. */
  lemma TickQueue(c: Config, table: Table, now: real)
    requires Ready(c, table)
    ensures var q := c.queue + Posted(c.cur, c.body, now);
      Tick(c, table, now).queue == if q == [] then [] else q[1..]
  {
  }

  /** Only TIME_OUT events are posted by a state. */
  predicate AllTimeOuts(q: seq<Event>) {
    forall k :: 0 <= k < |q| ==> q[k] == TimeOut
  }

  function Min(a: int, b: int): int {
    if a < b then a else b
  }

  /**
   * rq is what a queue q becomes after n ticks that post only TIME_OUTs:
   * the first min(n, |q|) events are gone, the others are still at the head
   * in their order, and everything behind them is a TIME_OUT.
   */
  predicate FifoAfter(q: seq<Event>, rq: seq<Event>, n: nat) {
    var m := Min(n, |q|);
    |q| - m <= |rq| && rq[..|q| - m] == q[m..] && AllTimeOuts(rq[|q| - m..])
  }

  /**
   * The queue is FIFO: n ticks consume the oldest min(n, |queue|) events one
   * per tick, and whatever do posts in the meantime queues behind the rest.
   */
  lemma {:induction false} TicksFifo(c: Config, nows: seq<real>)
    requires Inv(c)
    ensures FifoAfter(c.queue, Ticks(c, nows).queue, |nows|)
    decreases |nows|
  {
    if nows == [] {
      assert Ticks(c, nows).queue == c.queue;
    } else {
      var p := Posted(c.cur, c.body, nows[0]);
      var c1 := TickStep(c, nows);
      TicksFifo(c1, nows[1..]);
      FifoStep(c.queue, p, c1.queue, Ticks(c1, nows[1..]).queue, |nows|);
    }
  }

  /** The first of several ticks, seen from the queue. */
  lemma TickStep(c: Config, nows: seq<real>) returns (c1: Config)
    requires Inv(c) && nows != []
    ensures Inv(c1) && Ticks(c, nows) == Ticks(c1, nows[1..])
    ensures var q := c.queue + Posted(c.cur, c.body, nows[0]);
      c1.queue == if q == [] then [] else q[1..]
  {
    TicksUnfold(c, nows);
    TickQueue(c, Transitions, nows[0]);
    c1 := Tick(c, Transitions, nows[0]);
  }

  /**
   * The induction step of TicksFifo on queues alone: q is the queue before a
   * tick, p what do posts, q1 the queue after it, rq the queue n - 1 ticks later.
   */
  lemma FifoStep(q: seq<Event>, p: seq<Event>, q1: seq<Event>, rq: seq<Event>, n: nat)
    requires n >= 1 && AllTimeOuts(p)
    requires q1 == if q + p == [] then [] else (q + p)[1..]
    requires FifoAfter(q1, rq, n - 1)
    ensures FifoAfter(q, rq, n)
  {
    var m := Min(n, |q|);
    var m1 := Min(n - 1, |q1|);
    if q != [] && m1 == m - 1 {
      assert q1 == q[1..] + p;
      FifoKeepsOriginal(q, p, rq, m);
    } else {
      assert m == |q|;
      assert AllTimeOuts(q1[m1..]) by {
        forall k | m1 <= k < |q1| ensures q1[k] == TimeOut {
          if q != [] {
            assert q1 == q[1..] + p;
            assert q1[k] == p[k - (|q| - 1)];
          } else {
            assert q1[k] == p[k + 1];
          }
        }
      }
      var cut := |q1| - m1;
      forall k | 0 <= k < |rq| ensures rq[k] == TimeOut {
        if k < cut {
          assert rq[k] == rq[..cut][k] == q1[m1..][k];
        } else {
          assert rq[k] == rq[cut..][k - cut];
        }
      }
    }
  }

  /**
   * The case of FifoStep in which the tick consumed an original event: the
   * queue after it is q[1..] + p, and rq starts with what remains of that.
   */
  lemma FifoKeepsOriginal(q: seq<Event>, p: seq<Event>, rq: seq<Event>, m: nat)
    requires 1 <= m <= |q| && AllTimeOuts(p)
    requires |q| - m + |p| <= |rq|
    requires rq[..|q| - m + |p|] == (q[1..] + p)[m - 1..]
    requires AllTimeOuts(rq[|q| - m + |p|..])
    ensures |q| - m <= |rq| && rq[..|q| - m] == q[m..] && AllTimeOuts(rq[|q| - m..])
  {
    var cut := |q| - m;
    assert (q[1..] + p)[m - 1..] == q[m..] + p;
    assert rq[..cut] == rq[..cut + |p|][..cut];
    forall k | cut <= k < |rq| ensures rq[k] == TimeOut {
      if k < cut + |p| {
        assert rq[k] == rq[..cut + |p|][k] == p[k - cut];
      } else {
        assert rq[k] == rq[cut + |p|..][k - cut - |p|];
      }
    }
  }

  /** Adding n frames one at a time is adding n modulo the frame count. */
  lemma FrameShift(f: int, n: nat)
    ensures (NextFrame(f) + n) % FrameCount == (f + 1 + n) % FrameCount
  {
  }

  /**
   * With nothing queued, n ticks in Run move the boy by exactly RunStep * n
   * in its direction, advance the frame by n, and leave it in Run.
   */
  lemma {:induction false} RunCruise(c: Config, nows: seq<real>)
    requires Inv(c) && c.cur == Run && c.queue == []
    ensures Ticks(c, nows)
         == Config(Run, c.body.(x := c.body.x + RunStep * |nows| * c.body.dir,
                               frame := (c.body.frame + |nows|) % FrameCount), [])
    decreases |nows|
  {
    if nows == [] {
      assert c.body.frame % FrameCount == c.body.frame;
    } else {
      var n := |nows|;
      var c1 := RunTick(c, nows);
      RunCruise(c1, nows[1..]);
      FrameShift(c.body.frame, n - 1);
      var dir := c.body.dir;
      assert (c.body.x + dir * RunStep) + RunStep * (n - 1) * dir == c.body.x + RunStep * n * dir by {
        assert dir == 1 || dir == -1;
      }
    }
  }

  /** The first of several ticks in Run with nothing queued. */
  lemma RunTick(c: Config, nows: seq<real>) returns (c1: Config)
    requires Inv(c) && c.cur == Run && c.queue == [] && nows != []
    ensures c1 == Config(Run, c.body.(x := c.body.x + c.body.dir * RunStep,
                                      frame := NextFrame(c.body.frame)), [])
    ensures Inv(c1) && Ticks(c, nows) == Ticks(c1, nows[1..])
  {
    TicksUnfold(c, nows);
    c1 := Tick(c, Transitions, nows[0]);
  }

  /**
   * With nothing queued, n ticks in Idle or Sleep only advance the frame,
   * cycling 0..7; nothing else changes.
   */
  lemma {:induction false} RestFrames(c: Config, nows: seq<real>)
    requires Inv(c) && (c.cur == Idle || c.cur == Sleep) && c.queue == []
    ensures Ticks(c, nows) == c.(body := c.body.(frame := (c.body.frame + |nows|) % FrameCount))
    decreases |nows|
  {
    if nows == [] {
      assert c.body.frame % FrameCount == c.body.frame;
    } else {
      var c1 := Tick(c, Transitions, nows[0]);
      assert c1 == c.(body := c.body.(frame := NextFrame(c.body.frame)));
      RestFrames(c1, nows[1..]);
      FrameShift(c.body.frame, |nows| - 1);
    }
  }

  /** No state moves the boy vertically. */
  lemma {:induction false} HeightFixed(c: Config, nows: seq<real>)
    requires Inv(c)
    ensures Ticks(c, nows).body.y == c.body.y
    decreases |nows|
  {
    if nows != [] {
      TickKeepsInv(c, nows[0]);
      var c1 := Tick(c, Transitions, nows[0]);
      TickDispatch(c, Transitions, nows[0]);
      assert c1.body.y == c.body.y;
      HeightFixed(c1, nows[1..]);
    }
  }

  /**
   * From Idle, an arrow-key edge at the head of the queue enters Run in that
   * tick: right press or left release runs right, left press or right release
   * runs left; the boy has not moved yet, and the rest of the queue waits.
   */
  lemma IdleArrowKey(c: Config, now: real)
    requires Inv(c) && c.cur == Idle && c.queue != []
    requires RightDown(c.queue[0]) || LeftUp(c.queue[0]) || LeftDown(c.queue[0]) || RightUp(c.queue[0])
    ensures var r := Tick(c, Transitions, now);
      r.cur == Run && r.queue == c.queue[1..] && r.body.x == c.body.x
      && (RightDown(c.queue[0]) || LeftUp(c.queue[0]) ==> r.body.dir == 1 && r.body.action == RightAction)
      && (LeftDown(c.queue[0]) || RightUp(c.queue[0]) ==> r.body.dir == -1 && r.body.action == LeftAction)
  {
    var e := c.queue[0];
    var row := Transitions[Idle];
    assert row == [(OnRightDown, Run), (OnLeftDown, Run), (OnLeftUp, Run), (OnRightUp, Run),
                   (OnAutoRunDown, AutoRun), (OnTimeOut, Sleep)];
    var i: nat := if RightDown(e) then 0 else if LeftDown(e) then 1 else if LeftUp(e) then 2 else 3;
    assert FirstMatchAt(row, e, i);
    FirstMatchUnique(row, e, i);
  }

  /** Run.enter on an event that is not an arrow-key edge leaves direction and action as they were. */
  lemma RunEnterOtherEvent(b: Body, e: Event, now: real)
    requires !(RightDown(e) || LeftUp(e) || LeftDown(e) || RightUp(e))
    ensures EnterEffect(Run, b, e, now) == b
  {
  }

  /**
   * AutoRun.do moves first and then turns around iff the new x is past
   * either bound; the direction stays a unit and y does not change.
   */
  lemma AutoRunBounce(b: Body)
    requires Fits(AutoRun, b)
    ensures var r := DoEffect(AutoRun, b);
      r.x == b.x + b.dir * AutoRunSpeed && r.y == b.y
      && (r.dir == 1 || r.dir == -1)
      && (r.dir == -b.dir <==> r.x < LeftBound || r.x > RightBound)
  {
  }

  /** Leaving AutoRun by any transition restores the normal speed and size and keeps the position. */
  lemma AutoRunExitRestores(b: Body)
    requires Fits(AutoRun, b)
    ensures var r := ExitEffect(AutoRun, b);
      r.speed == Some(NormalSpeed) && r.sizeMultiplier == Some(NormalScale)
      && r.x == b.x && r.y == b.y && r.dir == b.dir
  {
  }

  /**
   * Once more than five seconds have passed, AutoRun.do posts a TIME_OUT;
   * with nothing else queued that same update() pops it and returns to Idle
   * at normal speed and size.
   */
  lemma AutoRunTimesOut(c: Config, now: real)
    requires Inv(c) && c.cur == AutoRun && c.queue == []
    requires now - c.body.startTime > AutoRunSeconds
    ensures var r := Tick(c, Transitions, now);
      r.cur == Idle && r.queue == [] && r.body.dir == 0
      && r.body.speed == Some(NormalSpeed) && r.body.sizeMultiplier == Some(NormalScale)
  {
    var row := Transitions[AutoRun];
    assert row == [(OnTimeOut, Idle), (OnRightDown, Run), (OnLeftDown, Run)];
    assert FirstMatchAt(row, TimeOut, 0);
    FirstMatchUnique(row, TimeOut, 0);
  }

  /** Within five seconds and with nothing queued, AutoRun keeps running and posts nothing. */
  lemma AutoRunContinues(c: Config, now: real)
    requires Inv(c) && c.cur == AutoRun && c.queue == []
    requires now - c.body.startTime <= AutoRunSeconds
    ensures Tick(c, Transitions, now) == Config(AutoRun, DoEffect(AutoRun, c.body), [])
  {
  }

  /**
   * A TIME_OUT that AutoRun.do posts behind an older event AutoRun does not
   * handle is posted again on the next tick; the first one consumed returns
   * to Idle and the next one puts the boy to sleep, although Idle itself
   * never times out.
   */
  lemma StaleTimeOutReachesSleep(b: Body, e: Event, t1: real, t2: real, t3: real)
    requires Fits(AutoRun, b) && NoMatch(Transitions[AutoRun], e)
    requires t1 - b.startTime > AutoRunSeconds && t2 - b.startTime > AutoRunSeconds
    ensures var c1 := Tick(Config(AutoRun, b, [e]), Transitions, t1);
      var c2 := Tick(c1, Transitions, t2);
      var c3 := Tick(c2, Transitions, t3);
      c1.cur == AutoRun && c1.queue == [TimeOut]
      && c2.cur == Idle && c2.queue == [TimeOut]
      && c3.cur == Sleep && c3.queue == []
  {
    var c1 := StaleFirstTick(b, e, t1);
    var c2 := StaleSecondTick(c1.body, t2);
    StaleThirdTick(c2.body, t3);
  }

  /** Tick 1: AutoRun.do posts TIME_OUT behind the older event, which AutoRun drops. */
  lemma StaleFirstTick(b: Body, e: Event, now: real) returns (c1: Config)
    requires Fits(AutoRun, b) && NoMatch(Transitions[AutoRun], e)
    requires now - b.startTime > AutoRunSeconds
    ensures c1 == Tick(Config(AutoRun, b, [e]), Transitions, now)
    ensures c1.cur == AutoRun && c1.queue == [TimeOut]
    ensures Fits(AutoRun, c1.body) && c1.body.startTime == b.startTime
  {
    DoFits(AutoRun, b);
    c1 := Config(AutoRun, DoEffect(AutoRun, b), [TimeOut]);
  }

  /** Tick 2: a second TIME_OUT is posted; the first one returns to Idle. */
  lemma StaleSecondTick(b: Body, now: real) returns (c2: Config)
    requires Fits(AutoRun, b) && now - b.startTime > AutoRunSeconds
    ensures c2 == Tick(Config(AutoRun, b, [TimeOut]), Transitions, now)
    ensures c2.cur == Idle && c2.queue == [TimeOut] && Fits(Idle, c2.body)
  {
    var row := Transitions[AutoRun];
    assert row == [(OnTimeOut, Idle), (OnRightDown, Run), (OnLeftDown, Run)];
    assert FirstMatchAt(row, TimeOut, 0);
    FirstMatchUnique(row, TimeOut, 0);
    c2 := Tick(Config(AutoRun, b, [TimeOut]), Transitions, now);
  }

  /** Tick 3: Idle posts nothing, and the stale TIME_OUT puts the boy to sleep. */
  lemma StaleThirdTick(b: Body, now: real)
    requires Fits(Idle, b)
    ensures var c3 := Tick(Config(Idle, b, [TimeOut]), Transitions, now);
      c3.cur == Sleep && c3.queue == []
  {
    var row := Transitions[Idle];
    assert row == [(OnRightDown, Run), (OnLeftDown, Run), (OnLeftUp, Run), (OnRightUp, Run),
                   (OnAutoRunDown, AutoRun), (OnTimeOut, Sleep)];
    assert FirstMatchAt(row, TimeOut, 5);
    FirstMatchUnique(row, TimeOut, 5);
  }
}
