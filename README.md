# Boy animation state machine

A model of the event-driven animation controller of a 2D game character, the
"Boy". `state_machine.py` supplies a small state-machine engine. It classifies
events with predicates, keeps a FIFO event queue and a current state, and on
every `update()` runs the current state's `do`, pops at most one event and takes
the first matching entry of the current state's transition row. `boy.py` supplies
four states (`Idle`, `Sleep`, `Run`, `AutoRun`). Each has `enter`, `exit` and
`do`, which update the Boy's fields in place. It also supplies the transition
table and the `Boy` entity that owns the machine.

Files:

- `wrappers.dfy`: `Option`.
- `events.dfy` (module `Events`): the tagged events, the eight predicates, the
  guards that name them in a transition row, and `FirstMatch`, the first-match
  scan of a row.
- `spec.dfy` (module `Spec`): the states, `Body` (the Boy's fields as a value),
  the effect of each state's `enter`/`exit`/`do` as functions, the transition
  table, and `Tick`, one `update()` as a function of the current state, the
  fields and the queue.
- `machine.dfy` (module `Animation`): the classes `StateMachine` and `Boy`, and the
  states' operations as methods that update a `Boy` in place. Every method is
  proved against the functions of `Spec`. The two classes point at each other
  (`obj` and `stateMachine`), so they share one module. A ghost `calls` field
  records the `do`/`exit`/`enter` calls in order.
- `properties.dfy` (module `Properties`): the reachable-state invariant, repeated
  ticks, FIFO consumption, first-match dispatch, position and frame arithmetic,
  and the AutoRun time-out behaviour.

The clock (`get_time()`) is a `real` parameter `now`, in seconds.

`update()` runs the current state's `do` before it pops an event
(state_machine.py:46, 49). So when `AutoRun.do` posts TIME_OUT onto an otherwise
empty queue, the same `update()` consumes it (`Properties.AutoRunTimesOut`).

## Model

| member | source | states |
|---|---|---|
| Events.StartEvent | state_machine.py:5-6 | `start_event` tests only the tag; an INPUT event never satisfies it |
| Events.TimedOut | state_machine.py:11-12 | `time_out` tests only the tag; an INPUT event never satisfies it |
| Events.SpaceDown | state_machine.py:8-9 | holds only of an INPUT event (never of START or TIME_OUT) |
| Events.RightDown | state_machine.py:14-15 | holds only of an INPUT event |
| Events.RightUp | state_machine.py:17-18 | holds only of an INPUT event |
| Events.LeftDown | state_machine.py:20-21 | holds only of an INPUT event |
| Events.LeftUp | state_machine.py:23-24 | holds only of an INPUT event |
| Events.AutoRunDown | state_machine.py:27-28 | holds only of an INPUT event |
| Events.Holds | state_machine.py:8-28 | any keyboard predicate that holds is looking at a key press or release |
| Events.AtMostOneKeyGuard | state_machine.py:8-28 | the six keyboard predicates test distinct (type, key) pairs, so at most one holds of any event |
| Events.FirstMatch | state_machine.py:57-58 | the row scan finds the first entry whose predicate holds, with no earlier entry holding; it finds none iff no entry holds |
| Events.FirstMatchUnique | state_machine.py:57-64 | an index that is a first match is exactly what the scan returns |
| Spec.NextFrame | boy.py:20 | `(frame + 1) % 8` is always in 0..7, and counts up, wrapping 7 to 0 |
| Spec.EnterEffect | boy.py:8-86 | the `enter` of each state as a new Body; no `enter` moves the boy, the entry time is kept or set to now, and only AutoRun's changes speed and size |
| Spec.ExitEffect | boy.py:15-91 | the `exit` of each state; it changes at most speed and size, and only AutoRun's changes anything |
| Spec.DoEffect | boy.py:19-100 | the field updates of each state's `do`; y, action, entry time, speed and size stay, the frame stays in 0..7, and Idle and Sleep do not move |
| Spec.Posted | boy.py:102-103 | the events a `do` adds to the queue: nothing, or exactly one TIME_OUT, and only AutoRun's adds one |
| Spec.Transitions | boy.py:128-133 | the boy's table: each state's row as (predicate, next state) pairs in the order written |
| Spec.Tick | state_machine.py:45-66 | one `update()`: do, pop the oldest event if any, take the first matching entry (exit, switch, enter); the queue never grows, y never changes, and a new state is a target in the old state's row |
| Spec.TickCalls | state_machine.py:45-66 | the state calls of one `update()`: do first, then nothing or an exit followed by an enter with the same event |
| Animation.IdleEnter | boy.py:8-12 | sets dir 0, frame 0, action 3 (standing) and the entry time; nothing else changes |
| Animation.IdleDo | boy.py:19-20 | only the frame advances |
| Animation.SleepDo | boy.py:36-37 | only the frame advances |
| Animation.RunEnter | boy.py:58-62 | right press or left release gives (dir, action) = (1, 1); left press or right release gives (-1, 0); any other event leaves both unchanged |
| Animation.RunDo | boy.py:69-71 | x moves by exactly dir * 5, y is unchanged, the frame advances |
| Animation.AutoRunEnter | boy.py:81-86 | dir 1, speed 10, size multiplier 2, action 1, entry time recorded |
| Animation.AutoRunExit | boy.py:89-91 | speed back to 5 and size multiplier back to 1; nothing else changes |
| Animation.AutoRunDo | boy.py:94-103 | moves by dir * speed first, then negates dir iff the new x is below 50 or above 750; appends exactly one TIME_OUT to the boy's own machine's queue iff more than 5 seconds have passed since entry, else nothing |
| Animation.Enter | state_machine.py:63 | dispatches `enter` to the current state; its effect is `Spec.EnterEffect` |
| Animation.Exit | state_machine.py:60 | dispatches `exit`; only AutoRun's changes anything |
| Animation.Do | state_machine.py:46 | dispatches `do`; its effect is `Spec.DoEffect` and it appends `Spec.Posted` to the queue |
| Animation.StateMachine.constructor | state_machine.py:32-36 | the machine refers to its object and starts with an empty queue |
| Animation.StateMachine.Start | state_machine.py:39-43 | the current state becomes s and s.enter runs with a START event; no lookup, the queue and table are untouched |
| Animation.StateMachine.Update | state_machine.py:45-66 | the new state, fields and queue are `Tick` of the old ones; the calls made are `TickCalls`: do once, then possibly exit and enter |
| Animation.StateMachine.AddEvent | state_machine.py:72-75 | the event is appended at the tail; earlier events are unchanged |
| Animation.StateMachine.SetTransitions | state_machine.py:77-79 | installs the table |
| Animation.Boy.constructor | boy.py:117-134 | x 400, y 90, frame 0, dir 0, action 3, current state Idle entered via START, empty queue, the table installed; the invariant holds |
| Animation.Boy.Update | boy.py:136-137 | one `Tick` of its machine under the boy's table; the invariant is kept |
| Animation.Boy.HandleEvent | boy.py:139-140 | the raw key event, tagged INPUT, is appended at the tail of the queue |
| Properties.TableComplete | boy.py:127-134 | each of the four states has a row in the table |
| Properties.TableTargets | boy.py:129-132 | every entry leading to Run is guarded by an arrow-key edge, and only Idle leads to Sleep |
| Properties.TransitionFits | boy.py:127-134 | taking any table entry on an event its predicate accepts, exit then enter, yields fields that fit the target state |
| Properties.DoFits | boy.py:19-103 | every state's do keeps the fields fitting that state, with the frame in 0..7 |
| Properties.TickKeepsInv | boy.py:127-134 | one update under the boy's table preserves the invariant: frame in 0..7; Idle and Sleep stand (dir 0, action 3); Run has (1, 1) or (-1, 0); AutoRun has dir in {-1, 1}, speed 10 and size 2; outside AutoRun speed and size are unset or 5 and 1 |
| Properties.Ticks | state_machine.py:45-66 | n successive updates keep the invariant |
| Properties.TickDispatch | state_machine.py:46-66 | with nothing queued after do, nothing but do happens; otherwise the head is removed; an event no entry accepts leaves the state and fields as do left them; otherwise the state becomes the target of the first accepting entry, whose enter runs after the old state's exit |
| Properties.TickCallOrder | state_machine.py:45-66 | do is called exactly once and first; then either no further call, with the state unchanged, or exit of the old state followed by enter of the new state, both with the popped event: at most one transition per update |
| Properties.TickWithoutEvent | state_machine.py:46-48 | with an empty queue after do, update changes nothing more and calls only do |
| Properties.TickDropsEvent | state_machine.py:57-66 | an event no entry accepts is consumed and dropped; state unchanged |
| Properties.TickTakesEntry | state_machine.py:57-64 | on the first accepting entry: exit, swap the state, enter, in that order, with the event |
| Properties.TickQueue | state_machine.py:46-49 | update removes exactly the oldest event of the queue extended by what do posted, keeping the order of the rest |
| Properties.TicksFifo | state_machine.py:49 | after n updates the oldest min(n, length) events are consumed, the others remain at the head in order, and only TIME_OUTs stand behind them |
| Properties.FifoStep | state_machine.py:49 | one step of the FIFO argument, on queues alone |
| Properties.FifoKeepsOriginal | state_machine.py:49 | when a tick consumed an original event, the remaining originals stay at the head in order with only TIME_OUTs behind |
| Properties.RunCruise | boy.py:69-71 | with nothing queued, n updates in Run move x by exactly 5 * n * dir, set the frame to (frame + n) % 8, and stay in Run |
| Properties.RestFrames | boy.py:19-37 | with nothing queued, n updates in Idle or Sleep change only the frame, to (frame + n) % 8 |
| Properties.HeightFixed | boy.py:118 | no sequence of updates changes y |
| Properties.IdleArrowKey | boy.py:129 | from Idle an arrow-key edge at the head of the queue enters Run in the same update, with the direction chosen by Run.enter, the position not yet moved and the rest of the queue waiting |
| Properties.RunEnterOtherEvent | boy.py:58-62 | Run.enter with an event other than an arrow-key edge changes nothing |
| Properties.AutoRunBounce | boy.py:96-100 | AutoRun.do moves by dir * 10, keeps dir in {-1, 1}, and reverses it exactly when the new x is outside 50..750 |
| Properties.AutoRunExitRestores | boy.py:89-91 | leaving AutoRun restores speed 5 and size 1 and keeps position and direction |
| Properties.AutoRunTimesOut | boy.py:102-103 | after more than 5 seconds in AutoRun with an empty queue, the TIME_OUT posted by do is popped in the same update: the boy is back in Idle at speed 5 and size 1 |
| Properties.AutoRunContinues | boy.py:102-103 | within 5 seconds and with an empty queue, AutoRun posts nothing and stays |
| Properties.StaleTimeOutReachesSleep | boy.py:102-103 | for any event AutoRun's row does not handle, queued alone, and any two updates more than 5 seconds after entry: the first leaves AutoRun with [TIME_OUT], the second reaches Idle with another TIME_OUT queued, and any third update puts the boy to Sleep |
| Properties.StaleFirstTick | boy.py:130 | first update of that scenario: TIME_OUT posted, the unhandled event dropped, the entry time kept |
| Properties.StaleSecondTick | boy.py:130 | second update: TIME_OUT leads from AutoRun to Idle, another TIME_OUT is queued |
| Properties.StaleThirdTick | boy.py:129 | third update: the stale TIME_OUT leads from Idle to Sleep |

## Left out

- Drawing: all `draw` methods of the states, `StateMachine.draw` and `Boy.draw`. They are rendering calls with float rotations and scaled sizes. `Sleep.draw` reads `face_dir`, which nothing assigns; the model shows that `dir` is always 0 in Sleep.
- `load_image` is asset I/O and is not modelled. The SDL event objects are reduced to their type (key down, key up, other) and key (right, left, space, a, other); nothing else of them is read.
- The `print` diagnostics have no functional effect. The ghost `calls` trace stands in for the enter/exit messages.
- `get_time()` becomes the `real` parameter `now`. Each `update()` takes one reading, used by both `do` and `enter`; the original reads the clock separately in each. Floating-point rounding of time differences is not modelled.
- Missing transition row: the original raises `KeyError` at `state_machine.py:57`. The model makes it a precondition of `StateMachine.Update` (`Ready`), and `Boy` proves it is always met.
- Calling `update()` before `start()` raises `AttributeError` in the original; the model makes it the ghost precondition `started`. Calling `start()` twice is not checked by the original and is not restricted here.
- `speed` and `size_multiplier` do not exist on a Boy until `AutoRun.enter` first runs. They are `Option<int>`, `None` until then; `AutoRun.do` requires `speed` to be set (`Spec.CanDo`), which the invariant guarantees. `start_time` is likewise assigned first by `Idle.enter` during construction.
- The transition rows are Python dicts, iterated in insertion order with distinct keys. The model uses sequences of (guard, target) pairs in the same order.
