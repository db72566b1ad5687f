/**
 * Events and the event predicates of state_machine.py.
 *
 * An event is the tagged tuple ('START', 0), ('TIME_OUT', 0) or ('INPUT', sdl_event);
 * of an SDL event the predicates read only its type and, for key events, its key.
 */
module Events {
  import opened Wrappers

  /** The type of an SDL event: key press, key release, or anything else. */
  datatype EventType = KeyDown | KeyUp | OtherType

  /** The key of a key event: the four keys the predicates test, or any other. */
  datatype Key = Right | Left | Space | A | OtherKey

  /** A tagged event; Start and TimeOut carry no key data. */
  datatype Event = Start | TimeOut | Input(kind: EventType, key: Key)

  /** The event is an input event of the given type on the given key. */
  predicate KeyEvent(e: Event, kind: EventType, key: Key) {
    e.Input? && e.kind == kind && e.key == key
  }

  /** Only an INPUT event can satisfy a keyboard predicate. */
  predicate NotSynthetic(e: Event) {
    !e.Start? && !e.TimeOut?
  }

  // start_event
  function StartEvent(e: Event): (b: bool)
    ensures b ==> !e.Input?
  {
    e.Start?
  }

  // time_out
  function TimedOut(e: Event): (b: bool)
    ensures b ==> !e.Input?
  {
    e.TimeOut?
  }

  // space_down
  function SpaceDown(e: Event): (b: bool)
    ensures b ==> NotSynthetic(e)
  {
    KeyEvent(e, KeyDown, Space)
  }

  // right_down
  function RightDown(e: Event): (b: bool)
    ensures b ==> NotSynthetic(e)
  {
    KeyEvent(e, KeyDown, Right)
  }

  // right_up
  function RightUp(e: Event): (b: bool)
    ensures b ==> NotSynthetic(e)
  {
    KeyEvent(e, KeyUp, Right)
  }

  // left_down
  function LeftDown(e: Event): (b: bool)
    ensures b ==> NotSynthetic(e)
  {
    KeyEvent(e, KeyDown, Left)
  }

  // left_up
  function LeftUp(e: Event): (b: bool)
    ensures b ==> NotSynthetic(e)
  {
    KeyEvent(e, KeyUp, Left)
  }

  // auto_run_down
  function AutoRunDown(e: Event): (b: bool)
    ensures b ==> NotSynthetic(e)
  {
    KeyEvent(e, KeyDown, A)
  }

  /** The predicates as values, so that a transition row can hold them. */
  datatype Guard =
    | OnStart | OnTimeOut
    | OnSpaceDown | OnRightDown | OnRightUp | OnLeftDown | OnLeftUp | OnAutoRunDown

  /** Applies the predicate a guard names to an event; a keyboard predicate holds only of a key event. */
  function Holds(g: Guard, e: Event): (b: bool)
    ensures b && g in KeyGuards ==> e.Input? && (e.kind == KeyDown || e.kind == KeyUp)
  {
    match g
    case OnStart => StartEvent(e)
    case OnTimeOut => TimedOut(e)
    case OnSpaceDown => SpaceDown(e)
    case OnRightDown => RightDown(e)
    case OnRightUp => RightUp(e)
    case OnLeftDown => LeftDown(e)
    case OnLeftUp => LeftUp(e)
    case OnAutoRunDown => AutoRunDown(e)
  }

  /** The six keyboard predicates. */
  const KeyGuards: set<Guard> :=
    {OnSpaceDown, OnRightDown, OnRightUp, OnLeftDown, OnLeftUp, OnAutoRunDown}

  /** The keyboard predicates that hold of an event. */
  function KeyGuardsHolding(e: Event): set<Guard> {
    set g | g in KeyGuards && Holds(g, e)
  }

  /** The six keyboard predicates test distinct (type, key) pairs: at most one holds of any event. */
  lemma AtMostOneKeyGuard(e: Event)
    ensures |KeyGuardsHolding(e)| <= 1
  {
    var hits := KeyGuardsHolding(e);
    forall g1, g2 | g1 in hits && g2 in hits
      ensures g1 == g2
    {
    }
    if hits != {} {
      var g :| g in hits;
      assert hits == {g};
    }
  }

  /** Entry i is the first entry of the row whose predicate holds of e. */
  predicate FirstMatchAt<S>(row: seq<(Guard, S)>, e: Event, i: nat) {
    i < |row| && Holds(row[i].0, e) && forall j :: 0 <= j < i ==> !Holds(row[j].0, e)
  }

  /** No entry of the row has a predicate that holds of e. */
  predicate NoMatch<S>(row: seq<(Guard, S)>, e: Event) {
    forall j :: 0 <= j < |row| ==> !Holds(row[j].0, e)
  }

  /**
   * The scan of a transition row in declaration order: the index of the
   * first entry whose predicate holds of e, or None when none does.
   */
  function FirstMatch<S>(row: seq<(Guard, S)>, e: Event): (r: Option<nat>)
    ensures r.Some? ==> FirstMatchAt(row, e, r.value)
    ensures r.None? <==> NoMatch(row, e)
  {
    if row == [] then None
    else if Holds(row[0].0, e) then Some(0)
    else
      match FirstMatch(row[1..], e)
      case None => None
      case Some(i) => Some(i + 1)
  }

  /** The first match is unique: whichever index satisfies FirstMatchAt is the one FirstMatch finds. */
  lemma FirstMatchUnique<S>(row: seq<(Guard, S)>, e: Event, i: nat)
    requires FirstMatchAt(row, e, i)
    ensures FirstMatch(row, e) == Some(i)
  {
  }
}
