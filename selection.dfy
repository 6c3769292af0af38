/**
 The click-driven selection state of the `Box` component: `selections`
 (null, the anchor alone, or the two opposing corners) and `hoverPoint`
 (the provisional second corner). Each handler is modelled as one atomic
 update of both fields; the functional updater the source hands to the
 state setter for the second click is a plain append.
 */
module Selection {
  import opened Wrappers
  import opened Grid

  /** The two pieces of component state, as one value. */
  datatype BoxState = BoxState(selections: Option<seq<Point>>, hoverPoint: Option<Point>)

  /** Both pieces of state start out null. */
  const Initial: BoxState := BoxState(None, None)

  /**
   The shapes the state keeps: a selection, when present, holds one or two
   points, and a hover point is only kept while exactly one point is selected.
   */
  predicate Valid(s: BoxState) {
    (s.selections.Some? ==> 1 <= |s.selections.value| <= 2) &&
    (s.hoverPoint.Some? ==> s.selections.Some? && |s.selections.value| == 1)
  }

  /** The state after a click on dot `p`. */
  function MouseDown(s: BoxState, p: Point): BoxState {
    match s.selections
    case None => s.(selections := Some([p]))
    case Some(sel) =>
      if |sel| == 1 then BoxState(Some(sel + [p]), None)
      else if |sel| == 2 then s.(selections := Some([p]))
      else s
  }

  /** The state after the pointer enters dot `p`. */
  function MouseOver(s: BoxState, p: Point): BoxState {
    if s.selections.Some? && |s.selections.value| == 1 then s.(hoverPoint := Some(p))
    else s.(hoverPoint := None)
  }

  /** The pointer events the component reacts to. */
  datatype Event = Click(at: Point) | Hover(at: Point)

  function Apply(s: BoxState, e: Event): BoxState {
    match e
    case Click(p) => MouseDown(s, p)
    case Hover(p) => MouseOver(s, p)
  }

  /** The state after handling `events` one at a time, in order. */
  function Run(s: BoxState, events: seq<Event>): BoxState
    decreases |events|
  {
    if events == [] then s else Run(Apply(s, events[0]), events[1..])
  }

  /** The selection as a rectangle selector describes it, independent of its encoding. */
  datatype SelectionState = Empty | Anchored(anchor: Point) | Committed(first: Point, second: Point)

  /** Reference transition for a click: anchor, then commit, then start over. */
  function Activate(st: SelectionState, p: Point): SelectionState {
    match st
    case Empty => Anchored(p)
    case Anchored(a) => Committed(a, p)
    case Committed(_, _) => Anchored(p)
  }

  /** What a well-shaped `selections` value stands for. */
  function View(s: BoxState): SelectionState
    requires Valid(s)
  {
    match s.selections
    case None => Empty
    case Some(sel) => if |sel| == 1 then Anchored(sel[0]) else Committed(sel[0], sel[1])
  }

  /**
   A click keeps the state well shaped, moves the selection along
   Empty -> Anchored -> Committed -> Anchored, and leaves no hover point
   behind.
   */
  lemma MouseDownRefinesActivate(s: BoxState, p: Point)
    requires Valid(s)
    ensures Valid(MouseDown(s, p))
    ensures View(MouseDown(s, p)) == Activate(View(s), p)
    ensures MouseDown(s, p).hoverPoint == None
  {
  }

  /** The second click is not checked against the anchor: clicking the anchor again commits a zero-area pair. */
  lemma SecondClickOnAnchorCommits(p: Point, h: Option<Point>)
    ensures MouseDown(BoxState(Some([p]), h), p) == BoxState(Some([p, p]), None)
  {
    assert [p] + [p] == [p, p];
  }

  /** A committed pair only arises from a click made while a lone anchor is selected, and keeps that anchor first. */
  lemma CommitOnlyFromAnchor(s: BoxState, p: Point)
    requires Valid(s)
    ensures View(MouseDown(s, p)).Committed? <==> View(s).Anchored?
    ensures View(MouseDown(s, p)).Committed? ==> View(MouseDown(s, p)) == Committed(View(s).anchor, p)
  {
  }

  /**
   Moving the pointer never changes the selection; it records the hover
   point only while a lone anchor is selected and clears it otherwise, in
   which case the well-shaped state had no hover point to clear.
   */
  lemma MouseOverTracksHover(s: BoxState, p: Point)
    requires Valid(s)
    ensures Valid(MouseOver(s, p))
    ensures MouseOver(s, p).selections == s.selections
    ensures MouseOver(s, p).hoverPoint == if View(s).Anchored? then Some(p) else None
    ensures !View(s).Anchored? ==> MouseOver(s, p) == s
  {
  }

  /** Every event keeps the state well shaped. */
  lemma ApplyPreservesValid(s: BoxState, e: Event)
    requires Valid(s)
    ensures Valid(Apply(s, e))
  {
    match e
    case Click(p) => MouseDownRefinesActivate(s, p);
    case Hover(p) => MouseOverTracksHover(s, p);
  }

  /** Any sequence of events keeps a well-shaped state well shaped. */
  lemma {:induction false} RunPreservesValid(s: BoxState, events: seq<Event>)
    requires Valid(s)
    ensures Valid(Run(s, events))
    decreases |events|
  {
    if events != [] {
      ApplyPreservesValid(s, events[0]);
      RunPreservesValid(Apply(s, events[0]), events[1..]);
    }
  }

  /**
   Every state the component can reach from its initial state is well
   shaped: one or two selected points, and a hover point only beside a
   lone anchor.
   */
  lemma ReachableStatesValid(events: seq<Event>)
    ensures Valid(Run(Initial, events))
  {
    RunPreservesValid(Initial, events);
  }

  /** The component's state, held in two mutable fields. */
  class Box {
    var selections: Option<seq<Point>>
    var hoverPoint: Option<Point>

    function State(): BoxState
      reads this
    {
      BoxState(selections, hoverPoint)
    }

    constructor ()
      ensures State() == Initial
    {
      selections := None;
      hoverPoint := None;
    }

    /** Click handler for the dot at (`x`, `y`). */
    method HandleMouseDown(x: int, y: int)
      modifies this
      ensures State() == MouseDown(old(State()), Point(x, y))
      ensures old(Valid(State())) ==> Valid(State()) && View(State()) == Activate(old(View(State())), Point(x, y))
    {
      ghost var before := State();
      if selections.None? {
        selections := Some([Point(x, y)]);
      } else if |selections.value| == 1 {
        selections := Some(selections.value + [Point(x, y)]);
        hoverPoint := None;
      } else if |selections.value| == 2 {
        selections := Some([Point(x, y)]);
      }
      if Valid(before) {
        MouseDownRefinesActivate(before, Point(x, y));
      }
    }

    /** Pointer-enter handler for the dot at (`x`, `y`). */
    method HandleMouseOver(x: int, y: int)
      modifies this
      ensures State() == MouseOver(old(State()), Point(x, y))
      ensures selections == old(selections)
      ensures old(Valid(State())) ==> Valid(State())
    {
      if selections.Some? && |selections.value| == 1 {
        hoverPoint := Some(Point(x, y));
      } else if hoverPoint.Some? {
        hoverPoint := None;
      }
    }
  }

  /** Two clicks commit a pair, a third restarts from a new anchor. */
  method ClickScenario() {
    var box := new Box();
    box.HandleMouseDown(1, 1);
    box.HandleMouseOver(2, 3);
    assert box.hoverPoint == Some(Point(2, 3));
    box.HandleMouseDown(3, 3);
    assert [Point(1, 1)] + [Point(3, 3)] == [Point(1, 1), Point(3, 3)];
    assert box.State() == BoxState(Some([Point(1, 1), Point(3, 3)]), None);
    box.HandleMouseOver(2, 2);
    assert box.hoverPoint == None;
    box.HandleMouseDown(0, 0);
    assert box.State() == BoxState(Some([Point(0, 0)]), None);
  }
}
