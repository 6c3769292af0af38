/**
 The outline drawn around the selection. For every dot (`x`, `y`) the
 component decides whether to draw a half-edge towards its Left, Right,
 Top or Bottom neighbour: the "Con" predicates trace the committed pair,
 the "Hover" predicates trace the preview between the lone anchor and the
 hover point. Both families test the same expression on two points `p0`
 (the first selection) and `p1` (the second selection or the hover
 point); that expression is written once per side as an `...Edge` predicate.
 */
module Outline {
  import opened Wrappers
  import opened Grid
  import opened Selection

  function Min(a: int, b: int): int { if a <= b then a else b }
  function Max(a: int, b: int): int { if a <= b then b else a }

  /** Row `y` is the row of one of the two corners. */
  predicate OnCornerRow(p0: Point, p1: Point, y: int) { y == p0.y || y == p1.y }

  /** Column `x` is the column of one of the two corners. */
  predicate OnCornerColumn(p0: Point, p1: Point, x: int) { x == p0.x || x == p1.x }

  /** Left half-edge at (`x`, `y`): on a corner row, strictly right of the left side, up to the right side. */
  function LeftEdge(p0: Point, p1: Point, x: int, y: int): (r: bool)
    ensures r <==> OnCornerRow(p0, p1, y) && Min(p0.x, p1.x) < x <= Max(p0.x, p1.x)
  {
    (p0.y == y || p1.y == y) &&
    ((p0.y >= y && p1.y <= y) || (p0.y <= y && p1.y >= y)) &&
    ((p0.x >= x && p1.x < x) || (p0.x < x && p1.x >= x))
  }

  /** Right half-edge at (`x`, `y`): on a corner row, from the left side up to strictly left of the right side. */
  function RightEdge(p0: Point, p1: Point, x: int, y: int): (r: bool)
    ensures r <==> OnCornerRow(p0, p1, y) && Min(p0.x, p1.x) <= x < Max(p0.x, p1.x)
  {
    (p0.y == y || p1.y == y) &&
    ((p0.y >= y && p1.y <= y) || (p0.y <= y && p1.y >= y)) &&
    ((p0.x <= x && p1.x > x) || (p0.x > x && p1.x <= x))
  }

  /** Top half-edge at (`x`, `y`): on a corner column, strictly below the top side, down to the bottom side. */
  function TopEdge(p0: Point, p1: Point, x: int, y: int): (r: bool)
    ensures r <==> OnCornerColumn(p0, p1, x) && Min(p0.y, p1.y) < y <= Max(p0.y, p1.y)
  {
    (p0.x == x || p1.x == x) &&
    ((p0.y >= y && p1.y < y) || (p0.y < y && p1.y >= y)) &&
    ((p0.x <= x && p1.x >= x) || (p0.x >= x && p1.x <= x))
  }

  /** Bottom half-edge at (`x`, `y`): on a corner column, from the top side down to strictly above the bottom side. */
  function BottomEdge(p0: Point, p1: Point, x: int, y: int): (r: bool)
    ensures r <==> OnCornerColumn(p0, p1, x) && Min(p0.y, p1.y) <= y < Max(p0.y, p1.y)
  {
    (p0.x == x || p1.x == x) &&
    ((p0.y <= y && p1.y > y) || (p0.y > y && p1.y <= y)) &&
    ((p0.x <= x && p1.x >= x) || (p0.x >= x && p1.x <= x))
  }

  /** The selection holds the committed pair. */
  predicate IsPair(selections: Option<seq<Point>>) {
    selections.Some? && |selections.value| == 2
  }

  /** The selection holds the lone anchor. */
  predicate IsAnchor(selections: Option<seq<Point>>) {
    selections.Some? && |selections.value| == 1
  }

  /** Committed Left connector. */
  function LeftCon(selections: Option<seq<Point>>, x: int, y: int): (r: bool)
    ensures r <==> (IsPair(selections) &&
      OnCornerRow(selections.value[0], selections.value[1], y) &&
      Min(selections.value[0].x, selections.value[1].x) < x <= Max(selections.value[0].x, selections.value[1].x))
  {
    IsPair(selections) && LeftEdge(selections.value[0], selections.value[1], x, y)
  }

  /** Committed Right connector. */
  function RightCon(selections: Option<seq<Point>>, x: int, y: int): (r: bool)
    ensures r <==> (IsPair(selections) &&
      OnCornerRow(selections.value[0], selections.value[1], y) &&
      Min(selections.value[0].x, selections.value[1].x) <= x < Max(selections.value[0].x, selections.value[1].x))
  {
    IsPair(selections) && RightEdge(selections.value[0], selections.value[1], x, y)
  }

  /** Committed Top connector. */
  function TopCon(selections: Option<seq<Point>>, x: int, y: int): (r: bool)
    ensures r <==> (IsPair(selections) &&
      OnCornerColumn(selections.value[0], selections.value[1], x) &&
      Min(selections.value[0].y, selections.value[1].y) < y <= Max(selections.value[0].y, selections.value[1].y))
  {
    IsPair(selections) && TopEdge(selections.value[0], selections.value[1], x, y)
  }

  /** Committed Bottom connector. */
  function BottomCon(selections: Option<seq<Point>>, x: int, y: int): (r: bool)
    ensures r <==> (IsPair(selections) &&
      OnCornerColumn(selections.value[0], selections.value[1], x) &&
      Min(selections.value[0].y, selections.value[1].y) <= y < Max(selections.value[0].y, selections.value[1].y))
  {
    IsPair(selections) && BottomEdge(selections.value[0], selections.value[1], x, y)
  }

  /** Preview Left connector. */
  function LeftHover(selections: Option<seq<Point>>, hoverPoint: Option<Point>, x: int, y: int): (r: bool)
    ensures r <==> (IsAnchor(selections) && hoverPoint.Some? &&
      OnCornerRow(selections.value[0], hoverPoint.value, y) &&
      Min(selections.value[0].x, hoverPoint.value.x) < x <= Max(selections.value[0].x, hoverPoint.value.x))
  {
    IsAnchor(selections) && hoverPoint.Some? && LeftEdge(selections.value[0], hoverPoint.value, x, y)
  }

  /** Preview Right connector. */
  function RightHover(selections: Option<seq<Point>>, hoverPoint: Option<Point>, x: int, y: int): (r: bool)
    ensures r <==> (IsAnchor(selections) && hoverPoint.Some? &&
      OnCornerRow(selections.value[0], hoverPoint.value, y) &&
      Min(selections.value[0].x, hoverPoint.value.x) <= x < Max(selections.value[0].x, hoverPoint.value.x))
  {
    IsAnchor(selections) && hoverPoint.Some? && RightEdge(selections.value[0], hoverPoint.value, x, y)
  }

  /** Preview Top connector. */
  function TopHover(selections: Option<seq<Point>>, hoverPoint: Option<Point>, x: int, y: int): (r: bool)
    ensures r <==> (IsAnchor(selections) && hoverPoint.Some? &&
      OnCornerColumn(selections.value[0], hoverPoint.value, x) &&
      Min(selections.value[0].y, hoverPoint.value.y) < y <= Max(selections.value[0].y, hoverPoint.value.y))
  {
    IsAnchor(selections) && hoverPoint.Some? && TopEdge(selections.value[0], hoverPoint.value, x, y)
  }

  /** Preview Bottom connector. */
  function BottomHover(selections: Option<seq<Point>>, hoverPoint: Option<Point>, x: int, y: int): (r: bool)
    ensures r <==> (IsAnchor(selections) && hoverPoint.Some? &&
      OnCornerColumn(selections.value[0], hoverPoint.value, x) &&
      Min(selections.value[0].y, hoverPoint.value.y) <= y < Max(selections.value[0].y, hoverPoint.value.y))
  {
    IsAnchor(selections) && hoverPoint.Some? && BottomEdge(selections.value[0], hoverPoint.value, x, y)
  }

  /** The dot drawn as the lone anchor. */
  function IsAnchorDot(selections: Option<seq<Point>>, x: int, y: int): (r: bool)
    ensures r <==> selections == Some([Point(x, y)])
  {
    if selections.Some? && |selections.value| == 1 then
      assert selections.value == [selections.value[0]];
      selections.value[0].x == x && selections.value[0].y == y
    else
      false
  }

  /** Swapping the two corners changes no half-edge. */
  lemma EdgesSymmetric(p0: Point, p1: Point, x: int, y: int)
    ensures LeftEdge(p0, p1, x, y) == LeftEdge(p1, p0, x, y)
    ensures RightEdge(p0, p1, x, y) == RightEdge(p1, p0, x, y)
    ensures TopEdge(p0, p1, x, y) == TopEdge(p1, p0, x, y)
    ensures BottomEdge(p0, p1, x, y) == BottomEdge(p1, p0, x, y)
  {
  }

  /**
   The outline has no gaps: a dot has a Right half-edge exactly when its
   right neighbour has a Left one, and a Bottom half-edge exactly when the
   dot below has a Top one.
   */
  lemma EdgesContinuous(p0: Point, p1: Point, x: int, y: int)
    ensures RightEdge(p0, p1, x, y) <==> LeftEdge(p0, p1, x + 1, y)
    ensures BottomEdge(p0, p1, x, y) <==> TopEdge(p0, p1, x, y + 1)
  {
  }

  /** Two equal corners span no half-edge anywhere. */
  lemma DegeneratePairHasNoEdges(p: Point, x: int, y: int)
    ensures !LeftEdge(p, p, x, y) && !RightEdge(p, p, x, y)
    ensures !TopEdge(p, p, x, y) && !BottomEdge(p, p, x, y)
  {
  }

  /** Swapping the committed corners changes no committed connector. */
  lemma ConSymmetric(a: Point, b: Point, x: int, y: int)
    ensures LeftCon(Some([a, b]), x, y) == LeftCon(Some([b, a]), x, y)
    ensures RightCon(Some([a, b]), x, y) == RightCon(Some([b, a]), x, y)
    ensures TopCon(Some([a, b]), x, y) == TopCon(Some([b, a]), x, y)
    ensures BottomCon(Some([a, b]), x, y) == BottomCon(Some([b, a]), x, y)
  {
  }

  /** The committed outline pairs Right with Left and Bottom with Top across neighbouring dots. */
  lemma ConContinuous(selections: Option<seq<Point>>, x: int, y: int)
    ensures RightCon(selections, x, y) <==> LeftCon(selections, x + 1, y)
    ensures BottomCon(selections, x, y) <==> TopCon(selections, x, y + 1)
  {
  }

  /**
   A preview connector is the committed connector the component would draw
   if the hover point were committed as the second corner.
   */
  lemma HoverIsPreviewOfCon(selections: Option<seq<Point>>, hoverPoint: Option<Point>, x: int, y: int)
    requires IsAnchor(selections) && hoverPoint.Some?
    ensures LeftHover(selections, hoverPoint, x, y) == LeftCon(Some([selections.value[0], hoverPoint.value]), x, y)
    ensures RightHover(selections, hoverPoint, x, y) == RightCon(Some([selections.value[0], hoverPoint.value]), x, y)
    ensures TopHover(selections, hoverPoint, x, y) == TopCon(Some([selections.value[0], hoverPoint.value]), x, y)
    ensures BottomHover(selections, hoverPoint, x, y) == BottomCon(Some([selections.value[0], hoverPoint.value]), x, y)
  {
  }

  /** Some committed connector is drawn at (`x`, `y`). */
  predicate AnyCon(selections: Option<seq<Point>>, x: int, y: int) {
    LeftCon(selections, x, y) || RightCon(selections, x, y) || TopCon(selections, x, y) || BottomCon(selections, x, y)
  }

  /** Some preview connector is drawn at (`x`, `y`). */
  predicate AnyHover(selections: Option<seq<Point>>, hoverPoint: Option<Point>, x: int, y: int) {
    LeftHover(selections, hoverPoint, x, y) || RightHover(selections, hoverPoint, x, y) ||
    TopHover(selections, hoverPoint, x, y) || BottomHover(selections, hoverPoint, x, y)
  }

  /** The committed outline and the preview are never both on screen. */
  lemma ConAndHoverExclusive(selections: Option<seq<Point>>, hoverPoint: Option<Point>, x: int, y: int, x': int, y': int)
    ensures !(AnyCon(selections, x, y) && AnyHover(selections, hoverPoint, x', y'))
  {
  }

  /**
   In a reachable state the committed outline belongs to a committed
   selection, the preview to an anchor with a hover point, and with
   neither nothing is drawn.
   */
  lemma OutlineFollowsSelection(s: BoxState, x: int, y: int)
    requires Valid(s)
    ensures AnyCon(s.selections, x, y) ==> View(s).Committed?
    ensures AnyHover(s.selections, s.hoverPoint, x, y) ==> View(s).Anchored? && s.hoverPoint.Some?
    ensures View(s).Empty? || (View(s).Anchored? && s.hoverPoint.None?) ==>
      !AnyCon(s.selections, x, y) && !AnyHover(s.selections, s.hoverPoint, x, y)
  {
  }

  /** The anchor marker sits exactly on the lone anchor, and nowhere once a pair is committed. */
  lemma AnchorDotMarksAnchor(s: BoxState, x: int, y: int)
    requires Valid(s)
    ensures IsAnchorDot(s.selections, x, y) <==> View(s) == Anchored(Point(x, y))
  {
  }

  function Count(b: bool): nat { if b then 1 else 0 }

  /** How many half-edges of the rectangle spanned by `p0` and `p1` meet at (`x`, `y`). */
  function EdgeCount(p0: Point, p1: Point, x: int, y: int): nat {
    Count(LeftEdge(p0, p1, x, y)) + Count(RightEdge(p0, p1, x, y)) +
    Count(TopEdge(p0, p1, x, y)) + Count(BottomEdge(p0, p1, x, y))
  }

  /** (`x`, `y`) lies on the perimeter of the rectangle spanned by `p0` and `p1`. */
  predicate OnPerimeter(p0: Point, p1: Point, x: int, y: int) {
    (OnCornerRow(p0, p1, y) && Min(p0.x, p1.x) <= x <= Max(p0.x, p1.x)) ||
    (OnCornerColumn(p0, p1, x) && Min(p0.y, p1.y) <= y <= Max(p0.y, p1.y))
  }

  /**
   The outline of a rectangle with non-zero width and height is a closed
   loop: every dot of its perimeter, corners included, has exactly two
   half-edges and every other dot has none.
   */
  lemma OutlineClosed(p0: Point, p1: Point, x: int, y: int)
    requires p0.x != p1.x && p0.y != p1.y
    ensures EdgeCount(p0, p1, x, y) == if OnPerimeter(p0, p1, x, y) then 2 else 0
  {
  }
}
