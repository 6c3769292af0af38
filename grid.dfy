/**
 The grid of dots the component renders: `horizontalDots` columns by
 `verticalDots` rows, laid out row by row. The component enumerates the
 cells of an array of `verticalDots * horizontalDots` entries and turns
 the index of each into the column and row of its dot.
 */
module Grid {

  /** A dot of the grid: column `x` and row `y` (row 0 is the top row). */
  datatype Point = Point(x: int, y: int)

  /** True when `p` is one of the dots of a `columns` by `rows` grid. */
  predicate InGrid(columns: nat, rows: nat, p: Point) {
    0 <= p.x < columns && 0 <= p.y < rows
  }

  /** The row-major index of dot `p` on a grid `columns` dots wide. */
  function IndexOf(columns: nat, p: Point): int {
    p.y * columns + p.x
  }

  /**
   The dot the `i`-th cell stands for: column `i % columns`, row
   `floor(i / columns)`. For `i >= 0` and `columns > 0` the source's `%`
   and `Math.floor(i / columns)` coincide with Dafny's Euclidean `%` and `/`.
   */
  function DotAt(columns: nat, i: nat): (p: Point)
    requires columns > 0
    ensures 0 <= p.x < columns && 0 <= p.y
    ensures IndexOf(columns, p) == i
  {
    Point(i % columns, i / columns)
  }

  /** The dots in the order they are rendered, one per cell. */
  function Dots(columns: nat, rows: nat): (ds: seq<Point>)
    ensures |ds| == rows * columns
    ensures forall i :: 0 <= i < |ds| ==> 0 <= ds[i].x < columns
    ensures forall i :: 0 <= i < |ds| ==> IndexOf(columns, ds[i]) == i
  {
    seq(rows * columns, i requires 0 <= i < rows * columns => DotAt(columns, i))
  }

  lemma MulMonotonic(a: int, b: int, c: nat)
    requires a <= b
    ensures a * c <= b * c
  {
  }

  /** Two dots of one grid width never share an index. */
  lemma IndexInjective(columns: nat, p: Point, q: Point)
    requires 0 <= p.x < columns && 0 <= q.x < columns
    requires IndexOf(columns, p) == IndexOf(columns, q)
    ensures p == q
  {
    if p.y < q.y {
      MulMonotonic(p.y + 1, q.y, columns);
      assert false;
    } else if q.y < p.y {
      MulMonotonic(q.y + 1, p.y, columns);
      assert false;
    }
  }

  /** The index of a dot maps back to that dot. */
  lemma DotAtIndexOf(columns: nat, p: Point)
    requires 0 <= p.x < columns && 0 <= p.y
    ensures IndexOf(columns, p) >= 0
    ensures DotAt(columns, IndexOf(columns, p)) == p
  {
    MulMonotonic(0, p.y, columns);
    IndexInjective(columns, DotAt(columns, IndexOf(columns, p)), p);
  }

  /** Every index below `rows * columns` names a dot of the grid. */
  lemma DotAtInGrid(columns: nat, rows: nat, i: nat)
    requires i < rows * columns
    ensures columns > 0 && InGrid(columns, rows, DotAt(columns, i))
  {
  }

  /** A dot of the grid has an index below `rows * columns`. */
  lemma IndexOfInRange(columns: nat, rows: nat, p: Point)
    requires InGrid(columns, rows, p)
    ensures 0 <= IndexOf(columns, p) < rows * columns
  {
    MulMonotonic(0, p.y, columns);
    MulMonotonic(p.y + 1, rows, columns);
  }

  /**
   The rendered dots are `rows * columns` distinct dots, and they are
   exactly the dots of the grid.
   */
  lemma DotsEnumerateGrid(columns: nat, rows: nat)
    ensures |Dots(columns, rows)| == rows * columns
    ensures forall i, j :: 0 <= i < j < |Dots(columns, rows)| ==> Dots(columns, rows)[i] != Dots(columns, rows)[j]
    ensures forall p :: p in Dots(columns, rows) <==> InGrid(columns, rows, p)
  {
    var ds := Dots(columns, rows);
    forall p | p in ds ensures InGrid(columns, rows, p) {
      var i :| 0 <= i < |ds| && ds[i] == p;
      DotAtInGrid(columns, rows, i);
    }
    forall p | InGrid(columns, rows, p) ensures p in ds {
      IndexOfInRange(columns, rows, p);
      DotAtIndexOf(columns, p);
      assert ds[IndexOf(columns, p)] == p;
    }
  }
}
