# Rectangle selector: selection state and outline

A Dafny model of the `Box` component of react-rectangle-selector
(`src/Box.tsx`). The component shows a grid of dots. A user picks a
rectangle by clicking two opposite corners. The component draws the
rectangle's outline as half-edges between neighbouring dots. While only
the first corner (the anchor) is chosen, it draws a preview towards the
dot under the pointer (the hover point).

The model has four modules:

- `Wrappers` (`wrappers.dfy`): `Option`, standing for the source's `T | null`.
- `Grid` (`grid.dfy`): the dot `Point` and the mapping from cell index to
  dot in the rendering loop. The model proves that this mapping enumerates
  every dot of the grid exactly once, in row-major order.
- `Selection` (`selection.dfy`): the component state `selections` and
  `hoverPoint`.
  - Class `Box` holds the two fields. Its methods `HandleMouseDown` and
    `HandleMouseOver` keep the branches of the source handlers.
  - Pure functions `MouseDown` and `MouseOver` state the effect of each
    method on the state value, and the lemmas use them.
  - `SelectionState` (`Empty | Anchored | Committed`) and the reference
    transition `Activate` describe the selection apart from its encoding.
    `View` maps a well-shaped state to that description.
  - `Run` folds a sequence of events over the state. It is used to prove
    that every reachable state is well shaped.
- `Outline` (`outline.dfy`): the eight `shouldHave*` predicates and the
  anchor-dot test. The committed and the hover predicates test one shared
  expression on two points. That expression is written once per side, as
  `LeftEdge`, `RightEdge`, `TopEdge` and `BottomEdge`.
  - Each predicate's contract gives the min/max interval form of its test.
  - Lemmas prove symmetry, continuity, closure, the link between preview
    and committed outline, and that the two never appear together.

Coordinates are unbounded integers. The model takes each grid dimension as
a `nat`. The cell index is then non-negative and, whenever a cell exists, the
width is positive; for such operands the source's `%` and `Math.floor(i / h)`
agree with Dafny's Euclidean `%` and `/`.

## Model

| member | source | states |
|---|---|---|
| `Grid.DotAt` | src/Box.tsx:148-151 | the dot for cell `i` has column in `[0, columns)`, a non-negative row, and row-major index `row * columns + column == i` |
| `Grid.Dots` | src/Box.tsx:148-151 | one dot per cell of the `verticalDots * horizontalDots` array; the dot at position `i` has its column in `[0, columns)` and row-major index `i` |
| `Grid.IndexInjective` | src/Box.tsx:148-151 | two dots whose columns lie in `[0, columns)` and whose row-major indices agree are the same dot |
| `Grid.DotAtIndexOf` | src/Box.tsx:148-151 | mapping a dot to its index and back gives the same dot |
| `Grid.DotAtInGrid` | src/Box.tsx:148-151 | every index below `rows * columns` maps to a dot inside the grid (so the width is positive) |
| `Grid.IndexOfInRange` | src/Box.tsx:148-151 | every dot of the grid has an index in `[0, rows * columns)` |
| `Grid.DotsEnumerateGrid` | src/Box.tsx:148-151 | the rendered dots are `rows * columns` pairwise distinct dots, and a dot is rendered iff it lies in the grid |
| `Selection.Box.constructor` | src/Box.tsx:16-17 | both `selections` and `hoverPoint` start out null |
| `Selection.Box.HandleMouseDown` | src/Box.tsx:19-42 | the new fields are `MouseDown` of the old ones; from a well-shaped state the result is well shaped and moves the selection as `Activate` does |
| `Selection.Box.HandleMouseOver` | src/Box.tsx:44-52 | the new fields are `MouseOver` of the old ones; `selections` is unchanged and a well-shaped state stays well shaped |
| `Selection.MouseDownRefinesActivate` | src/Box.tsx:29-41 | a click goes from nothing to an anchor, from an anchor to the committed pair (anchor first), and from a pair to a new anchor; the result is well shaped and has no hover point |
| `Selection.SecondClickOnAnchorCommits` | src/Box.tsx:33-36 | there is no non-degeneracy check: clicking the anchor again commits `[p, p]` and clears the hover point |
| `Selection.CommitOnlyFromAnchor` | src/Box.tsx:29-41 | a click commits a pair iff a lone anchor was selected, and the pair is (anchor, clicked dot) |
| `Selection.MouseOverTracksHover` | src/Box.tsx:44-52 | pointer movement never changes the selection; the hover point becomes the dot iff a lone anchor is selected and is null otherwise; outside the anchored state a well-shaped state is left as it was |
| `Selection.ApplyPreservesValid` | src/Box.tsx:15-17 | each click or pointer event keeps the state well shaped: one or two points selected, hover only beside a lone anchor |
| `Selection.RunPreservesValid` | src/Box.tsx:15-17 | any sequence of events keeps a well-shaped state well shaped |
| `Selection.ReachableStatesValid` | src/Box.tsx:15-17 | every state reached from the initial null/null state is well shaped: one or two points selected, a hover point only beside a lone anchor |
| `Outline.LeftEdge` | src/Box.tsx:62-69 | Left half-edge iff `y` is a corner row and `min x < x <= max x` |
| `Outline.RightEdge` | src/Box.tsx:71-78 | Right half-edge iff `y` is a corner row and `min x <= x < max x` |
| `Outline.TopEdge` | src/Box.tsx:80-87 | Top half-edge iff `x` is a corner column and `min y < y <= max y` |
| `Outline.BottomEdge` | src/Box.tsx:89-96 | Bottom half-edge iff `x` is a corner column and `min y <= y < max y` |
| `Outline.LeftCon` | src/Box.tsx:62-69 | committed Left connector iff two points are selected, `y` is one of their rows and `min x < x <= max x` |
| `Outline.RightCon` | src/Box.tsx:71-78 | committed Right connector iff two points are selected, `y` is one of their rows and `min x <= x < max x` |
| `Outline.TopCon` | src/Box.tsx:80-87 | committed Top connector iff two points are selected, `x` is one of their columns and `min y < y <= max y` |
| `Outline.BottomCon` | src/Box.tsx:89-96 | committed Bottom connector iff two points are selected, `x` is one of their columns and `min y <= y < max y` |
| `Outline.LeftHover` | src/Box.tsx:100-108 | preview Left connector iff one point is selected, a hover point exists, and the Left interval condition holds for (anchor, hover) |
| `Outline.RightHover` | src/Box.tsx:110-118 | preview Right connector iff one point is selected, a hover point exists, and the Right interval condition holds for (anchor, hover) |
| `Outline.TopHover` | src/Box.tsx:120-128 | preview Top connector iff one point is selected, a hover point exists, and the Top interval condition holds for (anchor, hover) |
| `Outline.BottomHover` | src/Box.tsx:130-138 | preview Bottom connector iff one point is selected, a hover point exists, and the Bottom interval condition holds for (anchor, hover) |
| `Outline.IsAnchorDot` | src/Box.tsx:166-172 | a dot is marked iff the selection is exactly that one dot |
| `Outline.EdgesSymmetric` | src/Box.tsx:62-96 | swapping the two corners changes none of the four half-edges |
| `Outline.EdgesContinuous` | src/Box.tsx:62-96 | Right at `(x, y)` iff Left at `(x+1, y)`; Bottom at `(x, y)` iff Top at `(x, y+1)` |
| `Outline.DegeneratePairHasNoEdges` | src/Box.tsx:62-96 | two equal corners produce no half-edge at any dot |
| `Outline.ConSymmetric` | src/Box.tsx:62-96 | committing `[a, b]` or `[b, a]` draws the same committed connectors |
| `Outline.ConContinuous` | src/Box.tsx:62-96 | committed Right and Left pair up across horizontal neighbours, and Bottom and Top across vertical ones |
| `Outline.HoverIsPreviewOfCon` | src/Box.tsx:100-138 | with a lone anchor and a hover point, each preview connector equals the committed connector for the pair `[anchor, hover]` |
| `Outline.ConAndHoverExclusive` | src/Box.tsx:62-138 | no committed connector and preview connector are ever drawn at the same time, at any two dots |
| `Outline.OutlineFollowsSelection` | src/Box.tsx:62-138 | in a well-shaped state, committed connectors imply a committed pair; preview connectors imply an anchor with a hover point; with neither, nothing is drawn |
| `Outline.AnchorDotMarksAnchor` | src/Box.tsx:166-172 | in a well-shaped state a dot is marked iff the selection is anchored at that dot |
| `Outline.OutlineClosed` | src/Box.tsx:62-96 | for corners differing in both coordinates, every perimeter dot (corners included) has exactly two half-edges and every other dot none |

## Left out

- `src/App.tsx` is not part of this model. It only hosts an 8 by 8 grid and logs the selection.
- Rendering is not modelled: the JSX, class names, grid-template styles and `e.persist()` (src/Box.tsx:28, 140-212), except the index-to-dot mapping (148-151) and the anchor-dot test (166-172). The model keeps only the predicates the rendering evaluates.
- The `useEffect` that passes `selections` unchanged to `onSelectionsChange` (src/Box.tsx:55-59) is left out. When it fires depends on React's scheduling and on the `props` dependency.
- React's batched, asynchronous state updates are not modelled. Each handler is one atomic update. The functional updater in the second-click branch is a plain append.
- The component has only a click handler and a mouse-over handler; neither checks its coordinates, and nothing checks that the grid dimensions are positive. A grid with zero columns or rows renders no dots (`Grid.Dots` is empty).
- Grid dimensions are taken as `nat`, and `Grid.Dots` returns `rows * columns` dots for every pair of them. Two behaviours of the source are not captured. (1) When the product is a valid array length but a dimension is negative or fractional, the dots need not form a `columns` by `rows` grid of whole, non-negative coordinates: with -3 columns by -2 rows, `Math.floor(i / -3)` gives rows 0, -1 and -2 (the column `i % -3` stays non-negative, since the index is non-negative); with 2.5 columns by 2 rows, the columns are 0, 1, 2, 0.5 and 1.5; with 2 columns by 2.5 rows, five whole-number dots fill rows 0 and 1 and one dot of row 2. (2) When the product is negative, fractional, or 2^32 or more (a 65536 by 65536 grid, say), `Array(n)` throws a RangeError and no dot is drawn.
