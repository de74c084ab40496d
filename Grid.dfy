/** The cell arithmetic of `draw_annotated_grid` (planar_computer_use/pil_utilities.py):
    the argument checks, the min/max normalisation of the target rectangle,
    the degenerate fallback and the row-major list of rounded cell corners.
    The drawing itself (lines, numbers, outline) is not modelled. */
module Grid {
  import opened Errors
  import opened Numeric

  /** A rectangle (x1, y1, x2, y2) in absolute image coordinates. */
  datatype Rect = Rect(x1: int, y1: int, x2: int, y2: int)

  /** The only property of a PIL image the cell arithmetic reads: its size. */
  datatype Image = Image(width: nat, height: nat)

  /** The search area before it is cut into cells: origin and size, as floats. */
  datatype Area = Area(ox: real, oy: real, w: real, h: real)

  function Min(a: int, b: int): int { if a <= b then a else b }
  function Max(a: int, b: int): int { if a <= b then b else a }

  /** Corners put in order: the same two x values and the same two y values,
      smaller first. */
  function Normalise(t: Rect): (n: Rect)
    ensures n.x1 <= n.x2 && n.y1 <= n.y2
    ensures (n.x1, n.x2) == (t.x1, t.x2) || (n.x1, n.x2) == (t.x2, t.x1)
    ensures (n.y1, n.y2) == (t.y1, t.y2) || (n.y1, n.y2) == (t.y2, t.y1)
  {
    Rect(Min(t.x1, t.x2), Min(t.y1, t.y2), Max(t.x1, t.x2), Max(t.y1, t.y2))
  }

  /** The area the grid covers: the whole image, or the normalised target. */
  function SearchArea(img: Image, target: Option<Rect>): (a: Area)
    ensures a.w >= 0.0 && a.h >= 0.0
  {
    match target
    case None => Area(0.0, 0.0, img.width as real, img.height as real)
    case Some(t) =>
      var n := Normalise(t);
      Area(n.x1 as real, n.y1 as real, n.x2 as real - n.x1 as real, n.y2 as real - n.y1 as real)
  }

  /** A target rectangle with no width or no height gets no grid. */
  predicate Degenerate(target: Option<Rect>)
  {
    target.Some? && (Normalise(target.value).x1 == Normalise(target.value).x2
                     || Normalise(target.value).y1 == Normalise(target.value).y2)
  }

  /** The rounded corners of the cell in row r, column c. */
  function Cell(a: Area, rows: nat, cols: nat, r: int, c: int): Rect
    requires rows > 0 && cols > 0
  {
    Rect(Edge(a.ox, a.w, cols, c), Edge(a.oy, a.h, rows, r),
         Edge(a.ox, a.w, cols, c + 1), Edge(a.oy, a.h, rows, r + 1))
  }

  /** The k-th of n equal steps from o across a length w, rounded half to
      even: `round(x_start + k * cell_width)`. */
  function Edge(o: real, w: real, n: nat, k: int): int
    requires n > 0
  {
    Round(o + k as real * (w / n as real))
  }

  /** The cell list `draw_annotated_grid` returns, or the ValueError it raises. */
  function GridCells(img: Image, rows: int, cols: int, target: Option<Rect>): (res: Result<seq<Rect>>)
    ensures res.Ok? <==> rows > 0 && cols > 0
    ensures res.Ok? ==> |res.value| == rows * cols
  {
    if rows <= 0 then Err(ValueError("num_rows must be positive."))
    else if cols <= 0 then Err(ValueError("num_cols must be positive."))
    else if Degenerate(target) then
      var n := Normalise(target.value);
      var coords := Rect(Round(n.x1 as real), Round(n.y1 as real), Round(n.x2 as real), Round(n.y2 as real));
      Ok(seq(rows * cols, _ => coords))
    else
      Ok(Cells(SearchArea(img, target), rows, cols))
  }

  /** Every cell of a rows x cols grid over `a`, row by row. */
  function Cells(a: Area, rows: nat, cols: nat): (cells: seq<Rect>)
    requires rows > 0 && cols > 0
    ensures |cells| == rows * cols
  {
    seq(rows * cols, i requires 0 <= i < rows * cols => Cell(a, rows, cols, i / cols, i % cols))
  }

  /** The coordinate part of `draw_annotated_grid`: the argument checks, then
      the nested row/column loops that append one cell per iteration. */
  method DrawAnnotatedGrid(img: Image, rows: int, cols: int, target: Option<Rect>) returns (res: Result<seq<Rect>>)
    ensures rows <= 0 ==> res == Err(ValueError("num_rows must be positive."))
    ensures rows > 0 && cols <= 0 ==> res == Err(ValueError("num_cols must be positive."))
    ensures res == GridCells(img, rows, cols, target)
  {
    if rows <= 0 {
      return Err(ValueError("num_rows must be positive."));
    }
    if cols <= 0 {
      return Err(ValueError("num_cols must be positive."));
    }
    if Degenerate(target) {
      var n := Normalise(target.value);
      var coords := Rect(Round(n.x1 as real), Round(n.y1 as real), Round(n.x2 as real), Round(n.y2 as real));
      return Ok(seq(rows * cols, _ => coords));
    }
    var a := SearchArea(img, target);
    var cells: seq<Rect> := [];
    for r := 0 to rows
      invariant |cells| == r * cols
      invariant forall i :: 0 <= i < |cells| ==> cells[i] == Cell(a, rows, cols, i / cols, i % cols)
    {
      for c := 0 to cols
        invariant |cells| == r * cols + c
        invariant forall i :: 0 <= i < |cells| ==> cells[i] == Cell(a, rows, cols, i / cols, i % cols)
      {
        DivModOfIndex(r, c, cols);
        cells := cells + [Cell(a, rows, cols, r, c)];
      }
      assert (r + 1) * cols == r * cols + cols;
    }
    assert cells == Cells(a, rows, cols);
    res := Ok(cells);
  }

  lemma DivModOfIndex(r: nat, c: nat, cols: nat)
    requires c < cols
    ensures (r * cols + c) / cols == r && (r * cols + c) % cols == c
  {
    var i := r * cols + c;
    var q, m := i / cols, i % cols;
    assert i == q * cols + m;
    if q > r {
      assert (q - r) * cols == q * cols - r * cols;
      MulLeq(1, q - r, cols);
      assert false;
    } else if q < r {
      assert (r - q) * cols == r * cols - q * cols;
      MulLeq(1, r - q, cols);
      assert false;
    }
  }

  /** The entry at index r * cols + c is the cell in row r, column c. */
  lemma RowMajor(img: Image, rows: nat, cols: nat, target: Option<Rect>, r: nat, c: nat)
    requires r < rows && c < cols && !Degenerate(target)
    ensures r * cols + c < rows * cols
    ensures GridCells(img, rows, cols, target).value[r * cols + c] == Cell(SearchArea(img, target), rows, cols, r, c)
  {
    DivModOfIndex(r, c, cols);
    RowMajorBound(rows, cols, r, c);
  }

  lemma MulLeq(a: nat, b: nat, k: nat)
    requires a <= b
    ensures a * k <= b * k
  {
  }

  /** With the corners of a target listed the other way round, the cells
      are the same. */
  lemma CornerOrderIrrelevant(img: Image, rows: int, cols: int, x1: int, y1: int, x2: int, y2: int)
    ensures GridCells(img, rows, cols, Some(Rect(x2, y1, x1, y2))) == GridCells(img, rows, cols, Some(Rect(x1, y1, x2, y2)))
    ensures GridCells(img, rows, cols, Some(Rect(x1, y2, x2, y1))) == GridCells(img, rows, cols, Some(Rect(x1, y1, x2, y2)))
    ensures GridCells(img, rows, cols, Some(Rect(x2, y2, x1, y1))) == GridCells(img, rows, cols, Some(Rect(x1, y1, x2, y2)))
  {
    var n := Normalise(Rect(x1, y1, x2, y2));
    assert Normalise(Rect(x2, y1, x1, y2)) == n;
    assert Normalise(Rect(x1, y2, x2, y1)) == n;
    assert Normalise(Rect(x2, y2, x1, y1)) == n;
  }

  /** A target with no area yields rows * cols copies of its normalised corners. */
  lemma DegenerateFallback(img: Image, rows: nat, cols: nat, t: Rect, i: nat)
    requires rows > 0 && cols > 0 && Degenerate(Some(t)) && i < rows * cols
    ensures GridCells(img, rows, cols, Some(t)).value[i] == Normalise(t)
  {
    var n := Normalise(t);
    RoundIntegral(n.x1);
    RoundIntegral(n.y1);
    RoundIntegral(n.x2);
    RoundIntegral(n.y2);
  }

  /** Neighbouring cells of a grid (not the degenerate fallback) share their
      edge: the right edge of (r, c) is the left edge of (r, c + 1), the bottom
      edge of (r, c) the top of (r + 1, c). */
  lemma AdjacentCellsShareEdges(img: Image, rows: nat, cols: nat, target: Option<Rect>, r: nat, c: nat)
    requires r < rows && c < cols && !Degenerate(target)
    ensures r * cols + c < rows * cols
    ensures c + 1 < cols ==> (r * cols + c + 1 < rows * cols &&
      GridCells(img, rows, cols, target).value[r * cols + c].x2 == GridCells(img, rows, cols, target).value[r * cols + c + 1].x1)
    ensures r + 1 < rows ==> ((r + 1) * cols + c < rows * cols &&
      GridCells(img, rows, cols, target).value[r * cols + c].y2 == GridCells(img, rows, cols, target).value[(r + 1) * cols + c].y1)
  {
    var a := SearchArea(img, target);
    RowMajor(img, rows, cols, target, r, c);
    CellEdges(a, rows, cols, r, c);
    if c + 1 < cols {
      RowMajor(img, rows, cols, target, r, c + 1);
      assert r * cols + (c + 1) == r * cols + c + 1;
    }
    if r + 1 < rows {
      RowMajor(img, rows, cols, target, r + 1, c);
    }
  }

  lemma CellEdges(a: Area, rows: nat, cols: nat, r: int, c: int)
    requires rows > 0 && cols > 0
    ensures Cell(a, rows, cols, r, c).x2 == Cell(a, rows, cols, r, c + 1).x1
    ensures Cell(a, rows, cols, r, c).y2 == Cell(a, rows, cols, r + 1, c).y1
  {
  }

  lemma RowMajorBound(rows: nat, cols: nat, r: nat, c: nat)
    requires r < rows && c < cols
    ensures r * cols + c < rows * cols
  {
    assert (r + 1) * cols == r * cols + cols;
    MulLeq(r + 1, rows, cols);
  }

  /** The rectangle the cells must stay within: the whole image, or the
      normalised target. */
  function Bounds(img: Image, target: Option<Rect>): Rect
  {
    match target
    case None => Rect(0, 0, img.width, img.height)
    case Some(t) => Normalise(t)
  }

  /** k of n equal steps across a length w stay within [0, w]. */
  lemma StepWithin(k: nat, n: nat, w: real)
    requires 0 < n && k <= n && w >= 0.0
    ensures 0.0 <= k as real * (w / n as real) <= w
  {
    var u := w / n as real;
    assert n as real * u == w;
    assert (n - k) as real * u >= 0.0;
    assert n as real * u - k as real * u == (n - k) as real * u;
  }

  /** The cell index i of a rows x cols grid lies in row i / cols < rows. */
  lemma RowOfIndex(rows: nat, cols: nat, i: nat)
    requires cols > 0 && i < rows * cols
    ensures i / cols < rows && i % cols < cols
  {
    var q := i / cols;
    if q >= rows {
      MulLeq(rows, q, cols);
    }
  }

  /** Rounding keeps a chain of four ordered values ordered. */
  lemma RoundChain(a: real, b: real, c: real, d: real)
    requires a <= b <= c <= d
    ensures Round(a) <= Round(b) <= Round(c) <= Round(d)
  {
    RoundMonotone(a, b);
    RoundMonotone(b, c);
    RoundMonotone(c, d);
  }

  /** Along one axis the k-th of n equal steps from o across w lies between
      o and o + w, before rounding. */
  lemma AxisOrdered(o: real, w: real, n: nat, k: nat)
    requires k < n && w >= 0.0
    ensures o <= o + k as real * (w / n as real) <= o + (k + 1) as real * (w / n as real) <= o + w
  {
    var u := w / n as real;
    StepWithin(k, n, w);
    StepWithin(k + 1, n, w);
    assert (k + 1) as real * u == k as real * u + u;
  }

  /** The same, after rounding each end. */
  lemma AxisWithin(o: real, w: real, n: nat, k: nat)
    requires k < n && w >= 0.0
    ensures Round(o) <= Edge(o, w, n, k) <= Edge(o, w, n, k + 1) <= Round(o + w)
  {
    AxisOrdered(o, w, n, k);
    RoundChain(o, o + k as real * (w / n as real), o + (k + 1) as real * (w / n as real), o + w);
  }

  /** n of n equal steps across w cover exactly w. */
  lemma AxisEnd(o: real, w: real, n: nat)
    requires n > 0
    ensures Edge(o, w, n, 0) == Round(o) && Edge(o, w, n, n) == Round(o + w)
  {
    assert n as real * (w / n as real) == w;
  }

  /** One cell of a proper grid, in terms of the search area. */
  lemma CellWithin(a: Area, rows: nat, cols: nat, r: nat, c: nat)
    requires r < rows && c < cols && a.w >= 0.0 && a.h >= 0.0
    ensures Round(a.ox) <= Cell(a, rows, cols, r, c).x1 <= Cell(a, rows, cols, r, c).x2 <= Round(a.ox + a.w)
    ensures Round(a.oy) <= Cell(a, rows, cols, r, c).y1 <= Cell(a, rows, cols, r, c).y2 <= Round(a.oy + a.h)
  {
    AxisWithin(a.ox, a.w, cols, c);
    AxisWithin(a.oy, a.h, rows, r);
  }

  /** Every cell is well ordered (x1 <= x2, y1 <= y2) and lies within the
      rounded search rectangle. */
  lemma CellInsideBounds(img: Image, rows: nat, cols: nat, target: Option<Rect>, i: nat)
    requires rows > 0 && cols > 0 && i < rows * cols
    ensures var b, cell := Bounds(img, target), GridCells(img, rows, cols, target).value[i];
      b.x1 <= cell.x1 <= cell.x2 <= b.x2 && b.y1 <= cell.y1 <= cell.y2 <= b.y2
  {
    if Degenerate(target) {
      DegenerateFallback(img, rows, cols, target.value, i);
    } else {
      var a := SearchArea(img, target);
      var b := Bounds(img, target);
      RowOfIndex(rows, cols, i);
      CellWithin(a, rows, cols, i / cols, i % cols);
      assert a.ox + a.w == b.x2 as real && a.oy + a.h == b.y2 as real;
      RoundIntegral(b.x1);
      RoundIntegral(b.y1);
      RoundIntegral(b.x2);
      RoundIntegral(b.y2);
    }
  }

  /** Over the whole image the first cell starts at the origin and the last
      cell ends at the image's far corner. */
  lemma WholeImageCorners(img: Image, rows: nat, cols: nat)
    requires rows > 0 && cols > 0
    ensures var cells := GridCells(img, rows, cols, None).value;
      cells[0].x1 == 0 && cells[0].y1 == 0
      && cells[rows * cols - 1].x2 == img.width && cells[rows * cols - 1].y2 == img.height
  {
    var a := SearchArea(img, None);
    RowMajor(img, rows, cols, None, 0, 0);
    RowMajor(img, rows, cols, None, rows - 1, cols - 1);
    assert (rows - 1) * cols + (cols - 1) == rows * cols - 1;
    RoundIntegral(0);
    AxisEnd(0.0, a.w, cols);
    AxisEnd(0.0, a.h, rows);
    RoundIntegral(img.width);
    RoundIntegral(img.height);
  }
}
