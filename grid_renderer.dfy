/**
 * Grid overlay and cell numbering (add_grid_and_numbers in pindoudou.py).
 * Drawing on the image is modelled by recording each draw call, in order,
 * on a canvas object; glyphs and pixels are not modelled.
 */
module GridRenderer {
  import opened Palette

  /** One recorded draw call: an outlined rectangle, or a text label at an anchor. */
  datatype DrawCommand =
    | Rectangle(left: int, top: int, right: int, bottom: int, outline: Rgb)
    | Text(x: int, y: int, number: nat, fill: Rgb)

  /** An image being drawn on: its size and the draw calls made on it so far. */
  class Canvas {
    const width: nat
    const height: nat
    var commands: seq<DrawCommand>

    constructor (width: nat, height: nat)
      ensures this.width == width && this.height == height
      ensures commands == []
    {
      this.width := width;
      this.height := height;
      commands := [];
    }

    method DrawRectangle(left: int, top: int, right: int, bottom: int, outline: Rgb)
      modifies this
      ensures commands == old(commands) + [Rectangle(left, top, right, bottom, outline)]
    {
      commands := commands + [Rectangle(left, top, right, bottom, outline)];
    }

    method DrawText(x: int, y: int, number: nat, fill: Rgb)
      modifies this
      ensures commands == old(commands) + [Text(x, y, number, fill)]
    {
      commands := commands + [Text(x, y, number, fill)];
    }
  }

  /**
   * The canvas the grid is drawn on: the layout image enlarged so that each
   * of the rows x cols cells is cellSize pixels square.
   */
  method UpscaledCanvas(rows: nat, cols: nat, cellSize: nat) returns (image: Canvas)
    ensures fresh(image)
    ensures image.width == cols * cellSize && image.height == rows * cellSize
    ensures image.commands == []
  {
    image := new Canvas(cols * cellSize, rows * cellSize);
  }

  /**
   * The two calls made for cell (i, j): its black outline, a cellSize square,
   * then its black number, anchored 2 pixels right of and below the
   * outline's top-left corner.
   */
  function CellCommands(i: nat, j: nat, cols: nat, cellSize: nat): seq<DrawCommand>
  {
    var left := j * cellSize;
    var top := i * cellSize;
    [Rectangle(left, top, left + cellSize, top + cellSize, Black),
     Text(left + 2, top + 2, i * cols + j + 1, Black)]
  }

  /** The calls made for the first n cells of row i. */
  function RowCommands(i: nat, n: nat, cols: nat, cellSize: nat): seq<DrawCommand>
  {
    if n == 0 then [] else RowCommands(i, n - 1, cols, cellSize) + CellCommands(i, n - 1, cols, cellSize)
  }

  /** The calls made for the first rows rows of a grid with cols columns. */
  function GridCommands(rows: nat, cols: nat, cellSize: nat): seq<DrawCommand>
  {
    if rows == 0 then [] else GridCommands(rows - 1, cols, cellSize) + RowCommands(rows - 1, cols, cols, cellSize)
  }

  /**
   * Walks the rows and, inside each row, the columns, drawing every cell's
   * outline and then its row-major number; the calls are appended to the
   * ones the canvas already had.
   */
  method AddGridAndNumbers(image: Canvas, rows: nat, cols: nat, cellSize: nat)
    modifies image
    ensures image.commands == old(image.commands) + GridCommands(rows, cols, cellSize)
  {
    var i := 0;
    while i < rows
      invariant 0 <= i <= rows
      invariant image.commands == old(image.commands) + GridCommands(i, cols, cellSize)
    {
      ghost var rowStart := image.commands;
      var j := 0;
      while j < cols
        invariant 0 <= j <= cols
        invariant image.commands == rowStart + RowCommands(i, j, cols, cellSize)
      {
        var left := j * cellSize;
        var top := i * cellSize;
        var right := left + cellSize;
        var bottom := top + cellSize;
        image.DrawRectangle(left, top, right, bottom, Black);
        var number := i * cols + j + 1;
        image.DrawText(left + 2, top + 2, number, Black);
        AppendAssoc(rowStart, RowCommands(i, j, cols, cellSize), CellCommands(i, j, cols, cellSize));
        j := j + 1;
      }
      AppendAssoc(old(image.commands), GridCommands(i, cols, cellSize), RowCommands(i, cols, cols, cellSize));
      i := i + 1;
    }
  }

  lemma AppendAssoc(a: seq<DrawCommand>, b: seq<DrawCommand>, c: seq<DrawCommand>)
    ensures a + b + c == a + (b + c)
  {
  }

  // ---------------------------------------------------------------------
  // Arithmetic helpers
  // ---------------------------------------------------------------------

  lemma MulSucc(a: int, b: int)
    ensures (a + 1) * b == a * b + b
  {
  }

  lemma MulMonotone(a: int, b: int, c: nat)
    requires a <= b
    ensures a * c <= b * c
  {
  }

  /** Quotient and remainder by a positive number are determined by bounds. */
  lemma DivisionUnique(x: int, q: int, d: int)
    requires d > 0 && q * d <= x < q * d + d
    ensures x / d == q
  {
    var q' := x / d;
    if q' < q {
      MulMonotone(q' + 1, q, d);
      MulSucc(q', d);
    } else if q' > q {
      MulMonotone(q + 1, q', d);
      MulSucc(q, d);
    }
  }

  // ---------------------------------------------------------------------
  // Where each cell's calls sit, and what they are
  // ---------------------------------------------------------------------

  lemma {:induction false} RowCommandsAt(i: nat, n: nat, cols: nat, cellSize: nat, j: nat)
    requires j < n
    ensures |RowCommands(i, n, cols, cellSize)| == 2 * n
    ensures RowCommands(i, n, cols, cellSize)[2 * j] == CellCommands(i, j, cols, cellSize)[0]
    ensures RowCommands(i, n, cols, cellSize)[2 * j + 1] == CellCommands(i, j, cols, cellSize)[1]
    decreases n
  {
    if j < n - 1 {
      RowCommandsAt(i, n - 1, cols, cellSize, j);
    } else if n > 1 {
      RowCommandsAt(i, n - 1, cols, cellSize, 0);
    }
  }

  lemma {:induction false} GridCommandsLength(rows: nat, cols: nat, cellSize: nat)
    ensures |GridCommands(rows, cols, cellSize)| == 2 * (rows * cols)
    decreases rows
  {
    if rows > 0 {
      GridCommandsLength(rows - 1, cols, cellSize);
      if cols > 0 {
        RowCommandsAt(rows - 1, cols, cols, cellSize, 0);
      }
      MulSucc(rows - 1, cols);
    }
  }

  /** The calls of the first rows rows are those of the first rows - 1 rows followed by the last row's. */
  lemma GridCommandsSplit(rows: nat, cols: nat, cellSize: nat)
    requires rows > 0
    ensures GridCommands(rows, cols, cellSize)
            == GridCommands(rows - 1, cols, cellSize) + RowCommands(rows - 1, cols, cols, cellSize)
    ensures |GridCommands(rows - 1, cols, cellSize)| == 2 * ((rows - 1) * cols)
  {
    GridCommandsLength(rows - 1, cols, cellSize);
  }

  /** Cell (i, j)'s two calls sit at indices 2(i*cols + j) and 2(i*cols + j) + 1. */
  lemma {:induction false} GridCommandsAtCell(rows: nat, cols: nat, cellSize: nat, i: nat, j: nat)
    requires i < rows && j < cols
    ensures |GridCommands(rows, cols, cellSize)| == 2 * (rows * cols)
    ensures 2 * (i * cols + j) + 1 < |GridCommands(rows, cols, cellSize)|
    ensures GridCommands(rows, cols, cellSize)[2 * (i * cols + j)] == CellCommands(i, j, cols, cellSize)[0]
    ensures GridCommands(rows, cols, cellSize)[2 * (i * cols + j) + 1] == CellCommands(i, j, cols, cellSize)[1]
    decreases rows
  {
    GridCommandsSplit(rows, cols, cellSize);
    GridCommandsLength(rows, cols, cellSize);
    var before := GridCommands(rows - 1, cols, cellSize);
    var last := RowCommands(rows - 1, cols, cols, cellSize);
    var k := i * cols + j;
    if i < rows - 1 {
      GridCommandsAtCell(rows - 1, cols, cellSize, i, j);
      MulSucc(i, cols);
      MulMonotone(i + 1, rows - 1, cols);
      assert 2 * k + 1 < |before|;
    } else {
      RowCommandsAt(rows - 1, cols, cols, cellSize, j);
      assert 2 * k == |before| + 2 * j;
    }
  }

  /**
   * Cell (i, j) owns calls 2(i*cols + j) and 2(i*cols + j) + 1: the outline
   * [j*cs, i*cs, j*cs + cs, i*cs + cs] and the label i*cols + j + 1 anchored
   * at (j*cs + 2, i*cs + 2).
   */
  lemma GridCommandsAt(rows: nat, cols: nat, cellSize: nat, i: nat, j: nat)
    requires i < rows && j < cols
    ensures |GridCommands(rows, cols, cellSize)| == 2 * (rows * cols)
    ensures GridCommands(rows, cols, cellSize)[2 * (i * cols + j)]
            == Rectangle(j * cellSize, i * cellSize, j * cellSize + cellSize, i * cellSize + cellSize, Black)
    ensures GridCommands(rows, cols, cellSize)[2 * (i * cols + j) + 1]
            == Text(j * cellSize + 2, i * cellSize + 2, i * cols + j + 1, Black)
  {
    GridCommandsLength(rows, cols, cellSize);
    GridCommandsAtCell(rows, cols, cellSize, i, j);
  }

  /** A cell index below rows*cols names row k / cols and column k % cols of the grid. */
  lemma CellOfIndex(rows: nat, cols: nat, k: nat)
    requires k < rows * cols
    ensures cols > 0 && k / cols < rows && k % cols < cols
    ensures k == k / cols * cols + k % cols
  {
    var i := k / cols;
    if i >= rows {
      MulMonotone(rows, i, cols);
    }
  }

  /**
   * Every recorded call is one of the two calls of a cell of the grid: the
   * call at index n belongs to cell n / 2, in row i and column j with
   * n / 2 = i*cols + j, and is its outline when n is even and its label when
   * n is odd.
   */
  lemma CellOfCall(rows: nat, cols: nat, cellSize: nat, n: nat) returns (i: nat, j: nat)
    requires n < |GridCommands(rows, cols, cellSize)|
    ensures i < rows && j < cols && n / 2 == i * cols + j
    ensures GridCommands(rows, cols, cellSize)[n] == CellCommands(i, j, cols, cellSize)[n % 2]
  {
    GridCommandsLength(rows, cols, cellSize);
    var k := n / 2;
    CellOfIndex(rows, cols, k);
    i, j := k / cols, k % cols;
    GridCommandsAtCell(rows, cols, cellSize, i, j);
    if n % 2 == 0 {
      assert n == 2 * (i * cols + j);
    } else {
      assert n == 2 * (i * cols + j) + 1;
    }
  }

  // ---------------------------------------------------------------------
  // Labels: 1 .. rows*cols, once each, increasing in drawing order
  // ---------------------------------------------------------------------

  /** The labels of the text calls, in the order they were made. */
  function Labels(cmds: seq<DrawCommand>): seq<nat>
  {
    if cmds == [] then []
    else (if cmds[0].Text? then [cmds[0].number] else []) + Labels(cmds[1..])
  }

  lemma {:induction false} LabelsAppend(a: seq<DrawCommand>, b: seq<DrawCommand>)
    ensures Labels(a + b) == Labels(a) + Labels(b)
    decreases |a|
  {
    if a == [] {
      assert a + b == b;
    } else {
      LabelsAppend(a[1..], b);
      assert (a + b)[0] == a[0];
      assert (a + b)[1..] == a[1..] + b;
    }
  }

  lemma {:induction false} RowLabels(i: nat, n: nat, cols: nat, cellSize: nat)
    ensures Labels(RowCommands(i, n, cols, cellSize)) == seq(n, k => i * cols + k + 1)
    decreases n
  {
    if n > 0 {
      RowLabels(i, n - 1, cols, cellSize);
      LabelsAppend(RowCommands(i, n - 1, cols, cellSize), CellCommands(i, n - 1, cols, cellSize));
      CellLabels(i, n - 1, cols, cellSize);
    }
  }

  lemma CellLabels(i: nat, j: nat, cols: nat, cellSize: nat)
    ensures Labels(CellCommands(i, j, cols, cellSize)) == [i * cols + j + 1]
  {
    var cell := CellCommands(i, j, cols, cellSize);
    assert cell[1..][1..] == [];
    assert Labels(cell[1..]) == [i * cols + j + 1];
  }

  /** The labels are exactly 1, 2, ..., rows*cols, in this order. */
  lemma {:induction false} GridLabels(rows: nat, cols: nat, cellSize: nat)
    ensures Labels(GridCommands(rows, cols, cellSize)) == seq(rows * cols, k => k + 1)
    decreases rows
  {
    if rows > 0 {
      GridLabels(rows - 1, cols, cellSize);
      RowLabels(rows - 1, cols, cols, cellSize);
      LabelsAppend(GridCommands(rows - 1, cols, cellSize), RowCommands(rows - 1, cols, cols, cellSize));
      MulSucc(rows - 1, cols);
      var base := (rows - 1) * cols;
      var a := seq(base, k => k + 1);
      var b := seq(cols, k => base + k + 1);
      assert a + b == seq(rows * cols, k => k + 1);
    }
  }

  /** Hence every label in 1 .. rows*cols is used, and the labels strictly increase. */
  lemma GridLabelsIncreasing(rows: nat, cols: nat, cellSize: nat)
    ensures |Labels(GridCommands(rows, cols, cellSize))| == rows * cols
    ensures forall a, b :: 0 <= a < b < |Labels(GridCommands(rows, cols, cellSize))| ==>
              Labels(GridCommands(rows, cols, cellSize))[a] < Labels(GridCommands(rows, cols, cellSize))[b]
    ensures forall m :: 1 <= m <= rows * cols ==> m in Labels(GridCommands(rows, cols, cellSize))
  {
    GridLabels(rows, cols, cellSize);
    var labels := Labels(GridCommands(rows, cols, cellSize));
    forall m | 1 <= m <= rows * cols
      ensures m in labels
    {
      assert labels[m - 1] == m;
    }
  }

  // ---------------------------------------------------------------------
  // Geometry: everything lies on the canvas, and the cells tile it
  // ---------------------------------------------------------------------

  /** The canvas pixel (x, y) lies in the area a rectangle call outlines (right and bottom excluded). */
  predicate Covers(cmd: DrawCommand, x: int, y: int)
  {
    cmd.Rectangle? && cmd.left <= x < cmd.right && cmd.top <= y < cmd.bottom
  }

  /** Column j of cols spans [j*cs, j*cs + cs], which lies within [0, cols*cs]. */
  lemma CellSpanWithin(j: nat, cols: nat, cellSize: nat)
    requires j < cols
    ensures 0 <= j * cellSize && j * cellSize + cellSize <= cols * cellSize
  {
    MulSucc(j, cellSize);
    MulMonotone(j + 1, cols, cellSize);
  }

  /** Every outline is a cellSize square within the cols*cellSize x rows*cellSize canvas. */
  lemma RectanglesWithinCanvas(rows: nat, cols: nat, cellSize: nat, n: nat)
    requires n < |GridCommands(rows, cols, cellSize)|
    requires GridCommands(rows, cols, cellSize)[n].Rectangle?
    ensures var r := GridCommands(rows, cols, cellSize)[n];
            && 0 <= r.left <= r.right <= cols * cellSize
            && 0 <= r.top <= r.bottom <= rows * cellSize
            && r.right - r.left == cellSize && r.bottom - r.top == cellSize
  {
    var i, j := CellOfCall(rows, cols, cellSize, n);
    CellSpanWithin(i, rows, cellSize);
    CellSpanWithin(j, cols, cellSize);
  }

  /** With cells more than 2 pixels wide, a cell's label anchor lies strictly inside its outline. */
  lemma CellLabelInside(i: nat, j: nat, rows: nat, cols: nat, cellSize: nat)
    requires cellSize > 2 && i < rows && j < cols
    ensures var cell := CellCommands(i, j, cols, cellSize);
            && Covers(cell[0], cell[1].x, cell[1].y)
            && 0 <= cell[1].x < cols * cellSize
            && 0 <= cell[1].y < rows * cellSize
  {
    CellSpanWithin(i, rows, cellSize);
    CellSpanWithin(j, cols, cellSize);
  }

  /**
   * With cells more than 2 pixels wide, every label is anchored strictly
   * inside the outline drawn just before it, and so on the canvas.
   */
  lemma LabelsWithinCanvas(rows: nat, cols: nat, cellSize: nat, n: nat)
    requires cellSize > 2
    requires n < |GridCommands(rows, cols, cellSize)|
    requires GridCommands(rows, cols, cellSize)[n].Text?
    ensures var t := GridCommands(rows, cols, cellSize)[n];
            && n % 2 == 1
            && Covers(GridCommands(rows, cols, cellSize)[n - 1], t.x, t.y)
            && 0 <= t.x < cols * cellSize
            && 0 <= t.y < rows * cellSize
  {
    var i, j := CellOfCall(rows, cols, cellSize, n);
    GridCommandsAtCell(rows, cols, cellSize, i, j);
    assert n - 1 == 2 * (i * cols + j);
    CellLabelInside(i, j, rows, cols, cellSize);
  }

  /** The outline of cell (i, j) covers (x, y) only when i = y / cellSize and j = x / cellSize. */
  lemma CellOfPoint(i: nat, j: nat, cols: nat, cellSize: nat, x: int, y: int)
    requires cellSize > 0
    requires Covers(CellCommands(i, j, cols, cellSize)[0], x, y)
    ensures y / cellSize == i && x / cellSize == j
  {
    DivisionUnique(x, j, cellSize);
    DivisionUnique(y, i, cellSize);
  }

  /** The outline of cell (i, j) covers the pixels of its cellSize square. */
  lemma CellCoversPoint(i: nat, j: nat, cols: nat, cellSize: nat, x: int, y: int)
    requires i * cellSize <= y < i * cellSize + cellSize
    requires j * cellSize <= x < j * cellSize + cellSize
    ensures Covers(CellCommands(i, j, cols, cellSize)[0], x, y)
  {
  }

  /** A call covering (x, y) is the outline of the cell in row y / cellSize and column x / cellSize. */
  lemma CoveringCallIsCell(rows: nat, cols: nat, cellSize: nat, n: nat, x: int, y: int)
    requires cellSize > 0
    requires n < |GridCommands(rows, cols, cellSize)|
    requires Covers(GridCommands(rows, cols, cellSize)[n], x, y)
    ensures n % 2 == 0 && n / 2 == (y / cellSize) * cols + x / cellSize
  {
    var i, j := CellOfCall(rows, cols, cellSize, n);
    CellOfPoint(i, j, cols, cellSize, x, y);
  }

  /** A pixel coordinate below cols*cellSize falls in column x / cellSize, which is below cols. */
  lemma ColumnOfPoint(x: int, cols: nat, cellSize: nat)
    requires cellSize > 0 && 0 <= x < cols * cellSize
    ensures x / cellSize < cols
    ensures x / cellSize * cellSize <= x < x / cellSize * cellSize + cellSize
  {
    var q := x / cellSize;
    if q >= cols {
      MulMonotone(cols, q, cellSize);
    }
  }

  /** Each canvas pixel lies in the outline of some cell: the one in row y / cellSize, column x / cellSize. */
  lemma GridCoversCanvas(rows: nat, cols: nat, cellSize: nat, x: int, y: int) returns (n: nat)
    requires cellSize > 0
    requires 0 <= x < cols * cellSize && 0 <= y < rows * cellSize
    ensures n == 2 * ((y / cellSize) * cols + x / cellSize)
    ensures n < |GridCommands(rows, cols, cellSize)| && Covers(GridCommands(rows, cols, cellSize)[n], x, y)
  {
    ColumnOfPoint(x, cols, cellSize);
    ColumnOfPoint(y, rows, cellSize);
    var i: nat, j: nat := y / cellSize, x / cellSize;
    GridCommandsAtCell(rows, cols, cellSize, i, j);
    CellCoversPoint(i, j, cols, cellSize, x, y);
    MulMonotone(0, i, cols);
    n := 2 * (i * cols + j);
  }

  /** No canvas pixel lies in two outlines: the cells' outlines do not overlap. */
  lemma GridCoverUnique(rows: nat, cols: nat, cellSize: nat, x: int, y: int, n: nat, m: nat)
    requires cellSize > 0
    requires n < |GridCommands(rows, cols, cellSize)| && m < |GridCommands(rows, cols, cellSize)|
    requires Covers(GridCommands(rows, cols, cellSize)[n], x, y)
    requires Covers(GridCommands(rows, cols, cellSize)[m], x, y)
    ensures n == m
  {
    CoveringCallIsCell(rows, cols, cellSize, n, x, y);
    CoveringCallIsCell(rows, cols, cellSize, m, x, y);
  }
}
