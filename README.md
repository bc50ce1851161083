# Bead pattern generator: palette quantization and numbered grid

A model, in Dafny, of the core of `pindoudou.py`, a small application that
turns a picture into a fuse-bead ("pindoudou") pattern. The model has three
modules:

- `Palette`: the fixed list of 24 base colours. `QuantizeColor` maps a colour
  to its nearest base colour by squared Euclidean distance. Python's `min`
  scans the list from left to right and keeps the first entry with the
  smallest key, so `NearestIndex` is that scan written as a recursive
  function. The lemmas prove that the result is a base colour and that no
  base colour is nearer. They also prove that the first of several equally
  near entries wins, that every base colour maps to itself, and that
  quantizing twice gives the same result as quantizing once.
- `BeadLayout`: the per-pixel loop of `image_to_bead_layout`. It is a method
  over a two-dimensional array of pixels. It returns a new array of the same
  shape, created zeroed, and fills it cell by cell in row-major order with the
  quantized colour of each pixel.
- `GridRenderer`: `add_grid_and_numbers`. Drawing is modelled by a `Canvas`
  object that records each draw call, in order. `AddGridAndNumbers` is the
  nested loop that draws each cell's outline and then its number. Its
  postcondition equates the recorded calls with the specification function
  `GridCommands`. The lemmas about `GridCommands` give:
  - the exact outline and label anchor of every cell;
  - the labels 1 .. rows*cols, each once and in increasing order;
  - every outline inside the `cols*cellSize` x `rows*cellSize` canvas that the
    caller creates;
  - every label anchored inside its own cell's outline;
  - every canvas pixel inside exactly one outline.

Neither `image_to_bead_layout` nor `add_grid_and_numbers` checks the sizes it
is given. Only the number inputs at pindoudou.py:61 and pindoudou.py:63, with
`min_value=1`, keep `rows` and `cols` at 1 or more. The model follows the
code: `rows` and `cols` are naturals, and a zero count gives an empty grid.

## Model

| member | source | states |
|---|---|---|
| Palette.BaseColorsDistinct | pindoudou.py:6-13 | the palette has 24 entries and no colour occurs twice |
| Palette.SquaredDistance | pindoudou.py:17 | the distance key is a natural number that is zero exactly when the two colours are equal |
| Palette.NearestIndex | pindoudou.py:17 | the left-to-right scan of `min` that keeps the current best entry and replaces it only by one with a strictly smaller key; it returns an index of the list (its meaning: NearestIndexMinimal, NearestIndexIsFirstNearest) |
| Palette.NearestIndexMinimal | pindoudou.py:17 | the left-to-right scan of `min` ends on an entry that no entry is nearer than and that every earlier entry is strictly farther than |
| Palette.NearestIndexIsFirstNearest | pindoudou.py:17 | an index is the first nearest entry if and only if it is the index the scan returns (existence and uniqueness) |
| Palette.QuantizeColor | pindoudou.py:16-17 | the base colour at the index the scan returns, so always a base colour (its other properties: QuantizeNearest, QuantizeFirstMinimiser, QuantizeFixesPalette) |
| Palette.QuantizeNearest | pindoudou.py:16-17 | the quantized colour is a base colour, and no base colour is nearer to the input |
| Palette.QuantizeFirstMinimiser | pindoudou.py:17 | when index k is the first index reaching the minimal distance, the result is the base colour at k |
| Palette.QuantizeSkipsLaterTie | pindoudou.py:17 | of two equally near base colours, the later one is never the result |
| Palette.QuantizeFixesPalette | pindoudou.py:6-17 | a base colour is found at its own index and quantizes to itself |
| Palette.QuantizeIdempotent | pindoudou.py:16-17 | quantizing a quantized colour changes nothing |
| Palette.QuantizeTieExample | pindoudou.py:17 | (0, 0, 64) is equally near navy and black (4096) and quantizes to navy, the earlier entry |
| BeadLayout.ImageToBeadLayout | pindoudou.py:24-27 | the result is a new array of the pixels' shape; every cell is the quantized colour of its pixel, and so a base colour; the loop invariant keeps visited cells quantized and unvisited cells at the zero triple |
| GridRenderer.Canvas.constructor | pindoudou.py:69 | a new canvas has the given size and no draw calls |
| GridRenderer.Canvas.DrawRectangle | pindoudou.py:42 | appends exactly one outline call with the given corners and colour; earlier calls are unchanged |
| GridRenderer.Canvas.DrawText | pindoudou.py:44 | appends exactly one text call with the given anchor, number and colour; earlier calls are unchanged |
| GridRenderer.UpscaledCanvas | pindoudou.py:69 | the canvas for the grid is cols*cellSize wide and rows*cellSize high, with nothing drawn on it yet |
| GridRenderer.CellCommands | pindoudou.py:38-44 | the two calls one pass of the inner loop makes for cell (i, j): the black outline [j*cs, i*cs, j*cs + cs, i*cs + cs], then the black label i*cols + j + 1 at (j*cs + 2, i*cs + 2) |
| GridRenderer.GridCommands | pindoudou.py:36-44 | the calls of the whole loop: rows in order, and within each row the cells' calls in column order (their closed form: GridCommandsLength, GridCommandsAt, CellOfCall) |
| GridRenderer.AddGridAndNumbers | pindoudou.py:36-44 | the calls recorded on the canvas are the earlier calls followed by exactly the grid's calls, row by row and then column by column |
| GridRenderer.GridCommandsLength | pindoudou.py:36-44 | the grid makes 2*rows*cols draw calls, two per cell |
| GridRenderer.GridCommandsAt | pindoudou.py:36-44 | the calls of cell (i, j) sit at indices 2(i*cols + j) and 2(i*cols + j) + 1 of the 2*rows*cols calls: cell (i, j) is outlined by [j*cs, i*cs, j*cs + cs, i*cs + cs] in black, and then labelled i*cols + j + 1 in black at (j*cs + 2, i*cs + 2) |
| GridRenderer.CellOfCall | pindoudou.py:36-44 | every recorded call belongs to a cell of the grid: call n is the outline (n even) or the label (n odd) of cell n / 2 |
| GridRenderer.GridLabels | pindoudou.py:43 | the labels, in drawing order, are exactly 1, 2, ..., rows*cols |
| GridRenderer.GridLabelsIncreasing | pindoudou.py:43 | there are rows*cols labels, they strictly increase, and every number from 1 to rows*cols is used |
| GridRenderer.RectanglesWithinCanvas | pindoudou.py:38-42 | every outline is a cellSize square within the cols*cellSize x rows*cellSize canvas |
| GridRenderer.LabelsWithinCanvas | pindoudou.py:38-44 | with cells wider than 2 pixels, every label call comes right after its cell's outline, and its anchor lies inside that outline and on the canvas |
| GridRenderer.CellOfPoint | pindoudou.py:38-41 | a pixel inside the outline of cell (i, j) has row y / cellSize = i and column x / cellSize = j |
| GridRenderer.CoveringCallIsCell | pindoudou.py:38-42 | a call whose outline contains pixel (x, y) is the outline of the cell in row y / cellSize and column x / cellSize |
| GridRenderer.GridCoversCanvas | pindoudou.py:38-42 | every canvas pixel lies inside the outline of the cell in row y / cellSize and column x / cellSize |
| GridRenderer.GridCoverUnique | pindoudou.py:38-42 | no canvas pixel lies inside two outlines, so the cells tile the canvas without overlap |

## Left out

- `main` (the Streamlit page, file upload, number inputs, button, display, saving and download) is user interface and I/O, and is not modelled.
- The Pillow and NumPy calls around the loops are library code and are not modelled: `resize`, `convert("RGB")`, `np.array`, `Image.fromarray` and the nearest-neighbour upscale. `BeadLayout.ImageToBeadLayout` takes the already converted pixel array.
- `GridRenderer.UpscaledCanvas` models only the size of the upscaled image. Its pixels, and the bead colours they show, are not modelled.
- `image_to_bead_layout` receives `output_size=(rows, cols)`, but `resize` reads a size as (width, height). The layout is therefore `cols` rows by `rows` columns, while the grid has `rows` rows and `cols` columns. The model proves no alignment between layout cells and grid cells. It only proves each half on its own.
- Palette.SquaredDistance: it computes with unbounded integers. The source subtracts a NumPy `uint8` pixel channel from a Python integer. Depending on the NumPy version, the result can stay `uint8`. Under the promotion rules of NumPy 2, the subtraction, the squaring and the `sum` all stay `uint8`: `sum` starts from the Python integer 0, and 0 plus a `uint8` is a `uint8`. The whole key is then reduced modulo 256. This wrap-around is not modelled.
- Glyph rendering is not modelled. This covers the default font, `str(number)` and the pixels a label covers. A label is recorded as its number and its anchor.
- The colour name `"black"` is modelled as the triple (0, 0, 0).
- GridRenderer.Covers: it treats an outline's right and bottom coordinates as exclusive, so the cells tile the canvas exactly. Pillow's rectangle also draws the pixels at the right and bottom coordinates. Neighbouring outlines therefore share their border lines. The last row's and last column's outer borders fall at x = width and y = height, which is off the canvas. Pixel drawing is not modelled.
- GridRenderer.LabelsWithinCanvas: it requires cellSize > 2. The source always passes 25. With cells of 2 pixels or less, the anchor (left + 2, top + 2) is not inside the cell.
- `width, height = image.size` in `add_grid_and_numbers` is computed but never used, so it is not modelled.
