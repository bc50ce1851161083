/**
 * The per-pixel quantization loop of image_to_bead_layout in pindoudou.py:
 * a zeroed array of the pixel array's shape is filled, cell by cell in
 * row-major order, with the quantized colour of the matching pixel.
 */
module BeadLayout {
  import opened Palette

  /**
   * Returns a new array of the same shape as pixels whose cell (i, j) is
   * the palette colour nearest to pixels[i, j]; the pixels are only read.
   * While the loops run, every visited cell holds its quantized colour and
   * every other cell still holds the zero triple it was created with.
   */
  method ImageToBeadLayout(pixels: array2<Rgb>) returns (layout: array2<Rgb>)
    ensures fresh(layout)
    ensures layout.Length0 == pixels.Length0 && layout.Length1 == pixels.Length1
    ensures forall i, j :: 0 <= i < layout.Length0 && 0 <= j < layout.Length1 ==>
              layout[i, j] == QuantizeColor(pixels[i, j])
    ensures forall i, j :: 0 <= i < layout.Length0 && 0 <= j < layout.Length1 ==>
              layout[i, j] in BaseColors
  {
    var height, width := pixels.Length0, pixels.Length1;
    layout := new Rgb[height, width]((_, _) => Black);
    var i := 0;
    while i < height
      invariant 0 <= i <= height
      invariant forall y, x :: 0 <= y < height && 0 <= x < width ==>
                  layout[y, x] == if y < i then QuantizeColor(pixels[y, x]) else Black
    {
      var j := 0;
      while j < width
        invariant 0 <= j <= width
        invariant forall y, x :: 0 <= y < height && 0 <= x < width ==>
                    layout[y, x] == if y < i || (y == i && x < j) then QuantizeColor(pixels[y, x]) else Black
      {
        layout[i, j] := QuantizeColor(pixels[i, j]);
        j := j + 1;
      }
      i := i + 1;
    }
  }
}
