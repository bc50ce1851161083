/**
 * The fixed 24-colour bead palette and the nearest-colour quantizer
 * (BASE_COLORS and quantize_color in pindoudou.py).
 */
module Palette {

  /** One colour channel: an unsigned 8-bit value, as in an RGB pixel. */
  type Byte = x: int | 0 <= x < 256

  /** An RGB triple. */
  datatype Rgb = Rgb(r: Byte, g: Byte, b: Byte)

  /** All-zero triple: the fill of a freshly zeroed pixel array, and "black". */
  const Black: Rgb := Rgb(0, 0, 0)

  /** The base colours, in their fixed enumeration order. */
  const BaseColors: seq<Rgb> := [
    Rgb(255, 0, 0), Rgb(0, 255, 0), Rgb(0, 0, 255), Rgb(255, 255, 0),
    Rgb(0, 255, 255), Rgb(255, 0, 255), Rgb(128, 0, 0), Rgb(0, 128, 0),
    Rgb(0, 0, 128), Rgb(128, 128, 0), Rgb(128, 0, 128), Rgb(0, 128, 128),
    Rgb(255, 192, 203), Rgb(173, 216, 230), Rgb(144, 238, 144), Rgb(255, 218, 185),
    Rgb(255, 239, 213), Rgb(221, 160, 221), Rgb(255, 165, 0), Rgb(128, 128, 128),
    Rgb(192, 192, 192), Rgb(255, 255, 255), Rgb(0, 0, 0), Rgb(165, 42, 42)
  ]

  function Square(x: int): (s: nat)
    ensures s == 0 <==> x == 0
  {
    assert x != 0 ==> x * x > 0 by {
      if x < 0 { assert x * x == (-x) * (-x); }
    }
    x * x
  }

  /**
   * Squared Euclidean distance between a palette entry p and a colour c,
   * summed over the three channels. It is zero exactly when the colours agree.
   */
  function SquaredDistance(p: Rgb, c: Rgb): (d: nat)
    ensures d == 0 <==> p == c
  {
    Square(p.r - c.r) + Square(p.g - c.g) + Square(p.b - c.b)
  }

  /** No colour occurs twice in the palette. */
  lemma BaseColorsDistinct()
    ensures |BaseColors| == 24
    ensures forall i, j :: 0 <= i < j < |BaseColors| ==> BaseColors[i] != BaseColors[j]
  {
  }

  /**
   * k is the first index of ps whose entry is nearest to c: no entry is
   * nearer, and every earlier entry is strictly farther.
   */
  ghost predicate IsFirstNearest(ps: seq<Rgb>, c: Rgb, k: int)
  {
    && 0 <= k < |ps|
    && (forall j :: 0 <= j < |ps| ==> SquaredDistance(ps[k], c) <= SquaredDistance(ps[j], c))
    && (forall j :: 0 <= j < k ==> SquaredDistance(ps[k], c) < SquaredDistance(ps[j], c))
  }

  /**
   * The index that Python's min over ps with the distance to c as key
   * selects: a left-to-right scan that keeps the current best entry and
   * replaces it only by a strictly nearer one.
   */
  function NearestIndex(ps: seq<Rgb>, c: Rgb): (k: nat)
    requires |ps| > 0
    ensures k < |ps|
    decreases |ps|
  {
    if |ps| == 1 then 0
    else
      var best := NearestIndex(ps[..|ps| - 1], c);
      if SquaredDistance(ps[|ps| - 1], c) < SquaredDistance(ps[best], c) then |ps| - 1 else best
  }

  /** The scan ends on the first entry of minimal distance. */
  lemma {:induction false} NearestIndexMinimal(ps: seq<Rgb>, c: Rgb)
    requires |ps| > 0
    ensures IsFirstNearest(ps, c, NearestIndex(ps, c))
    decreases |ps|
  {
    if |ps| > 1 {
      var init := ps[..|ps| - 1];
      NearestIndexMinimal(init, c);
      assert forall j :: 0 <= j < |init| ==> init[j] == ps[j];
    }
  }

  /** The first-nearest index exists and is unique: it is NearestIndex's result and no other. */
  lemma NearestIndexIsFirstNearest(ps: seq<Rgb>, c: Rgb, k: int)
    requires |ps| > 0
    ensures IsFirstNearest(ps, c, k) <==> k == NearestIndex(ps, c)
  {
    NearestIndexMinimal(ps, c);
  }

  /** The palette colour nearest to c; among equally near entries, the first one. */
  function QuantizeColor(c: Rgb): (q: Rgb)
    ensures q in BaseColors
  {
    BaseColors[NearestIndex(BaseColors, c)]
  }

  /** The result is a palette colour, and no palette colour is nearer to c. */
  lemma QuantizeNearest(c: Rgb)
    ensures QuantizeColor(c) in BaseColors
    ensures forall j :: 0 <= j < |BaseColors| ==>
              SquaredDistance(QuantizeColor(c), c) <= SquaredDistance(BaseColors[j], c)
  {
    NearestIndexMinimal(BaseColors, c);
  }

  /** Tie-break: the result is the palette entry at the first index reaching the minimal distance. */
  lemma QuantizeFirstMinimiser(c: Rgb, k: int)
    requires 0 <= k < |BaseColors|
    requires forall j :: 0 <= j < |BaseColors| ==> SquaredDistance(BaseColors[k], c) <= SquaredDistance(BaseColors[j], c)
    requires forall j :: 0 <= j < k ==> SquaredDistance(BaseColors[k], c) < SquaredDistance(BaseColors[j], c)
    ensures QuantizeColor(c) == BaseColors[k]
  {
    NearestIndexIsFirstNearest(BaseColors, c, k);
  }

  /** Of two equally near palette entries, the later one is never the result. */
  lemma QuantizeSkipsLaterTie(c: Rgb, i: int, j: int)
    requires 0 <= i < j < |BaseColors|
    requires SquaredDistance(BaseColors[i], c) == SquaredDistance(BaseColors[j], c)
    ensures QuantizeColor(c) != BaseColors[j]
  {
    var k := NearestIndex(BaseColors, c);
    NearestIndexMinimal(BaseColors, c);
    BaseColorsDistinct();
    if k >= j {
      assert SquaredDistance(BaseColors[k], c) < SquaredDistance(BaseColors[i], c);
    }
  }

  /** Every palette colour is its own nearest colour, found at its own index. */
  lemma QuantizeFixesPalette(k: int)
    requires 0 <= k < |BaseColors|
    ensures NearestIndex(BaseColors, BaseColors[k]) == k
    ensures QuantizeColor(BaseColors[k]) == BaseColors[k]
  {
    var c := BaseColors[k];
    var n := NearestIndex(BaseColors, c);
    NearestIndexMinimal(BaseColors, c);
    assert SquaredDistance(BaseColors[n], c) <= SquaredDistance(c, c) == 0;
    BaseColorsDistinct();
  }

  /** Quantizing twice gives the same colour as quantizing once. */
  lemma QuantizeIdempotent(c: Rgb)
    ensures QuantizeColor(QuantizeColor(c)) == QuantizeColor(c)
  {
    var k := NearestIndex(BaseColors, c);
    QuantizeFixesPalette(k);
  }

  /** Navy, at index 8, is the first palette entry nearest to (0, 0, 64). */
  lemma NavyFirstNearestTo64()
    ensures forall j :: 0 <= j < |BaseColors| ==>
              SquaredDistance(BaseColors[8], Rgb(0, 0, 64)) <= SquaredDistance(BaseColors[j], Rgb(0, 0, 64))
    ensures forall j :: 0 <= j < 8 ==>
              SquaredDistance(BaseColors[8], Rgb(0, 0, 64)) < SquaredDistance(BaseColors[j], Rgb(0, 0, 64))
  {
  }

  /**
   * A tie: (0, 0, 64) is at squared distance 4096 from both navy (index 8)
   * and black (index 22); the earlier entry, navy, is chosen.
   */
  lemma QuantizeTieExample()
    ensures SquaredDistance(BaseColors[8], Rgb(0, 0, 64)) == SquaredDistance(BaseColors[22], Rgb(0, 0, 64)) == 4096
    ensures QuantizeColor(Rgb(0, 0, 64)) == Rgb(0, 0, 128)
  {
    NavyFirstNearestTo64();
    assert IsFirstNearest(BaseColors, Rgb(0, 0, 64), 8);
    NearestIndexIsFirstNearest(BaseColors, Rgb(0, 0, 64), 8);
  }
}
