/** What one brush stamp does to the alpha of one pixel of the selection layer.
    The stamp is a filled disk of diameter brushSize in the tint
    rgba(65, 105, 225, 0.5), composited with the Porter-Duff operators of
    section 9.1 of W3C Compositing and Blending Level 1: source-over in Add
    mode and destination-out in Erase mode. Only alpha is modelled; the disk
    is hard-edged and sampled at pixel centres. */
module Compositing {
  import opened Geometry
  import opened Stroke

  /** The brush polarity ("add" / "subtract", labelled Erase in the toolbar). */
  datatype Mode = Add | Erase

  /** Alpha of the fill colour rgba(65, 105, 225, 0.5). */
  const TintAlpha: real := 0.5

  predicate IsAlpha(a: real)
  {
    0.0 <= a <= 1.0
  }

  /** source-over, alpha channel: as + ab * (1 - as). */
  function SourceOver(src: real, dst: real): real
  {
    src + dst * (1.0 - src)
  }

  /** destination-out, alpha channel: ab * (1 - as). */
  function DestinationOut(src: real, dst: real): real
  {
    dst * (1.0 - src)
  }

  /** The alpha a pixel covered by the stamp ends with, over real-valued alpha.
      Add halves what is left of the transparency, so alpha rises to at least
      the tint's and never falls; Erase halves the alpha, so it falls but a
      painted pixel never reaches zero (8-bit storage rounds it to zero in the
      end). */
  function StampAlpha(a: real, mode: Mode): (r: real)
    requires IsAlpha(a)
    ensures IsAlpha(r)
    ensures mode == Add ==> a <= r && TintAlpha <= r && 1.0 - r == (1.0 - a) / 2.0
    ensures mode == Erase ==> r <= a && r == a / 2.0 && (a > 0.0 ==> r > 0.0)
  {
    match mode
    case Add => SourceOver(TintAlpha, a)
    case Erase => DestinationOut(TintAlpha, a)
  }

  /** Whether the stamp centred at `center` covers the pixel in row `row`,
      column `col`: its centre lies within brushSize / 2 of the stamp's centre.
      A covered pixel therefore lies in the stamp's bounding square. */
  predicate InDisk(row: int, col: int, center: Point, brushSize: real): (b: bool)
    ensures b ==> Sq(col as real + 0.5 - center.x) <= Sq(brushSize / 2.0)
    ensures b ==> Sq(row as real + 0.5 - center.y) <= Sq(brushSize / 2.0)
  {
    DistSq(Point(col as real + 0.5, row as real + 0.5), center) <= Sq(brushSize / 2.0)
  }

  /** One stamp, seen from one pixel: covered pixels are composited, all
      others keep their alpha. */
  function PixelAfterStamp(a: real, row: int, col: int, center: Point, brushSize: real, mode: Mode): (r: real)
    requires IsAlpha(a)
    ensures IsAlpha(r)
    ensures !InDisk(row, col, center, brushSize) ==> r == a
    ensures InDisk(row, col, center, brushSize) ==> r == StampAlpha(a, mode)
  {
    if InDisk(row, col, center, brushSize) then StampAlpha(a, mode) else a
  }

  /** A pixel's alpha after the stamps at pts, applied one after another, each
      on the result of the one before. */
  function FoldStamps(a: real, row: int, col: int, pts: seq<Point>, brushSize: real, mode: Mode): (r: real)
    requires IsAlpha(a)
    ensures IsAlpha(r)
    ensures mode == Add ==> a <= r
    ensures mode == Erase ==> r <= a
    decreases |pts|
  {
    if pts == [] then a
    else
      var before := FoldStamps(a, row, col, pts[..|pts| - 1], brushSize, mode);
      PixelAfterStamp(before, row, col, pts[|pts| - 1], brushSize, mode)
  }

  /** A pixel no stamp covers is untouched by the whole run. */
  lemma {:induction false} FoldOutsideUnchanged(a: real, row: int, col: int, pts: seq<Point>, brushSize: real, mode: Mode)
    requires IsAlpha(a)
    requires forall k :: 0 <= k < |pts| ==> !InDisk(row, col, pts[k], brushSize)
    ensures FoldStamps(a, row, col, pts, brushSize, mode) == a
    decreases |pts|
  {
    if pts != [] {
      FoldOutsideUnchanged(a, row, col, pts[..|pts| - 1], brushSize, mode);
    }
  }

  /** In Add mode, a pixel covered by any stamp of the run ends with at least
      the tint's alpha: stamps accumulate and none is lost. */
  lemma {:induction false} FoldCovers(a: real, row: int, col: int, pts: seq<Point>, brushSize: real, k: nat)
    requires IsAlpha(a) && k < |pts| && InDisk(row, col, pts[k], brushSize)
    ensures FoldStamps(a, row, col, pts, brushSize, Add) >= TintAlpha
    decreases |pts|
  {
    var init := pts[..|pts| - 1];
    if k < |pts| - 1 {
      assert init[k] == pts[k];
      FoldCovers(a, row, col, init, brushSize, k);
    }
  }

  /** n stamps covering the same pixel, one after the other. */
  function Restamp(a: real, mode: Mode, n: nat): (r: real)
    requires IsAlpha(a)
    ensures IsAlpha(r)
  {
    if n == 0 then a else StampAlpha(Restamp(a, mode, n - 1), mode)
  }

  function Halving(n: nat): (h: real)
    ensures 0.0 < h <= 1.0
  {
    if n == 0 then 1.0 else Halving(n - 1) / 2.0
  }

  /** Repeated Add stamps halve the transparency each time: alpha approaches 1
      and is not capped at the tint's 0.5. */
  lemma {:induction false} RestampAdd(a: real, n: nat)
    requires IsAlpha(a)
    ensures 1.0 - Restamp(a, Add, n) == (1.0 - a) * Halving(n)
  {
    if n > 0 {
      RestampAdd(a, n - 1);
    }
  }

  /** Repeated Erase stamps halve the alpha each time: over real-valued alpha a
      painted pixel is never erased to zero. */
  lemma {:induction false} RestampErase(a: real, n: nat)
    requires IsAlpha(a)
    ensures Restamp(a, Erase, n) == a * Halving(n)
    ensures a > 0.0 ==> Restamp(a, Erase, n) > 0.0
  {
    if n > 0 {
      RestampErase(a, n - 1);
    }
  }

  /** Two Add stamps on a clear pixel give 0.75, above the tint's alpha. */
  lemma TwoAddsExceedTint()
    ensures Restamp(0.0, Add, 2) == 0.75
  {
    RestampAdd(0.0, 2);
  }

  /** Add then Erase at the same place leaves a quarter of full alpha, not zero:
      erasing is a blend, not a hard clear. */
  lemma AddThenEraseLeavesQuarter()
    ensures StampAlpha(StampAlpha(0.0, Add), Erase) == 0.25
  {
  }
}
