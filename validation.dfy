/** The validation gate `validate_props` of src/validation.c: an ordered
    chain of checks, each of which rejects the wing with status 1. */
module Validation {
  import opened Types
  import opened Utils
  import opened Engine

  /** `validate_props`: 0 when the wing may be meshed, 1 when a check fires.
      The checks are, in order: no airfoil code, a negative semi-span, a
      negative root chord, zero thickness, wing-tip overlap, and an aspect
      ratio outside [MIN_ASPECT_RATIO, MAX_ASPECT_RATIO]. */
  function ValidateProps(w: Wing, trig: Trig): (r: int)
    ensures r == 0 || r == 1
  {
    if w.airfoil.m < 0 then 1
    else if w.semiSpan < 0.0 then 1
    else if w.rootChord < 0.0 then 1
    else if w.airfoil.t == 0 then 1
    else if TipOverlap(w) then 1
    else
      var aspectRatio := AspectRatio(w, trig);
      if aspectRatio < MIN_ASPECT_RATIO || aspectRatio > MAX_ASPECT_RATIO then 1
      else 0
  }

  /** A wing passes exactly when it has an airfoil code of non-zero
      thickness, non-negative dimensions, a root chord longer than the
      semi-span times the sweep spread in radians, and an aspect ratio
      within bounds. */
  lemma ValidatePropsMeaning(w: Wing, trig: Trig)
    ensures ValidateProps(w, trig) == 0 <==>
      w.airfoil.m >= 0 && w.airfoil.t != 0 && w.semiSpan >= 0.0 && w.rootChord >= 0.0 &&
      w.rootChord > w.semiSpan * ((w.sweepTe - w.sweepLe) * PI_OVER_180) &&
      MIN_ASPECT_RATIO <= AspectRatio(w, trig) <= MAX_ASPECT_RATIO
  {
    TipOverlapMeaning(w);
  }

  /** A wing that passes has a planform area above FLT_EPSILON and between
      1/100 and 1 times the square of its span: the aspect ratio of a
      negligible area is 0, which the lower bound rejects. */
  lemma ValidatedArea(w: Wing, trig: Trig)
    requires ValidateProps(w, trig) == 0
    ensures var area := SurfaceArea(w, trig); var span := 2.0 * w.semiSpan;
      area > FLT_EPSILON && span * span <= MAX_ASPECT_RATIO * area && area <= span * span
  {
    var area := SurfaceArea(w, trig);
    var span := 2.0 * w.semiSpan;
    var ar := AspectRatio(w, trig);
    assert MIN_ASPECT_RATIO <= ar <= MAX_ASPECT_RATIO;
    RatioBounds(ar, area, span * span);
  }

  /** A ratio q = square / area within the aspect-ratio bounds puts the area
      between square / MAX_ASPECT_RATIO and the square. */
  lemma RatioBounds(q: real, area: real, square: real)
    requires area > 0.0 && q * area == square
    requires MIN_ASPECT_RATIO <= q <= MAX_ASPECT_RATIO
    ensures square <= MAX_ASPECT_RATIO * area && area <= square
  {
    MulSign(area, MAX_ASPECT_RATIO - q);
    MulSign(area, q - MIN_ASPECT_RATIO);
    assert (MAX_ASPECT_RATIO - q) * area == MAX_ASPECT_RATIO * area - square;
    assert (q - MIN_ASPECT_RATIO) * area == square - area;
  }

  /** A wing of zero semi-span never passes: its area is zero. */
  lemma ZeroSpanRejected(w: Wing, trig: Trig)
    requires w.semiSpan == 0.0
    ensures ValidateProps(w, trig) == 1
  {
    assert SurfaceArea(w, trig) == 0.0;
  }
}
