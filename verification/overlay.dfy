/** The highlight overlay drawn in `QRScanner._handle_frame`: whether it is
    drawn, the fade value, and the rectangles it strokes. */
module Overlay {
  import opened Media

  /** The fade runs over this many empty batches. */
  const FadeFrames: int := 15

  /** Fully opaque. */
  const Opaque: int := 255

  /** `min(max(k, lo), hi)`. */
  function Clamp(k: int, lo: int, hi: int): (c: int)
    requires lo <= hi
    ensures lo <= c <= hi
    ensures lo <= k <= hi ==> c == k
    ensures k < lo ==> c == lo
    ensures hi < k ==> c == hi
  {
    if k < lo then lo else if hi < k then hi else k
  }

  /** The overlay's alpha for a given empty-batch counter: 255 times
      1 - clamp(counter, 0, 15) / 15, in exact arithmetic. */
  function Alpha(emptyFrames: int): (a: int)
    ensures 0 <= a <= Opaque
    ensures FadeFrames * a == Opaque * (FadeFrames - Clamp(emptyFrames, 0, FadeFrames))
    ensures emptyFrames <= 0 ==> a == Opaque
    ensures emptyFrames >= FadeFrames ==> a == 0
  {
    Opaque - 17 * Clamp(emptyFrames, 0, FadeFrames)
  }

  /** The alpha never increases as the counter grows, and strictly falls
      while the counter is within the fade. */
  lemma AlphaMonotone(j: int, k: int)
    requires j <= k
    ensures Alpha(k) <= Alpha(j)
    ensures 0 <= j < k <= FadeFrames ==> Alpha(k) < Alpha(j)
  {
  }

  /** The overlay is drawn only when highlighting is on and something is
      tracked. */
  function Drawn(highlight: bool, tracked: seq<Symbol>): (drawn: bool)
    ensures drawn ==> highlight && |tracked| > 0
    ensures highlight && |tracked| > 0 ==> drawn
  {
    highlight && tracked != []
  }

  /** A BGRA colour. */
  datatype Color = Color(b: int, g: int, r: int, a: int)

  /** One stroked rectangle: from corner (x1, y1) to corner (x2, y2). */
  datatype Stroke = Stroke(x1: int, y1: int, x2: int, y2: int, color: Color, thickness: int)

  /** The strokes drawn on the overlay copy and the weight (out of 255) with
      which the overlay is blended into the frame. */
  datatype Plan = Plan(strokes: seq<Stroke>, blend: int)

  /** The outline of one symbol's box, in the highlight colour. */
  function Outline(rect: Rect, alpha: int): (s: Stroke)
    ensures s.x1 == rect.left && s.y1 == rect.top
    ensures s.x2 - s.x1 == rect.width && s.y2 - s.y1 == rect.height
    ensures s.color == Color(128, 100, 100, alpha) && s.thickness == 5
  {
    Stroke(rect.left, rect.top, rect.left + rect.width, rect.top + rect.height,
           Color(128, 100, 100, alpha), 5)
  }

  /** Every stroke outlines the box of the symbol at the same position. */
  predicate Outlines(strokes: seq<Stroke>, tracked: seq<Symbol>, alpha: int)
  {
    |strokes| == |tracked| &&
    forall i :: 0 <= i < |tracked| ==> strokes[i] == Outline(tracked[i].rect, alpha)
  }
}
