/** Swipe classification of `handleSwipe` in script.js. */
module Swipe {

  /** Minimum horizontal travel, in pixels, that counts as a swipe. */
  const SwipeThreshold: int := 50

  /** What a finished touch asks the slider to do. */
  datatype Gesture = Advance | Retreat | Ignore

  /** First test of `handleSwipe`: the finger ended well to the left. */
  predicate SwipedLeft(startX: int, endX: int)
  {
    endX < startX - SwipeThreshold
  }

  /** Second test of `handleSwipe`: the finger ended well to the right. */
  predicate SwipedRight(startX: int, endX: int)
  {
    endX > startX + SwipeThreshold
  }

  /** The gesture of a touch, read off the displacement `d = endX - startX`:
      strictly beyond 50 px either way moves, anything within 50 px
      (a tap or a short drag, 50 px itself included) is ignored, and the two
      tests of `handleSwipe` never both succeed. */
  function Classify(startX: int, endX: int): (g: Gesture)
    ensures g == Advance <==> endX - startX < -50
    ensures g == Retreat <==> endX - startX > 50
    ensures g == Ignore <==> -50 <= endX - startX <= 50
    ensures !(SwipedLeft(startX, endX) && SwipedRight(startX, endX))
  {
    if SwipedLeft(startX, endX) then Advance
    else if SwipedRight(startX, endX) then Retreat
    else Ignore
  }

  /** Only the displacement matters, not where on the screen the touch was. */
  lemma ClassifyIsTranslationInvariant(startX: int, endX: int, shift: int)
    ensures Classify(startX + shift, endX + shift) == Classify(startX, endX)
  {
  }

  /** Mirroring a swipe swaps the direction. */
  lemma ClassifyMirror(startX: int, endX: int)
    ensures Classify(startX, endX) == Advance <==> Classify(endX, startX) == Retreat
  {
  }
}
