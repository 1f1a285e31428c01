/**
 * Shrink-to-fit font sizing. A font size starts at a maximum and is lowered
 * by one point at a time while the text, measured at that size, is wider
 * than the room available and the size is still above a floor.
 *
 * Text measurement belongs to the PDF library; it is the parameter `width`,
 * the rendered width of a string at an integer size in the card font.
 */
module Fit {

  /** The size the shrink loop settles on when it starts from `size`. */
  function FitSize(text: string, size: int, minSize: int, avail: real,
                   width: (string, int) -> real): (r: int)
    ensures r <= size
    ensures minSize <= size ==> minSize <= r
    ensures size < minSize ==> r == size
    ensures forall s :: r < s <= size ==> width(text, s) > avail
    ensures width(text, r) <= avail || r <= minSize
    decreases size - minSize
  {
    if width(text, size) > avail && size > minSize then
      FitSize(text, size - 1, minSize, avail, width)
    else
      size
  }

  /** The shrink loop itself, as the renderer runs it. */
  method ShrinkToFit(text: string, maxSize: int, minSize: int, avail: real,
                     width: (string, int) -> real) returns (size: int)
    ensures size == FitSize(text, maxSize, minSize, avail, width)
  {
    size := maxSize;
    while width(text, size) > avail && size > minSize
      invariant FitSize(text, size, minSize, avail, width) == FitSize(text, maxSize, minSize, avail, width)
      decreases size - minSize
    {
      size := size - 1;
    }
  }

  /** More room never yields a smaller size. */
  lemma {:induction false} FitSizeMonotonic(text: string, size: int, minSize: int,
                                            narrow: real, wide: real,
                                            width: (string, int) -> real)
    requires narrow <= wide
    ensures FitSize(text, size, minSize, narrow, width) <= FitSize(text, size, minSize, wide, width)
    decreases size - minSize
  {
    if width(text, size) > wide && size > minSize {
      FitSizeMonotonic(text, size - 1, minSize, narrow, wide, width);
    }
  }

  /** When no size above the floor fits, the floor is used and the text
      overflows; no error is raised. */
  lemma FitSizeFloorOverflow(text: string, maxSize: int, minSize: int,
                             avail: real, width: (string, int) -> real)
    requires minSize <= maxSize
    requires forall s :: minSize < s <= maxSize ==> width(text, s) > avail
    ensures FitSize(text, maxSize, minSize, avail, width) == minSize
  {
  }
}
