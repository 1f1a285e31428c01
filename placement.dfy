/**
 * Where a card and its text sit on the page, in points measured from the
 * bottom-left corner of the page. Lengths that the program writes in
 * millimetres are scaled by `mm`, the size of one millimetre in points.
 */
module Placement {

  /** The page and card measurements, constant for the whole run. */
  datatype Geometry = Geometry(
    pageWidth: real, pageHeight: real,
    cardWidth: real, cardHeight: real,
    marginX: real, marginY: real,
    gapX: real, gapY: real,
    mm: real)

  datatype Point = Point(x: real, y: real)

  /** Bottom-left corner of the card in column `col`, row `row`; rows run
      from the top of the page down. A slot of the grid lies right of the left
      margin and below the top margin. */
  function CardOrigin(g: Geometry, col: int, row: int): (p: Point)
    ensures SizesNonNegative(g) && 0 <= col && 0 <= row ==>
              g.marginX <= p.x && p.y + g.cardHeight <= g.pageHeight - g.marginY
  {
    assert SizesNonNegative(g) && 0 <= col && 0 <= row ==>
      0.0 <= col as real * (g.cardWidth + g.gapX) && 0.0 <= row as real * (g.cardHeight + g.gapY);
    Point(g.marginX + col as real * (g.cardWidth + g.gapX),
          g.pageHeight - g.marginY - (row + 1) as real * g.cardHeight - row as real * g.gapY)
  }

  /** Room for the name and the title: the card width less 20 mm, so
      narrower than the card. */
  function TextWidth(g: Geometry): (w: real)
    ensures g.mm > 0.0 ==> w < g.cardWidth
  {
    g.cardWidth - 20.0 * g.mm
  }

  /** Anchor of the centred name: as far from the card's left edge as from its
      right edge, at or below the card's vertical centre, and above the card's
      bottom edge when the card is taller than 6 mm. */
  function NameAnchor(g: Geometry, origin: Point): (p: Point)
    ensures p.x - origin.x == (origin.x + g.cardWidth) - p.x
    ensures g.cardWidth > 0.0 ==> origin.x < p.x < origin.x + g.cardWidth
    ensures g.mm >= 0.0 ==> p.y <= origin.y + g.cardHeight / 2.0
    ensures 6.0 * g.mm < g.cardHeight ==> origin.y < p.y
  {
    Point(origin.x + g.cardWidth / 2.0, origin.y + g.cardHeight / 2.0 - 3.0 * g.mm)
  }

  /** Baseline of the first title line: 15 mm below the card's vertical
      centre, so below the name. */
  function TitleTop(g: Geometry, origin: Point): (y: real)
    ensures g.mm > 0.0 ==> y < NameAnchor(g, origin).y
  {
    origin.y + g.cardHeight / 2.0 - 15.0 * g.mm
  }

  /** Baselines of `count` title lines drawn at font size `size`, one line
      spacing (the size plus one point) apart. */
  function TitleBaselines(g: Geometry, origin: Point, size: int, count: nat): (ys: seq<real>)
    ensures |ys| == count
    ensures count > 0 ==> ys[0] == TitleTop(g, origin)
    ensures forall i :: 0 <= i < count - 1 ==> ys[i] - ys[i + 1] == (size + 1) as real
  {
    seq(count, i => TitleTop(g, origin) - i as real * (size + 1) as real)
  }

  /** The first title line is 12 mm below the name. */
  lemma TitleBelowName(g: Geometry, origin: Point)
    ensures NameAnchor(g, origin).y - TitleTop(g, origin) == 12.0 * g.mm
  {
  }

  /** Neighbouring columns are one card width plus one gap apart; neighbouring
      rows are one card height plus one gap apart, the later row lower. */
  lemma {:induction false} GridSteps(g: Geometry, col: int, row: int)
    ensures CardOrigin(g, col + 1, row).x - CardOrigin(g, col, row).x == g.cardWidth + g.gapX
    ensures CardOrigin(g, col + 1, row).y == CardOrigin(g, col, row).y
    ensures CardOrigin(g, col, row).y - CardOrigin(g, col, row + 1).y == g.cardHeight + g.gapY
    ensures CardOrigin(g, col, row + 1).x == CardOrigin(g, col, row).x
  {
    assert (col + 1) as real * (g.cardWidth + g.gapX)
        == col as real * (g.cardWidth + g.gapX) + (g.cardWidth + g.gapX);
    assert (row + 2) as real * g.cardHeight == (row + 1) as real * g.cardHeight + g.cardHeight;
    assert (row + 1) as real * g.gapY == row as real * g.gapY + g.gapY;
  }

  /** The top edge of the first row is the top margin. */
  lemma TopRowAtMargin(g: Geometry, col: int)
    ensures CardOrigin(g, col, 0).y + g.cardHeight == g.pageHeight - g.marginY
  {
  }

  /** The left edge of the first column is the left margin. */
  lemma LeftColumnAtMargin(g: Geometry, row: int)
    ensures CardOrigin(g, 0, row).x == g.marginX
  {
  }

  /** `k` steps of a non-negative length cover at least that length once. */
  lemma {:induction false} StepsCover(k: int, step: real, len: real)
    requires k >= 1 && step >= len && len >= 0.0
    ensures k as real * step >= len
    decreases k
  {
    if k > 1 {
      StepsCover(k - 1, step, len);
      assert k as real * step == (k - 1) as real * step + step;
    }
  }

  predicate SizesNonNegative(g: Geometry) {
    g.cardWidth >= 0.0 && g.cardHeight >= 0.0 && g.gapX >= 0.0 && g.gapY >= 0.0
  }

  /** Cards in two different slots of a page do not overlap. */
  lemma SlotsDoNotOverlap(g: Geometry, c1: int, r1: int, c2: int, r2: int)
    requires SizesNonNegative(g)
    requires c1 != c2 || r1 != r2
    ensures var p, q := CardOrigin(g, c1, r1), CardOrigin(g, c2, r2);
            p.x + g.cardWidth <= q.x || q.x + g.cardWidth <= p.x
            || p.y + g.cardHeight <= q.y || q.y + g.cardHeight <= p.y
  {
    var p, q := CardOrigin(g, c1, r1), CardOrigin(g, c2, r2);
    var w, h := g.cardWidth + g.gapX, g.cardHeight + g.gapY;
    if c1 < c2 {
      StepsCover(c2 - c1, w, g.cardWidth);
      assert q.x - p.x == (c2 - c1) as real * w;
    } else if c2 < c1 {
      StepsCover(c1 - c2, w, g.cardWidth);
      assert p.x - q.x == (c1 - c2) as real * w;
    } else if r1 < r2 {
      StepsCover(r2 - r1, h, g.cardHeight);
      assert p.y - q.y == (r2 - r1) as real * h;
    } else {
      StepsCover(r1 - r2, h, g.cardHeight);
      assert q.y - p.y == (r1 - r2) as real * h;
    }
  }
}
