/**
 * The grid cursor. Cards fill a page column by column along a row, then row
 * by row down the page; when the last slot of a page has been used the page
 * is emitted and the cursor returns to the top-left slot of a fresh page.
 */
module Grid {

  /** The fixed grid: two cards across, four down. */
  const CardsPerRow := 2
  const CardsPerCol := 4

  /** The cursor value: column `col` and row `row` on page `page`, where the
      page is the number of pages emitted so far. */
  datatype Slot = Slot(col: int, row: int, page: int)

  /** One advance of the cursor after a card is drawn. From a slot inside the
      grid it reaches a slot inside the grid whose linear index is one more;
      the page stays or moves on by one. */
  function Next(s: Slot, cols: int, rows: int): (r: Slot)
    ensures 0 <= s.col < cols && 0 <= s.row < rows ==>
              0 <= r.col < cols && 0 <= r.row < rows
              && SlotIndex(r, cols, rows) == SlotIndex(s, cols, rows) + 1
    ensures r.page == s.page || r.page == s.page + 1
  {
    var x := s.col + 1;
    if x >= cols then
      var y := s.row + 1;
      if y >= rows then
        assert (s.page + 1) * (cols * rows) == s.page * (cols * rows) + cols * rows;
        assert s.col == cols - 1 && s.row == rows - 1 ==> s.row * cols + s.col + 1 == cols * rows;
        Slot(0, 0, s.page + 1)
      else
        assert y * cols == s.row * cols + cols;
        Slot(0, y, s.page)
    else
      Slot(x, s.row, s.page)
  }

  /** The slot of the card with zero-based index `n`: the closed form. */
  function SlotAt(n: nat, cols: nat, rows: nat): (s: Slot)
    requires cols > 0 && rows > 0
    ensures 0 <= s.col < cols && 0 <= s.row < rows && 0 <= s.page
    ensures s.page * (cols * rows) + s.row * cols + s.col == n
  {
    DivDiv(n, cols, rows);
    Slot(n % cols, (n / cols) % rows, n / (cols * rows))
  }

  /** The linear index of a slot, inverse of `SlotAt`. */
  function SlotIndex(s: Slot, cols: int, rows: int): int {
    s.page * (cols * rows) + s.row * cols + s.col
  }

  /** Multiplying by a non-negative factor keeps an inequality. */
  lemma {:induction false} MulMonotonic(x: int, y: int, c: nat)
    requires x <= y
    ensures x * c <= y * c
    decreases c
  {
    if c > 0 {
      MulMonotonic(x, y, c - 1);
      assert x * c == x * (c - 1) + x && y * c == y * (c - 1) + y;
    }
  }

  /** Quotient and remainder are determined by the division identity. */
  lemma DivModUnique(n: int, d: int, q: int, m: int)
    requires d > 0 && 0 <= m < d && n == q * d + m
    ensures n / d == q && n % d == m
  {
    var q', m' := n / d, n % d;
    assert n == q' * d + m';
    if q > q' {
      MulMonotonic(q' + 1, q, d);
    } else if q < q' {
      MulMonotonic(q + 1, q', d);
    }
  }

  lemma Distribute(p: int, rows: int, y: int, cols: int)
    ensures (p * rows + y) * cols == p * (cols * rows) + y * cols
  {
  }

  /** A row and column inside the grid give an offset below one page. */
  lemma OffsetBelowPage(y: int, x: int, cols: nat, rows: nat)
    requires 0 <= y < rows && 0 <= x < cols
    ensures y * cols + x < cols * rows
  {
    MulMonotonic(y, rows - 1, cols);
    assert (rows - 1) * cols == rows * cols - cols;
  }

  /** Dividing by `cols` and then by `rows` is dividing by `cols * rows`,
      and the remainders combine. */
  lemma DivDiv(n: nat, cols: nat, rows: nat)
    requires cols > 0 && rows > 0
    ensures n / (cols * rows) == (n / cols) / rows
    ensures n == (n / (cols * rows)) * (cols * rows) + ((n / cols) % rows) * cols + n % cols
  {
    var q, x := n / cols, n % cols;
    var p, y := q / rows, q % rows;
    assert n == q * cols + x;
    assert q == p * rows + y;
    Distribute(p, rows, y, cols);
    assert n == p * (cols * rows) + (y * cols + x);
    OffsetBelowPage(y, x, cols, rows);
    DivModUnique(n, cols * rows, p, y * cols + x);
  }

  /** Integer division by a positive number is monotonic. */
  lemma DivMonotonic(i: nat, j: nat, d: nat)
    requires i <= j && d > 0
    ensures i / d <= j / d
  {
    var qi, qj := i / d, j / d;
    assert qi * d <= i;
    assert j < (qj + 1) * d;
    if qj + 1 <= qi {
      MulMonotonic(qj + 1, qi, d);
    }
  }

  /** Adding one to `n` either bumps the remainder or carries into the quotient. */
  lemma Succ(n: nat, d: nat)
    requires d > 0
    ensures n % d + 1 < d ==> (n + 1) % d == n % d + 1 && (n + 1) / d == n / d
    ensures n % d + 1 == d ==> (n + 1) % d == 0 && (n + 1) / d == n / d + 1
  {
    if n % d + 1 < d {
      DivModUnique(n + 1, d, n / d, n % d + 1);
    } else {
      DivModUnique(n + 1, d, n / d + 1, 0);
    }
  }

  /** Advancing the cursor of card `n` gives the slot of card `n + 1`. */
  lemma {:induction false} NextSlotAt(n: nat, cols: nat, rows: nat)
    requires cols > 0 && rows > 0
    ensures Next(SlotAt(n, cols, rows), cols, rows) == SlotAt(n + 1, cols, rows)
  {
    DivDiv(n, cols, rows);
    DivDiv(n + 1, cols, rows);
    Succ(n, cols);
    Succ(n / cols, rows);
  }

  /** Every card gets the slot `SlotIndex` decodes back to its index. */
  lemma SlotIndexOfSlotAt(n: nat, cols: nat, rows: nat)
    requires cols > 0 && rows > 0
    ensures SlotIndex(SlotAt(n, cols, rows), cols, rows) == n
  {
  }

  /** Two different cards never share a slot of the same page. */
  lemma SlotsDistinct(i: nat, j: nat, cols: nat, rows: nat)
    requires cols > 0 && rows > 0 && i != j
    ensures SlotAt(i, cols, rows) != SlotAt(j, cols, rows)
  {
    SlotIndexOfSlotAt(i, cols, rows);
    SlotIndexOfSlotAt(j, cols, rows);
  }

  /** Pages never go backwards: a later card is on the same page or a later one. */
  lemma PagesMonotonic(i: nat, j: nat, cols: nat, rows: nat)
    requires cols > 0 && rows > 0 && i <= j
    ensures SlotAt(i, cols, rows).page <= SlotAt(j, cols, rows).page
  {
    DivMonotonic(i, j, cols * rows);
  }

  /** The cursor after `n` advances from the top-left slot of the first page. */
  function Run(n: nat, cols: int, rows: int): Slot {
    if n == 0 then Slot(0, 0, 0) else Next(Run(n - 1, cols, rows), cols, rows)
  }

  /** After `n` cards the stepwise cursor holds the closed-form slot of card
      `n`, and so has emitted `n / (cols * rows)` pages. */
  lemma {:induction false} PagesEmitted(n: nat, cols: nat, rows: nat)
    requires cols > 0 && rows > 0
    ensures Run(n, cols, rows) == SlotAt(n, cols, rows)
    ensures Run(n, cols, rows).page == n / (cols * rows)
  {
    if n > 0 {
      PagesEmitted(n - 1, cols, rows);
      NextSlotAt(n - 1, cols, rows);
    }
  }

  /** On the fixed 2 by 4 grid, nine cards fill page one and put the ninth
      card alone at the top-left slot of page two. */
  lemma NinthCardStartsSecondPage()
    ensures forall i :: 0 <= i < 8 ==> SlotAt(i, CardsPerRow, CardsPerCol).page == 0
    ensures SlotAt(8, CardsPerRow, CardsPerCol) == Slot(0, 0, 1)
    ensures 9 / (CardsPerRow * CardsPerCol) == 1
  {
  }

  /**
   * The cursor as the renderer keeps it: the column and row counters and the
   * number of pages emitted so far. `placed` counts the cards drawn.
   */
  class Cursor {
    const cols: nat
    const rows: nat
    var xIdx: int
    var yIdx: int
    var pages: nat
    ghost var placed: nat

    function State(): Slot
      reads this
    {
      Slot(xIdx, yIdx, pages)
    }

    /** The cursor holds the slot of the next card to draw. */
    ghost predicate Valid()
      reads this
    {
      cols > 0 && rows > 0 && State() == SlotAt(placed, cols, rows)
    }

    constructor (cols: nat, rows: nat)
      requires cols > 0 && rows > 0
      ensures Valid() && this.cols == cols && this.rows == rows
      ensures placed == 0 && State() == Slot(0, 0, 0)
    {
      this.cols, this.rows := cols, rows;
      xIdx, yIdx, pages := 0, 0, 0;
      placed := 0;
    }

    /** Move to the next cell, emitting the page when the grid is full. */
    method Advance()
      requires Valid()
      modifies this
      ensures Valid() && placed == old(placed) + 1
      ensures State() == Next(old(State()), cols, rows)
      ensures 0 <= xIdx < cols && 0 <= yIdx < rows
    {
      xIdx := xIdx + 1;
      if xIdx >= cols {
        xIdx := 0;
        yIdx := yIdx + 1;
        if yIdx >= rows {
          pages := pages + 1;
          yIdx := 0;
        }
      }
      NextSlotAt(placed, cols, rows);
      placed := placed + 1;
    }
  }
}
