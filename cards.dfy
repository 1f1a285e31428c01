/**
 * The card renderer's decisions for a whole roster: one forward pass over
 * the rows that gives each card its slot, its position, its photo, its
 * font sizes, its title lines and its code text, and counts the pages
 * emitted when the grid fills.
 */
module Cards {
  import opened Wrappers
  import opened Text
  import opened Fit
  import opened Wrap
  import opened Grid
  import opened Placement
  import opened Assets

  /** Font size range of the name. */
  const MaxNameFont := 24
  const MinNameFont := 18
  /** Font size range of the job title. */
  const MaxTitleFont := 14
  const MinTitleFont := 12

  /** One roster row. `photo` is `None` when the row has no photo column. */
  datatype Record = Record(firstName: string, lastName: string, jobTitle: string,
                           photo: Option<string>)

  /** What the run depends on besides the roster: the geometry, the photo
      directory and fallback, the file-system test and the text measure. */
  datatype Env = Env(geometry: Geometry, photosDir: string, fallbackPhoto: string,
                     isFile: string -> bool, width: (string, int) -> real)

  /** Everything decided about one card before it is drawn. */
  datatype Card = Card(
    slot: Slot,
    origin: Point,
    photoPath: string,
    fullName: string,
    nameSize: int,
    nameAnchor: Point,
    titleSize: int,
    titleLines: seq<string>,
    titleBaselines: seq<real>,
    codeText: string)

  /** First and last name joined by one space: its words are those of the
      first name, then those of the last name. */
  function FullName(r: Record): (name: string)
    ensures Words(name) == Words(r.firstName) + Words(r.lastName)
  {
    WordsAroundSep(r.firstName, ' ', r.lastName);
    r.firstName + " " + r.lastName
  }

  /** The string encoded in the card's scannable code: it splits into the
      name's words, a dash, and the title's words. */
  function CodeText(r: Record): (text: string)
    ensures Words(text) == Words(r.firstName) + Words(r.lastName) + ["-"] + Words(r.jobTitle)
  {
    var text := FullName(r) + " - " + r.jobTitle;
    assert text == FullName(r) + " " + ("-" + " " + r.jobTitle);
    WordsAroundSep(FullName(r), ' ', "-" + " " + r.jobTitle);
    WordsAroundSep("-", ' ', r.jobTitle);
    WordsOfWord("-");
    text
  }

  /** The card drawn for row `r` in slot `slot`. */
  function CardFor(r: Record, slot: Slot, env: Env): (c: Card)
    ensures c.slot == slot && c.fullName == FullName(r) && c.codeText == CodeText(r)
    ensures MinNameFont <= c.nameSize <= MaxNameFont
    ensures MinTitleFont <= c.titleSize <= MaxTitleFont
    ensures 1 <= |c.titleLines| <= 2 && |c.titleBaselines| == |c.titleLines|
  {
    var g := env.geometry;
    var origin := CardOrigin(g, slot.col, slot.row);
    var avail := TextWidth(g);
    var titleSize := FitSize(r.jobTitle, MaxTitleFont, MinTitleFont, avail, env.width);
    var lines := TitleLines(r.jobTitle);
    Card(slot, origin,
         ResolvePhoto(env.photosDir, env.fallbackPhoto, r.photo, env.isFile),
         FullName(r),
         FitSize(FullName(r), MaxNameFont, MinNameFont, avail, env.width),
         NameAnchor(g, origin),
         titleSize, lines, TitleBaselines(g, origin, titleSize, |lines|),
         CodeText(r))
  }

  /** The cards of the whole roster, card `k` drawn in the slot of card `k`. */
  ghost function RosterCards(records: seq<Record>, env: Env): seq<Card> {
    seq(|records|, k requires 0 <= k < |records| =>
      CardFor(records[k], SlotAt(k, CardsPerRow, CardsPerCol), env))
  }

  /** A prefix one longer is the prefix with the next element appended. */
  lemma PrefixSnoc<T>(xs: seq<T>, i: nat)
    requires i < |xs|
    ensures xs[..i + 1] == xs[..i] + [xs[i]]
  {
  }

  /** The pass over the roster: each row's card in order, drawn in the slot
      the cursor holds, and the number of pages emitted on the way. */
  method LayOutRoster(records: seq<Record>, env: Env) returns (cards: seq<Card>, pagesEmitted: nat)
    ensures |cards| == |records|
    ensures forall i :: 0 <= i < |records| ==>
              cards[i] == CardFor(records[i], SlotAt(i, CardsPerRow, CardsPerCol), env)
    ensures pagesEmitted == |records| / (CardsPerRow * CardsPerCol)
  {
    var cursor := new Cursor(CardsPerRow, CardsPerCol);
    var g := env.geometry;
    var avail := TextWidth(g);
    cards := [];
    for i := 0 to |records|
      invariant cursor.Valid() && cursor.placed == i
      invariant cursor.cols == CardsPerRow && cursor.rows == CardsPerCol
      invariant cards == RosterCards(records, env)[..i]
    {
      var r := records[i];
      var slot := cursor.State();
      var origin := CardOrigin(g, slot.col, slot.row);
      var fullName := FullName(r);
      var photoPath := ResolvePhoto(env.photosDir, env.fallbackPhoto, r.photo, env.isFile);
      var nameSize := ShrinkToFit(fullName, MaxNameFont, MinNameFont, avail, env.width);
      var titleSize := ShrinkToFit(r.jobTitle, MaxTitleFont, MinTitleFont, avail, env.width);
      var lines := TitleLines(r.jobTitle);
      var card := Card(slot, origin, photoPath, fullName, nameSize, NameAnchor(g, origin),
                       titleSize, lines, TitleBaselines(g, origin, titleSize, |lines|),
                       CodeText(r));
      assert slot == SlotAt(i, CardsPerRow, CardsPerCol);
      assert card == CardFor(r, slot, env) == RosterCards(records, env)[i];
      PrefixSnoc(RosterCards(records, env), i);
      cards := cards + [card];
      cursor.Advance();
    }
    assert cards == RosterCards(records, env);
    pagesEmitted := cursor.pages;
  }

  /** Nine rows on the fixed grid: one page is emitted, the ninth card is the
      only one on the second page and sits at its top-left slot. */
  lemma NineRecordRoster(cards: seq<Card>, pagesEmitted: nat, records: seq<Record>, env: Env)
    requires |records| == 9 && |cards| == 9
    requires forall i :: 0 <= i < 9 ==>
               cards[i] == CardFor(records[i], SlotAt(i, CardsPerRow, CardsPerCol), env)
    requires pagesEmitted == |records| / (CardsPerRow * CardsPerCol)
    ensures pagesEmitted == 1
    ensures cards[8].slot == Slot(0, 0, 1)
    ensures forall i :: 0 <= i < 8 ==> cards[i].slot.page == 0
  {
    NinthCardStartsSecondPage();
  }

  /** The two paper presets, in points. */
  datatype Paper = Letter | A4

  /** One millimetre in points. */
  const Millimetre: real := 72.0 / 25.4

  /** The program's card and page measurements on the given paper: an
      ID-1 card (85.60 mm by 53.98 mm) with no gaps between cards. */
  function PaperGeometry(paper: Paper): (g: Geometry)
    ensures SizesNonNegative(g) && g.mm == Millimetre && g.gapX == 0.0 && g.gapY == 0.0
    ensures 0.0 < g.cardWidth < g.pageWidth && 0.0 < g.cardHeight < g.pageHeight
    ensures g.cardWidth == 85.60 * Millimetre && g.cardHeight == 53.98 * Millimetre
  {
    var mm := Millimetre;
    Geometry(if paper == Letter then 612.0 else 210.0 * mm,
             if paper == Letter then 792.0 else 297.0 * mm,
             85.60 * mm, 53.98 * mm, 22.5 * mm, 29.0 * mm, 0.0, 0.0, mm)
  }

  /** On either paper and at any title size the shrink loop can pick, the
      name anchor lies strictly inside the card, and every title line of a
      one- or two-line title lies below the name and above the card's bottom
      edge. */
  lemma TextOnCard(paper: Paper, origin: Point, size: int, count: nat)
    requires MinTitleFont <= size <= MaxTitleFont && count <= 2
    ensures var g := PaperGeometry(paper);
            var a := NameAnchor(g, origin);
            var ys := TitleBaselines(g, origin, size, count);
            origin.x < a.x < origin.x + g.cardWidth && origin.y < a.y < origin.y + g.cardHeight
            && forall i :: 0 <= i < count ==> origin.y < ys[i] < a.y
  {
  }

  predicate OnPage(g: Geometry, p: Point) {
    0.0 <= p.x && p.x + g.cardWidth <= g.pageWidth && 0.0 <= p.y && p.y + g.cardHeight <= g.pageHeight
  }

  /** Every slot of the fixed 2 by 4 grid lies wholly on the page, on both
      paper presets. */
  lemma FixedGridOnPage(paper: Paper, col: int, row: int)
    requires 0 <= col < CardsPerRow && 0 <= row < CardsPerCol
    ensures OnPage(PaperGeometry(paper), CardOrigin(PaperGeometry(paper), col, row))
  {
  }
}
