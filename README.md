# Identification-card layout engine, modelled in Dafny

The program reads a staff roster and prints one identification card per
person on letter (or A4) pages, two cards across and four down. For every
row it decides, before drawing anything:

- the slot of the card: a column and row cursor that advances once per card
  and emits the page when the grid is full;
- where the card and its name and title sit on the page;
- which photo file to use, falling back to a default photo;
- the font sizes of the name (24 down to 18) and of the job title (14 down
  to 12), lowered one point at a time while the text is too wide;
- whether the job title is drawn as one line or wrapped into two;
- the full name and the text encoded in the card's scannable code.

The Dafny project models these decisions and proves what they guarantee.

| file | module | what it models |
|---|---|---|
| `wrappers.dfy` | `Wrappers` | an optional value, for the photo column a row may lack |
| `text.dfy` | `Text` | Python's `str.isspace`, `strip()`, `split()` and `' '.join` |
| `fit.dfy` | `Fit` | the shrink-to-fit loops |
| `wrap.dfy` | `Wrap` | the job-title wrap |
| `grid.dfy` | `Grid` | the grid cursor and page counter, as a class and as its closed form |
| `placement.dfy` | `Placement` | card origins, name anchor and title baselines, over `real` |
| `assets.dfy` | `Assets` | photo identifier, `os.path.join`, fallback resolution |
| `cards.dfy` | `Cards` | one card's decisions and the pass over the whole roster |

Two collaborators are parameters rather than code:

- `width: (string, int) -> real` is the PDF library's `stringWidth`: the
  width of a string at an integer size in the card font (Helvetica-Bold).
- `isFile: string -> bool` is `os.path.isfile`.

The roster is a sequence of `Record` values. The rendered document, the
images and the code image are not modelled. The library's `showPage` is a
page counter.

Some points where the model follows the code closely:

- A blank or missing photo column is not a special case when the file is
  chosen. The stripped identifier is empty, so the program looks up
  `./photos/.jpg` first and uses the fallback only if no such file exists
  (`Assets.BlankPhotoLooksUpDotJpg`). The log line at main.py:60 says
  "no photo, used default", which is not always what happens.
- `os.path.join` keeps an absolute second part as it is. So a photo
  identifier that starts with `/` is looked up outside the photo directory
  (`Assets.PathJoin`).
- The job title is sized once, on the whole title. Both wrapped lines are drawn
  at that size.
- `split()` and `strip()` use Python's full whitespace set, not only the
  space character. The wrapped lines are rejoined with single spaces.
- The grid is the fixed 2 by 4 of main.py:43-44. The computed grid at
  main.py:40-41 is overwritten before use, so it is not modelled. Its
  formula would give one column, not two, on either paper size. With the
  fixed grid, every card still lies on the page, on both paper sizes
  (`Cards.FixedGridOnPage`).

## Model

| member | source | states |
|---|---|---|
| `Text.IsSpace` | main.py:56 | the ASCII space, tab, newline and carriage return are whitespace; letters, digits and the dash are not; the exact set is the one `strip()` and `split()` use |
| `Text.Strip` | main.py:56 | the result has no leading or trailing whitespace and is a contiguous part of the input; everything cut off is whitespace |
| `Text.StripIdempotent` | main.py:56 | stripping twice is the same as stripping once |
| `Text.StripAllSpace` | main.py:56 | a whitespace-only string strips to the empty string |
| `Text.Words` | main.py:132 | every word is non-empty and free of whitespace; there are no words exactly when the string is all whitespace; the content of the words is pinned by `Text.WordsAroundSep` and `Text.WordsOfWord` |
| `Text.Join` | main.py:137 | joining words gives the empty string only for no words, and starts with the first word's first character |
| `Text.WordsAroundSep` | main.py:132 | splitting `a`, one whitespace character of any kind (space, tab, newline, no-break space, ...), then `b` gives the words of `a` followed by the words of `b` |
| `Text.WordsOfWord` | main.py:132 | a non-empty string without whitespace splits to itself; with `Text.WordsAroundSep` this determines `split()` on every string |
| `Text.WordsOfJoin` | main.py:137 | splitting words joined by single spaces gives the same words back |
| `Text.SplitJoinSplit` | main.py:132-137 | split, join, split is the same as one split |
| `Fit.FitSize` | main.py:107-110 | the size lies between the floor and the maximum; every size above it up to the maximum is too wide; it fits unless it is the floor |
| `Fit.ShrinkToFit` | main.py:107-110 | the decrementing loop ends at exactly `FitSize` for the same text, range, width and measure |
| `Fit.FitSizeMonotonic` | main.py:109-110 | more available width never gives a smaller size |
| `Fit.FitSizeFloorOverflow` | main.py:105-110 | when no size above the floor fits, the floor is chosen, and the text is drawn overflowing without an error |
| `Wrap.TitleLines` | main.py:130-137 | one or two lines; two exactly when the title is longer than 15 characters and has at least two words; otherwise the single line is the title unchanged |
| `Wrap.WrappedTitleKeepsWords` | main.py:132-137 | a wrapped title has two non-empty lines; the first holds half the words rounded down, the second the rest; re-splitting them in order gives the title's words |
| `Wrap.FourWordTitle` | main.py:130-137 | a long four-word title such as "Senior Backend Infrastructure Engineer" becomes its first two words over its last two |
| `Grid.Next` | main.py:162-168 | from a slot inside the grid, one advance reaches a slot inside the grid whose linear index is one more; the page stays or moves on by one (`Grid.NextSlotAt` ties it to the closed form) |
| `Grid.SlotAt` | main.py:162-168 | the slot of card `n` has column and row within the grid, and decodes back to `n` as page, row and column |
| `Grid.NextSlotAt` | main.py:162-168 | one cursor advance from the slot of card `n` gives the slot of card `n + 1` |
| `Grid.SlotsDistinct` | main.py:162-168 | two different cards never get the same slot on the same page |
| `Grid.SlotIndexOfSlotAt` | main.py:162-168 | the linear index of card `n`'s slot is `n` |
| `Grid.PagesMonotonic` | main.py:166-168 | a later card is never on an earlier page |
| `Grid.PagesEmitted` | main.py:162-168 | `Grid.Run(n)`, the cursor stepped `n` times from the top-left slot of the first page holds the slot of card `n`, so it has emitted `n div (columns * rows)` pages |
| `Grid.NinthCardStartsSecondPage` | main.py:43-44 | on the 2 by 4 grid the first eight cards are on page one and the ninth is at column 0, row 0 of page two |
| `Grid.Cursor.constructor` | main.py:49-50 | the cursor starts at column 0, row 0, with no page emitted |
| `Grid.Cursor.Advance` | main.py:162-168 | one step of the cursor: column and row stay in bounds, the whole new state is the next slot, and the cursor still holds the slot of the next card |
| `Placement.CardOrigin` | main.py:65-66 | a slot of the grid lies right of the left margin and below the top margin (`Placement.LeftColumnAtMargin` and `Placement.TopRowAtMargin` fix the first column and row on the margins, `Placement.GridSteps` the steps between slots, `Placement.SlotsDoNotOverlap` and `Cards.FixedGridOnPage` the rest) |
| `Placement.TextWidth` | main.py:108 | the room for the text is narrower than the card; the same room is used for the title (main.py:123) |
| `Placement.NameAnchor` | main.py:115-116 | the name anchor is as far from the card's left edge as from its right edge, inside the card, at or below its vertical centre and above its bottom edge (`Cards.TextOnCard` for the program's geometry) |
| `Placement.TitleTop` | main.py:141 | the first title line is below the name; the same baseline is used for a one-line title (main.py:147) |
| `Placement.TitleBaselines` | main.py:140-147 | the first title line is at the title baseline; every further line is one font size plus one point lower |
| `Placement.TitleBelowName` | main.py:116-141 | the first title line is 12 mm below the name |
| `Placement.GridSteps` | main.py:65-66 | neighbouring columns are one card width plus the gap apart; neighbouring rows are one card height plus the gap apart, the later lower |
| `Placement.LeftColumnAtMargin` | main.py:65 | the left edge of the first column lies on the left margin |
| `Placement.TopRowAtMargin` | main.py:66 | the top edge of the first row lies on the top margin |
| `Placement.SlotsDoNotOverlap` | main.py:65-66 | with non-negative sizes and gaps, cards in different slots of a page do not overlap |
| `Assets.PathJoin` | main.py:90 | the name is the end of the path; an absolute name replaces the directory; otherwise the path starts with the directory |
| `Assets.PhotoId` | main.py:56 | a missing photo column gives the empty identifier; otherwise the identifier is the part of the column after its leading whitespace, followed in the column only by whitespace, and it has no whitespace at either end |
| `Assets.PhotoCandidate` | main.py:90 | the candidate ends in `.jpg`; for a relative identifier and a directory ending in `/` it is directory, identifier and `.jpg` |
| `Assets.ResolvePhoto` | main.py:90-92 | the path is the candidate exactly when the candidate file exists or equals the fallback path; otherwise it is the fallback; the result is an existing file or the fallback |
| `Assets.BlankPhotoId` | main.py:56 | a missing or blank photo column gives the empty identifier |
| `Assets.BlankPhotoLooksUpDotJpg` | main.py:90-92 | a missing or blank photo column uses `<dir>.jpg` if that file exists, and the fallback otherwise |
| `Assets.PaddingIgnored` | main.py:56 | whitespace around the photo identifier does not change it |
| `Assets.DefaultFallback` | main.py:30-31 | the fallback path is `./photos/sb.jpg` |
| `Cards.FullName` | main.py:58 | the full name's words are the first name's words followed by the last name's |
| `Cards.CodeText` | main.py:155 | the code text's words are the name's words, a dash, and the job title's words |
| `Cards.CardFor` | main.py:104-126 | each card keeps its slot, full name and code text; the name size is in 18..24 and the title size in 12..14; there are one or two title lines, each with a baseline |
| `Cards.LayOutRoster` | main.py:49-168 | one card per row, in order; card `i` is built in the slot of card `i`; the number of pages emitted is the row count div 8 |
| `Cards.NineRecordRoster` | main.py:162-168 | nine rows emit one page, and the ninth card is the only one on page two, at column 0, row 0 |
| `Cards.PaperGeometry` | main.py:11-26 | the card is 85.60 mm by 53.98 mm (ID-1) with no gaps, sizes are non-negative, and a card is smaller than the page in both directions, on both paper sizes |
| `Cards.TextOnCard` | main.py:115-147 | on either paper and at any title size 12..14, the name anchor lies strictly inside the card, and each line of a one- or two-line title lies below the name and above the card's bottom edge |
| `Cards.FixedGridOnPage` | main.py:16-44 | every slot of the fixed 2 by 4 grid lies wholly on the page, on both paper sizes |

## Left out

- Drawing is not modelled: the rounded rectangle, the images, `setFont`,
  `drawCentredString` and `save`. These are calls into the PDF library.
  `showPage` is modelled only as the page counter.
- The page count of the saved document is not modelled. `save` may add a
  final page, and that is decided inside the PDF library.
- Logo and photo placement are not modelled (main.py:32, 82-87, 94-100).
  They depend on each image's aspect ratio, which comes from image decoding.
- The code image is not modelled (main.py:156-159). Only its text,
  `Cards.CodeText`, is kept.
- CSV reading is left out (main.py:47-48). The roster is a sequence of
  records whose name and title fields are present. A missing required
  column, or a short row whose field reads as Python's `None`, is not
  represented.
- Console logging is left out (main.py:59-62, 102, 172). So is the exception
  handler around photo drawing.
- `Assets.PathJoin` follows POSIX `os.path.join`. On Windows `os.path` is
  `ntpath`, where backslashes and drive letters also act as separators;
  that behaviour is not modelled.
- Floating point is not modelled. Positions and widths are Dafny `real`, so
  rounding in the millimetre conversion and in the width comparisons is not
  represented.
- The computed grid (main.py:40-41) is dead code. It is overwritten at
  main.py:43-44.
