/**
 * The job-title line-wrap decision. A title longer than the threshold is
 * split into its whitespace-separated words and redrawn as two lines, the
 * first holding half of the words (rounded down); a title that is short,
 * or that has fewer than two words, is drawn unchanged on one line.
 */
module Wrap {
  import opened Text

  /** Titles of at most this many characters are never wrapped. */
  const TitleWrapLength := 15

  /** The lines the job title is drawn as, top to bottom. */
  function TitleLines(title: string): (lines: seq<string>)
    ensures 1 <= |lines| <= 2
    ensures |lines| == 2 <==> |title| > TitleWrapLength && |Words(title)| >= 2
    ensures |lines| == 1 ==> lines == [title]
  {
    if |title| > TitleWrapLength then
      var words := Words(title);
      var half := |words| / 2;
      if half == 0 then [title] else [Join(words[..half]), Join(words[half..])]
    else
      [title]
  }

  /** A wrapped title has two non-empty lines; the first holds half of the
      words (rounded down), the second the rest, and splitting the lines again
      gives back the title's words in order. */
  lemma {:induction false} WrappedTitleKeepsWords(title: string)
    requires |title| > TitleWrapLength && |Words(title)| >= 2
    ensures var lines := TitleLines(title); var ws := Words(title);
            |lines| == 2 && lines[0] != "" && lines[1] != ""
            && Words(lines[0]) == ws[..|ws| / 2] && |Words(lines[0])| == |ws| / 2
            && Words(lines[1]) == ws[|ws| / 2..]
            && Words(lines[0]) + Words(lines[1]) == ws
            && Words(lines[0] + " " + lines[1]) == ws
  {
    var ws := Words(title);
    var half := |ws| / 2;
    var lines := TitleLines(title);
    assert AllWords(ws[..half]) by {
      forall i | 0 <= i < half ensures IsWord(ws[..half][i]) { assert ws[..half][i] == ws[i]; }
    }
    assert AllWords(ws[half..]) by {
      forall i | 0 <= i < |ws| - half ensures IsWord(ws[half..][i]) { assert ws[half..][i] == ws[half + i]; }
    }
    WordsOfJoin(ws[..half]);
    WordsOfJoin(ws[half..]);
    assert ws[..half] + ws[half..] == ws;
    WordsAroundSep(lines[0], ' ', lines[1]);
  }

  /** A long title of four words, such as "Senior Backend Infrastructure
      Engineer", is drawn as its first two words over its last two. */
  lemma FourWordTitle(a: string, b: string, c: string, d: string)
    requires IsWord(a) && IsWord(b) && IsWord(c) && IsWord(d)
    requires |a| + |b| + |c| + |d| + 3 > TitleWrapLength
    ensures TitleLines(a + " " + b + " " + c + " " + d) == [a + " " + b, c + " " + d]
  {
    var ws := [a, b, c, d];
    assert Join([c, d]) == c + " " + d by { assert [c, d][1..] == [d]; }
    assert Join([b, c, d]) == b + " " + (c + " " + d) by { assert [b, c, d][1..] == [c, d]; }
    assert Join(ws) == a + " " + (b + " " + (c + " " + d));
    assert a + " " + (b + " " + (c + " " + d)) == a + " " + b + " " + c + " " + d;
    assert Join(ws[..2]) == a + " " + b by { assert ws[..2][1..] == [b]; }
    assert Join(ws[2..]) == c + " " + d by { assert ws[2..][1..] == [d]; }
    WordsOfJoin(ws);
  }
}
