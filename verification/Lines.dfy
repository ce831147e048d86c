/** Texts as lists of lines: `splitlines`, joining with newlines, and what trimming the
    whole text does to its lines. */
module Lines {
  import opened Text

  /** The characters `splitlines` breaks at. */
  predicate BreaksLine(c: char) {
    '\n' <= c <= '\r' || '\U{1C}' <= c <= '\U{1E}' || c == '\U{85}' || c == '\U{2028}' || c == '\U{2029}'
  }

  /** Every line break as a newline. */
  function Newlines(text: string): (r: string)
    ensures |r| == |text| && forall i :: 0 <= i < |r| ==> r[i] == if BreaksLine(text[i]) then '\n' else text[i]
  {
    seq(|text|, i requires 0 <= i < |text| => if BreaksLine(text[i]) then '\n' else text[i])
  }

  /** `splitlines`: no line after the last break. */
  function SplitLines(text: string): seq<string> {
    var parts := Split(Newlines(text), '\n');
    if parts[|parts| - 1] == "" then parts[..|parts| - 1] else parts
  }

  /** What the release handler writes back. */
  function JoinLines(lines: seq<string>): string {
    if lines == [] then "" else Join(lines, "\n") + "\n"
  }

  // ---- Trimming ---------------------------------------------------------------------

  lemma {:induction false} JoinOfSplit(s: string, sep: char)
    ensures Join(Split(s, sep), [sep]) == s
  {
    if s != "" {
      JoinOfSplit(s[1..], sep);
      var rest := Split(s[1..], sep);
      assert s == [s[0]] + s[1..];
      if s[0] == sep {
        assert ([""] + rest)[1..] == rest;
      } else {
        var all := [[s[0]] + rest[0]] + rest[1..];
        assert all[1..] == rest[1..];
      }
    }
  }

  /** What trimming the text leaves of its lines: white lines go at both ends, and the first
      and the last line that stay lose the white space at their outer end. */
  function TrimFront(lines: seq<string>): seq<string> {
    if lines == [] then []
    else if White(lines[0]) then TrimFront(lines[1..])
    else [StripLeft(lines[0])] + lines[1..]
  }

  function TrimBack(lines: seq<string>): seq<string> {
    if lines == [] then []
    else
      var front, last := lines[..|lines| - 1], lines[|lines| - 1];
      if White(last) then TrimBack(front) else front + [StripRight(last)]
  }

  function Trimmed(lines: seq<string>): seq<string> {
    TrimBack(TrimFront(lines))
  }

  lemma {:induction false} StripLeftLines(lines: seq<string>)
    ensures StripLeft(Join(lines, "\n")) == Join(TrimFront(lines), "\n")
  {
    if lines != [] {
      var first, rest := lines[0], lines[1..];
      if |lines| > 1 { FirstLine(first, rest); }
      if White(first) {
        StripLeftLines(rest);
        StripLeftBlank(first);
        if |lines| > 1 { StripLeftPast(first + "\n", Join(rest, "\n")); }
      } else if |lines| > 1 {
        StripLeftOf(first, "\n" + Join(rest, "\n"));
        FirstLine(StripLeft(first), rest);
      }
    }
  }

  lemma FirstLine(first: string, rest: seq<string>)
    requires rest != []
    ensures Join([first] + rest, "\n") == first + ("\n" + Join(rest, "\n")) == (first + "\n") + Join(rest, "\n")
  {
    assert ([first] + rest)[1..] == rest;
  }

  lemma LastLine(front: seq<string>, last: string)
    requires front != []
    ensures Join(front + [last], "\n") == (Join(front, "\n") + "\n") + last == Join(front, "\n") + ("\n" + last)
  {
    JoinAppend(front, [last], "\n");
  }

  lemma {:induction false} StripRightLines(lines: seq<string>)
    ensures StripRight(Join(lines, "\n")) == Join(TrimBack(lines), "\n")
  {
    if lines != [] {
      var front, last := lines[..|lines| - 1], lines[|lines| - 1];
      assert lines == front + [last];
      if front == [] {
        StripRightBlank(last);
      } else if White(last) {
        StripRightLines(front);
        LastLine(front, last);
        StripRightPast(Join(front, "\n"), "\n" + last);
      } else {
        LastLine(front, last);
        LastLine(front, StripRight(last));
        StripRightOf(Join(front, "\n") + "\n", last);
      }
    }
  }

  lemma {:induction false} TrimIgnoresLastBlank(lines: seq<string>)
    ensures Trimmed(lines + [""]) == Trimmed(lines)
  {
    if lines == [] {
      assert [""][1..] == [] && lines + [""] == [""];
    } else if White(lines[0]) {
      TrimIgnoresLastBlank(lines[1..]);
      assert (lines + [""])[1..] == lines[1..] + [""];
    } else {
      var first := [StripLeft(lines[0])] + lines[1..];
      assert (lines + [""])[1..] == lines[1..] + [""];
      assert TrimFront(lines + [""]) == first + [""];
      assert (first + [""])[..|first|] == first;
    }
  }

  // ---- Line breaks ----------------------------------------------------------------------

  lemma {:induction false} NewlinesThenStripLeft(s: string)
    ensures StripLeft(Newlines(s)) == Newlines(StripLeft(s))
  {
    if s != "" {
      assert Newlines(s)[1..] == Newlines(s[1..]);
      NewlinesThenStripLeft(s[1..]);
    }
  }

  lemma {:induction false} NewlinesThenStripRight(s: string)
    ensures StripRight(Newlines(s)) == Newlines(StripRight(s))
  {
    if s != "" {
      assert Newlines(s)[..|s| - 1] == Newlines(s[..|s| - 1]);
      NewlinesThenStripRight(s[..|s| - 1]);
    }
  }

  predicate Unbroken(line: string) {
    forall i :: 0 <= i < |line| ==> !BreaksLine(line[i])
  }

  predicate AllUnbroken(lines: seq<string>) {
    forall i :: 0 <= i < |lines| ==> Unbroken(lines[i])
  }

  lemma {:induction false} PiecesUnbroken(s: string)
    requires forall i :: 0 <= i < |s| ==> s[i] == '\n' || !BreaksLine(s[i])
    ensures AllUnbroken(Split(s, '\n'))
  {
    if s != "" { PiecesUnbroken(s[1..]); }
  }

  lemma LinesUnbroken(content: string)
    ensures AllUnbroken(SplitLines(content))
  {
    PiecesUnbroken(Newlines(content));
  }

  lemma {:induction false} JoinedBreaks(lines: seq<string>)
    requires AllUnbroken(lines)
    ensures Newlines(Join(lines, "\n")) == Join(lines, "\n")
  {
    if |lines| > 1 {
      JoinedBreaks(lines[1..]);
      var text := Join(lines[1..], "\n");
      forall i | 0 <= i < |text| ensures BreaksLine(text[i]) ==> text[i] == '\n' {
        assert Newlines(text)[i] == text[i];
      }
    }
  }

  lemma UnbrokenIsPlain(lines: seq<string>)
    requires AllUnbroken(lines) && lines != []
    ensures Text.Plain(lines, '\n')
  {
  }

  lemma NoLines()
    ensures SplitLines("") == []
  {
    assert Newlines("") == "" && Split("", '\n') == [""];
  }

  lemma SplitsInto(text: string, lines: seq<string>)
    requires Newlines(text) == text && Split(text, '\n') == lines && lines[|lines| - 1] != ""
    ensures SplitLines(text) == lines
  {
  }

  lemma SplitUnbroken(lines: seq<string>)
    requires AllUnbroken(lines) && (lines != [] ==> lines[|lines| - 1] != "")
    ensures SplitLines(Join(lines, "\n")) == lines
  {
    if lines == [] {
      NoLines();
    } else {
      JoinedBreaks(lines);
      UnbrokenIsPlain(lines);
      SplitPlain(lines, '\n');
      SplitsInto(Join(lines, "\n"), lines);
    }
  }

  lemma {:induction false} TrimFrontUnbroken(lines: seq<string>)
    requires AllUnbroken(lines)
    ensures AllUnbroken(TrimFront(lines))
  {
    if lines != [] {
      if White(lines[0]) {
        TrimFrontUnbroken(lines[1..]);
      } else {
        var w := StripLeftCuts(lines[0]);
        forall i | 0 <= i < |StripLeft(lines[0])| ensures !BreaksLine(StripLeft(lines[0])[i]) {
          assert StripLeft(lines[0])[i] == lines[0][|w| + i];
        }
      }
    }
  }

  lemma RightTrimUnbroken(line: string)
    requires Unbroken(line) && !White(line)
    ensures Unbroken(StripRight(line)) && StripRight(line) != ""
  {
    StripRightBlank(line);
    var w := StripRightCuts(line);
    forall i | 0 <= i < |StripRight(line)| ensures !BreaksLine(StripRight(line)[i]) {
      assert StripRight(line)[i] == line[i];
    }
  }

  lemma {:induction false} TrimBackUnbroken(lines: seq<string>)
    requires AllUnbroken(lines)
    ensures AllUnbroken(TrimBack(lines))
    ensures TrimBack(lines) != [] ==> TrimBack(lines)[|TrimBack(lines)| - 1] != ""
  {
    if lines != [] {
      var last := lines[|lines| - 1];
      if White(last) {
        TrimBackUnbroken(lines[..|lines| - 1]);
      } else {
        RightTrimUnbroken(last);
      }
    }
  }

  lemma NewlinesThenStrip(s: string)
    ensures Strip(Newlines(s)) == Newlines(Strip(s))
  {
    NewlinesThenStripLeft(s);
    NewlinesThenStripRight(StripLeft(s));
  }

  lemma StripLines(lines: seq<string>)
    ensures Strip(Join(lines, "\n")) == Join(Trimmed(lines), "\n")
  {
    StripLeftLines(lines);
    StripRightLines(TrimFront(lines));
  }

  lemma TrimmedUnbroken(lines: seq<string>)
    requires AllUnbroken(lines)
    ensures AllUnbroken(Trimmed(lines)) && SplitLines(Join(Trimmed(lines), "\n")) == Trimmed(lines)
    ensures Newlines(Join(Trimmed(lines), "\n")) == Join(Trimmed(lines), "\n")
  {
    TrimFrontUnbroken(lines);
    TrimBackUnbroken(TrimFront(lines));
    SplitUnbroken(Trimmed(lines));
    JoinedBreaks(Trimmed(lines));
  }

  lemma PiecesTrimmed(content: string)
    ensures Trimmed(Split(Newlines(content), '\n')) == Trimmed(SplitLines(content))
  {
    var parts := Split(Newlines(content), '\n');
    if parts[|parts| - 1] == "" {
      TrimIgnoresLastBlank(SplitLines(content));
      assert parts == SplitLines(content) + [""];
    }
  }

  /** The parser sees the file's lines, trimmed as a whole. */
  lemma ParsedLines(content: string)
    ensures SplitLines(Strip(content)) == Trimmed(SplitLines(content))
  {
    var parts := Split(Newlines(content), '\n');
    PiecesUnbroken(Newlines(content));
    JoinOfSplit(Newlines(content), '\n');
    NewlinesThenStrip(content);
    StripLines(parts);
    TrimmedUnbroken(parts);
    PiecesTrimmed(content);
  }

  /** What is written back splits into the lines that were kept. */
  lemma WrittenLines(lines: seq<string>)
    requires AllUnbroken(lines)
    ensures SplitLines(JoinLines(lines)) == lines
  {
    if lines != [] {
      var ended := lines + [""];
      LastLine(lines, "");
      assert JoinLines(lines) == Join(ended, "\n");
      assert AllUnbroken(ended);
      JoinedBreaks(ended);
      UnbrokenIsPlain(ended);
      SplitPlain(ended, '\n');
      assert ended[..|lines|] == lines;
    } else {
      NoLines();
    }
  }
}
