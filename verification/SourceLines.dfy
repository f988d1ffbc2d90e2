/**
 Splitting source text into lines that keep their original terminators
 (`\n`, `\r\n` and a lone `\r`), and the UTF-8 size of a line.
 */
module SourceLines {
  import opened Prelude

  // ----- line splitting -----

  /** Length of the first line of a nonempty text, terminator included. */
  function FirstLineLength(text: string): (n: nat)
    requires text != ""
    ensures 0 < n <= |text|
  {
    if text[0] == '\n' then 1
    else if text[0] == '\r' then
      if 1 < |text| && text[1] == '\n' then 2 else 1
    else if |text| == 1 then 1
    else 1 + FirstLineLength(text[1..])
  }

  function SplitLines(text: string): seq<string> {
    if text == "" then []
    else
      var n := FirstLineLength(text);
      [text[..n]] + SplitLines(text[n..])
  }

  function Join(lines: seq<string>): string {
    if lines == [] then "" else lines[0] + Join(lines[1..])
  }

  /** No character that ends a line. */
  ghost predicate Plain(s: string) {
    forall i :: 0 <= i < |s| ==> s[i] != '\n' && s[i] != '\r'
  }

  /** `s` is some plain text followed by exactly one terminator. */
  ghost predicate Terminated(s: string) {
    || (|s| >= 1 && Plain(s[..|s| - 1]) && (s[|s| - 1] == '\n' || s[|s| - 1] == '\r'))
    || (|s| >= 2 && Plain(s[..|s| - 2]) && s[|s| - 2] == '\r' && s[|s| - 1] == '\n')
  }

  /** A line: nonempty, with its terminator (if any) only at the end. */
  ghost predicate IsLine(s: string) {
    Terminated(s) || (s != "" && Plain(s))
  }

  /** A lone `\r` must not be followed by a line that opens with `\n`. */
  ghost predicate CleanCut(a: string, b: string) {
    a != "" && b != "" ==> !(a[|a| - 1] == '\r' && b[0] == '\n')
  }

  /** The shape of every split: only the last line may lack a terminator. */
  ghost predicate Canonical(lines: seq<string>) {
    && (forall i :: 0 <= i < |lines| ==> IsLine(lines[i]))
    && (forall i :: 0 <= i < |lines| - 1 ==> Terminated(lines[i]) && CleanCut(lines[i], lines[i + 1]))
  }

  lemma {:induction false} FirstLineIsLine(text: string)
    requires text != ""
    ensures var n := FirstLineLength(text);
            && IsLine(text[..n])
            && (n < |text| ==> Terminated(text[..n]) && CleanCut(text[..n], text[n..]))
  {
    var n := FirstLineLength(text);
    if text[0] == '\n' || text[0] == '\r' || |text| == 1 {
    } else {
      FirstLineIsLine(text[1..]);
      var m := FirstLineLength(text[1..]);
      var rest := text[1..][..m];
      assert text[..n] == [text[0]] + rest;
      assert text[n..] == text[1..][m..];
      if Terminated(rest) {
        ConsPlain(text[0], rest);
      }
    }
  }

  lemma ConsPlain(c: char, s: string)
    requires c != '\n' && c != '\r' && Terminated(s)
    ensures Terminated([c] + s)
  {
  }

  lemma NoLines()
    ensures Canonical([])
  {
  }

  lemma CanonicalPrepended(line: string, rest: seq<string>)
    requires IsLine(line) && Canonical(rest) && (rest != [] ==> Terminated(line) && CleanCut(line, rest[0]))
    ensures Canonical([line] + rest)
  {
    hide IsLine, Terminated, CleanCut;
    var lines := [line] + rest;
    forall i | 0 <= i < |lines| - 1 ensures Terminated(lines[i]) && CleanCut(lines[i], lines[i + 1]) {
      if i > 0 { assert lines[i] == rest[i - 1] && lines[i + 1] == rest[i]; }
    }
  }

  /** The first line of a split opens with the first character. */
  lemma SplitOpens(text: string)
    requires text != ""
    ensures var lines := SplitLines(text); lines != [] && lines[0] != "" && lines[0][0] == text[0]
  {
    hide FirstLineLength;
  }

  /** Splitting loses nothing and yields well-shaped lines, for every text. */
  lemma {:induction false} SplitIsCanonical(text: string)
    ensures Join(SplitLines(text)) == text
    ensures Canonical(SplitLines(text))
  {
    hide IsLine, Terminated, FirstLineLength, Canonical;
    NoLines();
    if text != "" {
      var n := FirstLineLength(text);
      FirstLineIsLine(text);
      var line, tail := text[..n], text[n..];
      assert text == line + tail;
      SplitIsCanonical(tail);
      var rest := SplitLines(tail);
      if tail != "" { SplitOpens(tail); }
      CanonicalPrepended(line, rest);
      assert ([line] + rest)[1..] == rest;
    }
  }

  /** A text that starts with a well-shaped first line has that line first. */
  lemma {:induction false} FirstLineOf(line: string, tail: string)
    requires IsLine(line) && (tail != "" ==> Terminated(line) && CleanCut(line, tail))
    ensures FirstLineLength(line + tail) == |line|
  {
    var text := line + tail;
    assert text[0] == line[0];
    if |line| == 1 {
      if line[0] == '\r' && tail != "" {
        assert text[1] == tail[0];
      }
    } else if line[0] == '\r' {
      assert text[1] == line[1];
    } else {
      var shorter := line[1..];
      assert text[1..] == shorter + tail;
      if Terminated(line) {
        if Plain(line[..|line| - 1]) && line[|line| - 1] in {'\n', '\r'} {
          assert shorter[..|shorter| - 1] == line[..|line| - 1][1..];
        } else {
          assert shorter[..|shorter| - 2] == line[..|line| - 2][1..];
        }
        assert Terminated(shorter);
      }
      FirstLineOf(shorter, tail);
    }
  }

  /** The canonical shape determines the split: joining and re-splitting is the identity. */
  lemma {:induction false} SplitOfJoin(lines: seq<string>)
    requires Canonical(lines)
    ensures SplitLines(Join(lines)) == lines
  {
    if lines != [] {
      var tail := Join(lines[1..]);
      assert Canonical(lines[1..]);
      if lines[1..] != [] {
        assert tail == lines[1] + Join(lines[1..][1..]);
        assert IsLine(lines[1]);
        assert tail[0] == lines[1][0];
      }
      FirstLineOf(lines[0], tail);
      var text := Join(lines);
      assert text == lines[0] + tail && text[..|lines[0]|] == lines[0] && text[|lines[0]|..] == tail;
      SplitOfJoin(lines[1..]);
    }
  }

  /** Any contiguous slice of the lines of a text re-splits into exactly that slice. */
  lemma ResplitSlice(text: string, lo: nat, hi: nat)
    requires lo <= hi <= |SplitLines(text)|
    ensures SplitLines(Join(SplitLines(text)[lo..hi])) == SplitLines(text)[lo..hi]
  {
    SplitIsCanonical(text);
    SplitOfJoin(SplitLines(text)[lo..hi]);
  }

  /** The loop state of the splitter: `lines` is done, `text[start..index]` is an open line. */
  ghost predicate Splitting(text: string, lines: seq<string>, start: nat, index: nat) {
    && start <= index <= |text|
    && Plain(text[start..index])
    && SplitLines(text) == lines + SplitLines(text[start..])
  }

  lemma SplittingStarts(text: string)
    ensures Splitting(text, [], 0, 0)
  {
  }

  lemma SplittingSkips(text: string, lines: seq<string>, start: nat, index: nat)
    requires Splitting(text, lines, start, index) && index < |text|
    requires text[index] != '\n' && text[index] != '\r'
    ensures Splitting(text, lines, start, index + 1)
  {
    assert text[start..index + 1] == text[start..index] + [text[index]];
  }

  /** `end` closes the line that is open at `index`. */
  ghost predicate Closes(text: string, index: nat, end: nat) {
    && index <= end <= |text|
    && (if index == |text| then end == index
        else if text[index] == '\n' then end == index + 1
        else text[index] == '\r' &&
             end == if index + 1 < |text| && text[index + 1] == '\n' then index + 2 else index + 1)
  }

  lemma ClosedLine(text: string, start: nat, index: nat, end: nat)
    requires Closes(text, index, end) && start <= index && start < end && Plain(text[start..index])
    ensures var line, tail := text[start..end], text[end..];
            IsLine(line) && (tail != "" ==> Terminated(line) && CleanCut(line, tail))
  {
    var line := text[start..end];
    assert text[start..index] == line[..index - start];
    if index < |text| {
      assert line[index - start] == text[index];
      assert Terminated(line);
    } else {
      assert line == text[start..index];
    }
  }

  lemma SplitAfterLine(line: string, tail: string)
    requires IsLine(line) && (tail != "" ==> Terminated(line) && CleanCut(line, tail))
    ensures SplitLines(line + tail) == [line] + SplitLines(tail)
  {
    hide FirstLineLength, Terminated, CleanCut, Plain;
    FirstLineOf(line, tail);
    assert (line + tail)[..|line|] == line && (line + tail)[|line|..] == tail;
  }

  lemma SplittingCloses(text: string, lines: seq<string>, start: nat, index: nat, end: nat)
    requires Splitting(text, lines, start, index) && Closes(text, index, end) && start < end
    ensures Splitting(text, lines + [text[start..end]], end, end)
  {
    hide SplitLines, IsLine, Terminated, CleanCut;
    var line, tail := text[start..end], text[end..];
    ClosedLine(text, start, index, end);
    SplitAfterLine(line, tail);
    assert text[start..] == line + tail;
    assert lines + ([line] + SplitLines(tail)) == lines + [line] + SplitLines(tail);
  }

  lemma SplittingEnds(text: string, lines: seq<string>)
    requires Splitting(text, lines, |text|, |text|)
    ensures lines == SplitLines(text)
  {
  }

  method SplitSourceLines(text: string) returns (lines: seq<string>)
    ensures lines == SplitLines(text)
  {
    hide SplitLines, Plain;
    lines := [];
    var start, index, total := 0, 0, |text|;
    SplittingStarts(text);
    while index < total
      invariant 0 <= start <= index <= total
      invariant Splitting(text, lines, start, index)
    {
      var character := text[index];
      if character == '\n' {
        SplittingCloses(text, lines, start, index, index + 1);
        lines := lines + [text[start..index + 1]];
        start := index + 1;
        index := index + 1;
      } else if character == '\r' {
        var end := if index + 1 < total && text[index + 1] == '\n' then index + 2 else index + 1;
        SplittingCloses(text, lines, start, index, end);
        lines := lines + [text[start..end]];
        start := end;
        index := end;
      } else {
        SplittingSkips(text, lines, start, index);
        index := index + 1;
      }
    }
    if start < total {
      SplittingCloses(text, lines, start, total, total);
      assert text[start..total] == text[start..];
      lines := lines + [text[start..]];
    }
    SplittingEnds(text, lines);
  }

  // ----- slices of joined lines -----

  lemma {:induction false} JoinAppend(a: seq<string>, b: seq<string>)
    ensures Join(a + b) == Join(a) + Join(b)
  {
    if a == [] {
      assert a + b == b;
    } else {
      assert (a + b)[1..] == a[1..] + b;
      JoinAppend(a[1..], b);
    }
  }
}
