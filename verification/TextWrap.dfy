/** wrapText() of namespaces_of.go: greedy line breaking of white-space separated
    words. Characters stand for the bytes that Go's len() counts. */
module TextWrap {

  predicate IsSpace(c: char) {
    c == ' ' || c == '\t' || c == '\n' || c == '\r' || c == '\U{0B}' || c == '\U{0C}'
  }

  predicate Blank(s: string) {
    forall i :: 0 <= i < |s| ==> IsSpace(s[i])
  }

  predicate IsWord(w: string) {
    w != [] && forall i :: 0 <= i < |w| ==> !IsSpace(w[i])
  }

  // ----- strings.Fields -----

  /** Splits off words from the front: `cur` is the word being read. */
  function FieldsFrom(cur: string, s: string): seq<string>
    decreases |s|
  {
    if s == [] then (if cur == [] then [] else [cur])
    else if IsSpace(s[0]) then (if cur == [] then [] else [cur]) + FieldsFrom([], s[1..])
    else FieldsFrom(cur + [s[0]], s[1..])
  }

  function Fields(s: string): seq<string> {
    FieldsFrom([], s)
  }

  predicate AllWords(ws: seq<string>) {
    forall i :: 0 <= i < |ws| ==> IsWord(ws[i])
  }

  lemma {:induction false} FieldsAreWords(cur: string, s: string)
    requires cur == [] || IsWord(cur)
    ensures AllWords(FieldsFrom(cur, s))
    decreases |s|
  {
    if s != [] {
      if IsSpace(s[0]) {
        FieldsAreWords([], s[1..]);
      } else {
        FieldsAreWords(cur + [s[0]], s[1..]);
      }
    }
  }

  /** White space cuts: text on its two sides is split independently. */
  lemma {:induction false} FieldsCut(cur: string, a: string, c: char, b: string)
    requires IsSpace(c)
    ensures FieldsFrom(cur, a + [c] + b) == FieldsFrom(cur, a) + FieldsFrom([], b)
    decreases |a|
  {
    var s := a + [c] + b;
    if a == [] {
      assert s[1..] == b;
    } else {
      assert s[1..] == a[1..] + [c] + b;
      FieldsCut(if IsSpace(a[0]) then [] else cur + [a[0]], a[1..], c, b);
    }
  }

  lemma {:induction false} FieldsOfWord(cur: string, w: string)
    requires forall i :: 0 <= i < |w| ==> !IsSpace(w[i])
    ensures FieldsFrom(cur, w) == if cur + w == [] then [] else [cur + w]
    decreases |w|
  {
    if w == [] {
      assert cur + w == cur;
    } else {
      FieldsOfWord(cur + [w[0]], w[1..]);
      assert cur + [w[0]] + w[1..] == cur + w;
    }
  }

  lemma {:induction false} FieldsSkipBlank(indent: string, s: string)
    requires Blank(indent)
    ensures FieldsFrom([], indent + s) == FieldsFrom([], s)
    decreases |indent|
  {
    if indent == [] {
      assert indent + s == s;
    } else {
      assert (indent + s)[1..] == indent[1..] + s;
      FieldsSkipBlank(indent[1..], s);
    }
  }

  // ----- lines -----

  /** The text of a line: its words joined by single spaces. */
  function Text(line: seq<string>): string {
    if line == [] then []
    else if |line| == 1 then line[0]
    else Text(line[..|line| - 1]) + " " + line[|line| - 1]
  }

  function Concat(lines: seq<seq<string>>): seq<string> {
    if lines == [] then [] else Concat(lines[..|lines| - 1]) + lines[|lines| - 1]
  }

  /** The output: every line behind the indent, newlines in between. */
  function Render(lines: seq<seq<string>>, indent: string): string {
    if lines == [] then []
    else if |lines| == 1 then indent + Text(lines[0])
    else Render(lines[..|lines| - 1], indent) + "\n" + (indent + Text(lines[|lines| - 1]))
  }

  /** A line may exceed the width only if it is one word. */
  predicate Fits(line: seq<string>, width: int) {
    line != [] && (|line| == 1 || |Text(line)| <= width)
  }

  /** A way to break `words` into lines that respects the width. */
  predicate Layout(lines: seq<seq<string>>, words: seq<string>, width: int) {
    Concat(lines) == words && forall i :: 0 <= i < |lines| ==> Fits(lines[i], width)
  }

  /** One word more: on the last line if it fits there, else on a new line. */
  function Place(lines: seq<seq<string>>, word: string, width: int): seq<seq<string>>
    requires lines != []
  {
    var n := |lines| - 1;
    if |Text(lines[n])| + |word| + 1 > width then lines + [[word]]
    else lines[..n] + [lines[n] + [word]]
  }

  /** The lines that the greedy loop produces. */
  function Greedy(words: seq<string>, width: int): (lines: seq<seq<string>>)
    ensures words != [] ==> lines != []
  {
    if words == [] then []
    else if |words| == 1 then [[words[0]]]
    else Place(Greedy(words[..|words| - 1], width), words[|words| - 1], width)
  }

  lemma TextAppend(line: seq<string>, word: string)
    requires line != []
    ensures Text(line + [word]) == Text(line) + " " + word
  {
    assert (line + [word])[..|line|] == line;
  }

  lemma ConcatAppend(lines: seq<seq<string>>, line: seq<string>)
    ensures Concat(lines + [line]) == Concat(lines) + line
  {
    assert (lines + [line])[..|lines|] == lines;
  }

  lemma PlaceKeepsLayout(lines: seq<seq<string>>, words: seq<string>, word: string, width: int)
    requires lines != [] && Layout(lines, words, width)
    ensures Layout(Place(lines, word, width), words + [word], width)
  {
    var n := |lines| - 1;
    TextAppend(lines[n], word);
    ConcatAppend(lines, [word]);
    ConcatAppend(lines[..n], lines[n] + [word]);
    assert Concat(lines) == Concat(lines[..n]) + lines[n];
    assert Concat(lines[..n]) + (lines[n] + [word]) == words + [word];
  }

  /** The greedy lines hold the words in order and respect the width. */
  lemma {:induction false} GreedyIsLayout(words: seq<string>, width: int)
    ensures Layout(Greedy(words, width), words, width)
    decreases |words|
  {
    if |words| == 1 {
      ConcatAppend([], [words[0]]);
      assert [] + [[words[0]]] == [[words[0]]];
      assert Concat([[words[0]]]) == words;
    } else if |words| > 1 {
      var n := |words| - 1;
      GreedyIsLayout(words[..n], width);
      PlaceKeepsLayout(Greedy(words[..n], width), words[..n], words[n], width);
      assert words[..n] + [words[n]] == words;
    }
  }

  // ----- the fewest lines -----

  /** At least as good as `b`: fewer lines, or as many with no longer a last line. */
  predicate Ahead(a: seq<seq<string>>, b: seq<seq<string>>)
    requires a != [] && b != []
  {
    |a| < |b| || (|a| == |b| && |Text(a[|a| - 1])| <= |Text(b[|b| - 1])|)
  }

  lemma LayoutNonEmpty(lines: seq<seq<string>>, words: seq<string>, width: int)
    requires Layout(lines, words, width) && words != []
    ensures lines != []
  {
  }

  /** A layout that puts the last word on a line of its own. */
  lemma DropLastLine(lines: seq<seq<string>>, words: seq<string>, width: int)
    requires Layout(lines, words, width) && words != [] && lines != [] && |lines[|lines| - 1]| == 1
    ensures Layout(lines[..|lines| - 1], words[..|words| - 1], width)
    ensures lines == lines[..|lines| - 1] + [[words[|words| - 1]]]
  {
    var n := |lines| - 1;
    assert Concat(lines) == Concat(lines[..n]) + lines[n];
    assert lines[n] == [words[|words| - 1]];
  }

  /** A layout that puts it behind other words: without it, a layout of the rest. */
  lemma DropLastWord(lines: seq<seq<string>>, words: seq<string>, width: int)
    requires Layout(lines, words, width) && words != [] && lines != [] && |lines[|lines| - 1]| > 1
    ensures var n, m := |lines| - 1, |lines[|lines| - 1]| - 1;
            && Layout(lines[..n] + [lines[n][..m]], words[..|words| - 1], width)
            && lines == lines[..n] + [lines[n][..m] + [words[|words| - 1]]]
            && |Text(lines[n][..m])| + 1 + |words[|words| - 1]| <= width
  {
    var n, m, w := |lines| - 1, |lines[|lines| - 1]| - 1, |words| - 1;
    var line := lines[n];
    assert line[m] == words[w] && Concat(lines[..n]) + line[..m] == words[..w] by {
      LastWordOf(Concat(lines[..n]), line, words);
    }
    FitsShorter(line, width);
    LastLineReplaced(lines, line[..m], words[..w], width);
    assert line == line[..m] + [line[m]];
    assert lines == lines[..n] + [line];
  }

  lemma FitsShorter(line: seq<string>, width: int)
    requires Fits(line, width) && |line| > 1
    ensures var m := |line| - 1; Fits(line[..m], width) && |Text(line[..m])| + 1 + |line[m]| <= width
  {
  }

  lemma LastLineReplaced(lines: seq<seq<string>>, line: seq<string>, words: seq<string>, width: int)
    requires lines != [] && Fits(line, width) && Concat(lines[..|lines| - 1]) + line == words
    requires forall i :: 0 <= i < |lines| ==> Fits(lines[i], width)
    ensures Layout(lines[..|lines| - 1] + [line], words, width)
  {
    ConcatAppend(lines[..|lines| - 1], line);
  }

  lemma LastWordOf(before: seq<string>, line: seq<string>, words: seq<string>)
    requires before + line == words && line != []
    ensures words != [] && line[|line| - 1] == words[|words| - 1]
    ensures before + line[..|line| - 1] == words[..|words| - 1]
  {
  }

  /** Placing a word stays ahead of putting it on a line of its own. */
  lemma AheadOfNewLine(g: seq<seq<string>>, rest: seq<seq<string>>, word: string, width: int)
    requires g != [] && rest != [] && Ahead(g, rest)
    ensures Ahead(Place(g, word, width), rest + [[word]])
  {
    assert Text([word]) == word;
  }

  /** It stays ahead of putting the word behind others where it fits. */
  lemma AheadOfSameLine(g: seq<seq<string>>, rest: seq<seq<string>>, line: seq<string>, word: string, width: int)
    requires g != [] && g[|g| - 1] != [] && line != [] && Ahead(g, rest + [line]) && |Text(line)| + 1 + |word| <= width
    ensures Ahead(Place(g, word, width), rest + [line + [word]])
  {
    TextAppend(g[|g| - 1], word);
    TextAppend(line, word);
    assert Text([word]) == word;
  }

  lemma OnlyWord(lines: seq<seq<string>>, words: seq<string>, width: int)
    requires Layout(lines, words, width) && |words| == 1 && lines != []
    ensures Ahead([[words[0]]], lines)
  {
    var n := |lines| - 1;
    assert Concat(lines) == Concat(lines[..n]) + lines[n];
    assert lines[n] == [words[0]];
  }

  /** The greedy lines stay ahead of every layout, one word at a time. */
  lemma {:induction false} GreedyStaysAhead(words: seq<string>, width: int, lines: seq<seq<string>>)
    requires words != [] && Layout(lines, words, width)
    ensures lines != [] && Ahead(Greedy(words, width), lines)
    decreases |words|
  {
    LayoutNonEmpty(lines, words, width);
    var n, w := |lines| - 1, |words| - 1;
    var last := lines[n];
    if |words| == 1 {
      OnlyWord(lines, words, width);
    } else {
      var g := Greedy(words[..w], width);
      if |last| == 1 {
        DropLastLine(lines, words, width);
        GreedyStaysAhead(words[..w], width, lines[..n]);
        AheadOfNewLine(g, lines[..n], words[w], width);
      } else {
        var m := |last| - 1;
        DropLastWord(lines, words, width);
        GreedyStaysAhead(words[..w], width, lines[..n] + [last[..m]]);
        GreedyIsLayout(words[..w], width);
        AheadOfSameLine(g, lines[..n], last[..m], words[w], width);
      }
    }
  }

  /** No way of breaking the words within the width takes fewer lines. */
  lemma GreedyUsesFewestLines(words: seq<string>, width: int, lines: seq<seq<string>>)
    requires Layout(lines, words, width)
    ensures |Greedy(words, width)| <= |lines|
  {
    if words != [] {
      GreedyStaysAhead(words, width, lines);
    }
  }

  // ----- the loop -----

  lemma RenderAppend(lines: seq<seq<string>>, line: seq<string>, indent: string)
    requires lines != []
    ensures Render(lines + [line], indent) == Render(lines, indent) + "\n" + (indent + Text(line))
  {
    assert (lines + [line])[..|lines|] == lines;
  }

  /** Adding a word to the last line adds it to the end of the output. */
  lemma RenderExtend(lines: seq<seq<string>>, word: string, indent: string)
    requires lines != [] && lines[|lines| - 1] != []
    ensures var n := |lines| - 1;
            Render(lines[..n] + [lines[n] + [word]], indent) == Render(lines, indent) + " " + word
  {
    var n := |lines| - 1;
    var line := lines[n];
    TextAppend(line, word);
    if n == 0 {
      assert lines[..n] + [line + [word]] == [line + [word]];
      assert lines == [line];
      assert indent + (Text(line) + " " + word) == indent + Text(line) + " " + word;
    } else {
      RenderAppend(lines[..n], line + [word], indent);
      RenderAppend(lines[..n], line, indent);
      assert lines[..n] + [line] == lines;
      var r := Render(lines[..n], indent);
      assert r + "\n" + (indent + (Text(line) + " " + word)) == r + "\n" + (indent + Text(line)) + " " + word;
    }
  }

  /** The loop's variables: the output for the lines so far, and the length of the last. */
  ghost predicate Tracks(lines: seq<seq<string>>, result: string, col: int, indent: string) {
    && lines != [] && lines[|lines| - 1] != []
    && result == Render(lines, indent)
    && col == |Text(lines[|lines| - 1])|
  }

  lemma TracksNewLine(lines: seq<seq<string>>, result: string, col: int, indent: string, word: string)
    requires Tracks(lines, result, col, indent)
    ensures Tracks(lines + [[word]], result + ("\n" + indent + word), |word|, indent)
  {
    RenderAppend(lines, [word], indent);
    assert result + ("\n" + indent + word) == result + "\n" + (indent + word);
  }

  lemma TracksSameLine(lines: seq<seq<string>>, result: string, col: int, indent: string, word: string)
    requires Tracks(lines, result, col, indent)
    ensures var n := |lines| - 1;
            Tracks(lines[..n] + [lines[n] + [word]], result + (" " + word), col + 1 + |word|, indent)
  {
    TextAppend(lines[|lines| - 1], word);
    RenderExtend(lines, word, indent);
    assert result + (" " + word) == result + " " + word;
  }

  method WrapWords(words: seq<string>, width: int, indent: string) returns (result: string)
    requires words != []
    ensures result == Render(Greedy(words, width), indent)
  {
    result := indent + words[0];
    var col := |words[0]|;
    ghost var lines := [[words[0]]];
    assert words[..1] == [words[0]];
    for i := 1 to |words|
      invariant lines == Greedy(words[..i], width)
      invariant Tracks(lines, result, col, indent)
    {
      var word := words[i];
      assert words[..i + 1][..i] == words[..i];
      ghost var before := lines;
      lines := Place(lines, word, width);
      if col + |word| + 1 > width {
        TracksNewLine(before, result, col, indent, word);
        result := result + ("\n" + indent + word);
        col := |word|;
      } else {
        TracksSameLine(before, result, col, indent, word);
        result := result + (" " + word);
        col := col + 1 + |word|;
      }
    }
    assert words[..|words|] == words;
  }

  method Wrap(text: string, width: int, indent: string) returns (result: string)
    ensures result == Render(Greedy(Fields(text), width), indent)
  {
    var words := Fields(text);
    if |words| == 0 {
      return "";
    }
    result := WrapWords(words, width, indent);
  }

  // ----- reading the output back -----

  lemma {:induction false} FieldsOfText(line: seq<string>)
    requires AllWords(line)
    ensures Fields(Text(line)) == line
    decreases |line|
  {
    if |line| == 1 {
      FieldsOfWord([], line[0]);
      assert [] + line[0] == line[0];
    } else if |line| > 1 {
      var n := |line| - 1;
      FieldsOfText(line[..n]);
      FieldsCut([], Text(line[..n]), ' ', line[n]);
      FieldsOfWord([], line[n]);
      assert [] + line[n] == line[n];
      assert Text(line) == Text(line[..n]) + [' '] + line[n];
    }
  }

  lemma {:induction false} FieldsOfRender(lines: seq<seq<string>>, indent: string)
    requires Blank(indent) && AllWords(Concat(lines))
    ensures Fields(Render(lines, indent)) == Concat(lines)
    decreases |lines|
  {
    if lines != [] {
      var n := |lines| - 1;
      assert Concat(lines) == Concat(lines[..n]) + lines[n];
      assert AllWords(Concat(lines[..n])) by {
        forall i | 0 <= i < |Concat(lines[..n])| ensures IsWord(Concat(lines[..n])[i]) {
          assert Concat(lines)[i] == Concat(lines[..n])[i];
        }
      }
      assert AllWords(lines[n]) by {
        forall i | 0 <= i < |lines[n]| ensures IsWord(lines[n][i]) {
          assert Concat(lines)[|Concat(lines[..n])| + i] == lines[n][i];
        }
      }
      FieldsOfText(lines[n]);
      FieldsSkipBlank(indent, Text(lines[n]));
      if n > 0 {
        FieldsOfRender(lines[..n], indent);
        FieldsCut([], Render(lines[..n], indent), '\n', indent + Text(lines[n]));
        assert Render(lines, indent) == Render(lines[..n], indent) + ['\n'] + (indent + Text(lines[n]));
      } else {
        assert Concat(lines[..0]) == [];
      }
    }
  }

  /** The number of characters that are not white space. */
  function Ink(s: string): nat {
    if s == [] then 0 else Ink(s[..|s| - 1]) + if IsSpace(s[|s| - 1]) then 0 else 1
  }

  function InkOf(words: seq<string>): nat {
    if words == [] then 0 else InkOf(words[..|words| - 1]) + |words[|words| - 1]|
  }

  lemma {:induction false} InkAppend(a: string, b: string)
    ensures Ink(a + b) == Ink(a) + Ink(b)
    decreases |b|
  {
    if b == [] {
      assert a + b == a;
    } else {
      assert (a + b)[..|a + b| - 1] == a + b[..|b| - 1];
      InkAppend(a, b[..|b| - 1]);
    }
  }

  lemma {:induction false} InkOfAppend(a: seq<string>, b: seq<string>)
    ensures InkOf(a + b) == InkOf(a) + InkOf(b)
    decreases |b|
  {
    if b == [] {
      assert a + b == a;
    } else {
      assert (a + b)[..|a + b| - 1] == a + b[..|b| - 1];
      InkOfAppend(a, b[..|b| - 1]);
    }
  }

  lemma {:induction false} InkOfInked(w: string)
    requires forall i :: 0 <= i < |w| ==> !IsSpace(w[i])
    ensures Ink(w) == |w|
    decreases |w|
  {
    if w != [] { InkOfInked(w[..|w| - 1]); }
  }

  lemma {:induction false} InkedIfNotBlank(s: string)
    ensures Ink(s) == 0 <==> Blank(s)
    decreases |s|
  {
    if s != [] {
      var n := |s| - 1;
      InkedIfNotBlank(s[..n]);
      if Blank(s[..n]) && IsSpace(s[n]) {
        forall i | 0 <= i < |s| ensures IsSpace(s[i]) {
          if i < n { assert s[..n][i] == s[i]; }
        }
      }
      if Blank(s) {
        forall i | 0 <= i < n ensures IsSpace(s[..n][i]) {}
      }
    }
  }

  /** Splitting into fields loses white space only. */
  lemma {:induction false} FieldsKeepInk(cur: string, s: string)
    requires forall i :: 0 <= i < |cur| ==> !IsSpace(cur[i])
    ensures InkOf(FieldsFrom(cur, s)) == |cur| + Ink(s)
    decreases |s|
  {
    if s == [] {
      assert [cur][..0] == [];
    } else {
      var first := if cur == [] then [] else [cur];
      InkAppend([s[0]], s[1..]);
      assert [s[0]] + s[1..] == s;
      assert [s[0]][..0] == [];
      if IsSpace(s[0]) {
        FieldsKeepInk([], s[1..]);
        InkOfAppend(first, FieldsFrom([], s[1..]));
        assert [cur][..0] == [];
        assert InkOf(first) == |cur|;
      } else {
        FieldsKeepInk(cur + [s[0]], s[1..]);
      }
    }
  }

  lemma {:induction false} InkOfText(line: seq<string>)
    requires AllWords(line)
    ensures Ink(Text(line)) == InkOf(line)
    decreases |line|
  {
    if |line| == 1 {
      InkOfInked(line[0]);
      assert line[..0] == [];
    } else if |line| > 1 {
      var n := |line| - 1;
      InkOfText(line[..n]);
      InkOfInked(line[n]);
      InkAppend(Text(line[..n]) + " ", line[n]);
      InkAppend(Text(line[..n]), " ");
      assert " "[..0] == [];
    }
  }

  lemma {:induction false} InkOfRender(lines: seq<seq<string>>, indent: string)
    requires lines != [] && forall i :: 0 <= i < |lines| ==> AllWords(lines[i])
    ensures Ink(Render(lines, indent)) >= InkOf(Concat(lines)) + Ink(indent)
    decreases |lines|
  {
    var n := |lines| - 1;
    var line := indent + Text(lines[n]);
    InkOfText(lines[n]);
    InkAppend(indent, Text(lines[n]));
    InkOfAppend(Concat(lines[..n]), lines[n]);
    if n == 0 {
      assert Concat(lines[..0]) == [];
    } else {
      var before := Render(lines[..n], indent);
      InkOfRender(lines[..n], indent);
      InkAppend(before + "\n", line);
      InkAppend(before, "\n");
    }
  }

  lemma {:induction false} LinesAreWords(lines: seq<seq<string>>)
    requires AllWords(Concat(lines))
    ensures forall i :: 0 <= i < |lines| ==> AllWords(lines[i])
    decreases |lines|
  {
    if lines != [] {
      var n := |lines| - 1;
      var before := Concat(lines[..n]);
      assert Concat(lines) == before + lines[n];
      forall i | 0 <= i < |before| ensures IsWord(before[i]) {
        assert Concat(lines)[i] == before[i];
      }
      LinesAreWords(lines[..n]);
      forall j | 0 <= j < |lines[n]| ensures IsWord(lines[n][j]) {
        assert Concat(lines)[|before| + j] == lines[n][j];
      }
    }
  }

  /** Reading back what was rendered gives the words, unless the indent shows. */
  lemma RenderPreservesWords(words: seq<string>, lines: seq<seq<string>>, indent: string)
    requires AllWords(words) && words != [] && Concat(lines) == words
    ensures Fields(Render(lines, indent)) == words <==> Blank(indent)
  {
    if Blank(indent) {
      FieldsOfRender(lines, indent);
    } else {
      LinesAreWords(lines);
      InkOfRender(lines, indent);
      InkedIfNotBlank(indent);
      FieldsKeepInk([], Render(lines, indent));
    }
  }

  /** Wrapping preserves the words: reading the output back gives the words of the
      input, if and only if the indent is blank (or there are no words). */
  lemma WrapPreservesWords(text: string, width: int, indent: string)
    ensures Fields(Render(Greedy(Fields(text), width), indent)) == Fields(text)
       <==> Blank(indent) || Fields(text) == []
  {
    var words := Fields(text);
    FieldsAreWords([], text);
    GreedyIsLayout(words, width);
    if words != [] {
      RenderPreservesWords(words, Greedy(words, width), indent);
    }
  }

  // ----- the lines of the output -----

  /** The text cut at its newlines. */
  function SplitLines(s: string): (ls: seq<string>)
    ensures |ls| > 0
    decreases |s|
  {
    if s == [] then [[]]
    else if s[0] == '\n' then [[]] + SplitLines(s[1..])
    else
      var ls := SplitLines(s[1..]);
      [[s[0]] + ls[0]] + ls[1..]
  }

  predicate OneLine(s: string) {
    forall i :: 0 <= i < |s| ==> s[i] != '\n'
  }

  lemma {:induction false} SplitOneLine(s: string)
    requires OneLine(s)
    ensures SplitLines(s) == [s]
    decreases |s|
  {
    if s != [] {
      SplitOneLine(s[1..]);
      assert [s[0]] + s[1..] == s;
    }
  }

  lemma {:induction false} SplitAtNewline(a: string, b: string)
    ensures SplitLines(a + "\n" + b) == SplitLines(a) + SplitLines(b)
    decreases |a|
  {
    var s := a + "\n" + b;
    if a == [] {
      assert s[1..] == b;
    } else {
      assert s[1..] == a[1..] + "\n" + b;
      SplitAtNewline(a[1..], b);
    }
  }

  /** The only white space is single blanks between other characters. */
  predicate Spaced(s: string) {
    && s != [] && !IsSpace(s[0]) && !IsSpace(s[|s| - 1])
    && forall i :: 0 <= i < |s| - 1 && IsSpace(s[i]) ==> s[i] == ' ' && !IsSpace(s[i + 1])
  }

  lemma {:induction false} TextIsSpaced(line: seq<string>)
    requires AllWords(line) && line != []
    ensures Spaced(Text(line))
    decreases |line|
  {
    if |line| > 1 {
      var n := |line| - 1;
      TextIsSpaced(line[..n]);
      SpacedJoins(Text(line[..n]), line[n]);
    }
  }

  lemma SpacedJoins(a: string, w: string)
    requires Spaced(a) && IsWord(w)
    ensures Spaced(a + " " + w)
  {
    var s := a + " " + w;
    assert s[|a|] == ' ' && s[|a| + 1] == w[0] && s[|s| - 1] == w[|w| - 1];
    forall i | 0 <= i < |s| - 1 && IsSpace(s[i]) ensures s[i] == ' ' && !IsSpace(s[i + 1]) {
      if i < |a| - 1 { assert s[i] == a[i] && s[i + 1] == a[i + 1]; }
    }
  }

  /** Cut at newlines, the output is the lines, each behind the indent. */
  lemma {:induction false} SplitRender(lines: seq<seq<string>>, indent: string)
    requires lines != [] && OneLine(indent) && forall i :: 0 <= i < |lines| ==> AllWords(lines[i]) && lines[i] != []
    ensures SplitLines(Render(lines, indent)) == seq(|lines|, i requires 0 <= i < |lines| => indent + Text(lines[i]))
    decreases |lines|
  {
    var n := |lines| - 1;
    var last := indent + Text(lines[n]);
    TextIsSpaced(lines[n]);
    SplitOneLine(last);
    if n > 0 {
      SplitRender(lines[..n], indent);
      SplitAtNewline(Render(lines[..n], indent), last);
    }
  }

  /** A line of the output: the indent, and then words, within the width unless there is only
      one of them. */
  predicate IsOutputLine(line: string, indent: string, width: int) {
    && indent < line
    && var rest := line[|indent|..];
       Spaced(rest) && (|rest| <= width || forall i :: 0 <= i < |rest| ==> !IsSpace(rest[i]))
  }

  /** What is printed, for an indent without a newline: cut at newlines it has as few lines as
      the words can be broken into within the width, each begins with the indent and goes on
      with words at single blanks, and none is longer than the width behind the indent unless
      it is one word. */
  lemma WrappedLines(text: string, width: int, indent: string)
    requires OneLine(indent) && Fields(text) != []
    ensures var words := Fields(text);
            var out := SplitLines(Render(Greedy(words, width), indent));
            && |out| == |Greedy(words, width)|
            && (forall lines :: Layout(lines, words, width) ==> |out| <= |lines|)
            && forall i :: 0 <= i < |out| ==> IsOutputLine(out[i], indent, width)
  {
    var words := Fields(text);
    var lines := Greedy(words, width);
    FieldsAreWords([], text);
    GreedyIsLayout(words, width);
    LinesAreWords(lines);
    SplitRender(lines, indent);
    forall i | 0 <= i < |lines| ensures IsOutputLine(indent + Text(lines[i]), indent, width) {
      TextIsSpaced(lines[i]);
      assert (indent + Text(lines[i]))[|indent|..] == Text(lines[i]);
    }
    forall other | Layout(other, words, width) ensures |lines| <= |other| {
      GreedyUsesFewestLines(words, width, other);
    }
  }
}
