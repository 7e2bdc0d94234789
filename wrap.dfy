/**
 * The greedy word wrapper `wrapText` of the terminal front-end.
 *
 * The text is split into words (`strings.Fields`); words are packed onto a
 * line as long as the line, with one space before the new word, stays within
 * `width` characters; a word is never split, so a word wider than `width`
 * gets a line of its own.  Lines are joined with newlines.  A non-positive
 * width, or a text without words, is returned unchanged.
 *
 * A line is modelled by the group of words it holds; the line itself is the
 * group joined with single spaces.
 */
module Wrap {
  import opened GoStrings

  /** A line's text: its words separated by single spaces. */
  function LineText(group: seq<string>): string {
    Join(group, " ")
  }

  /** The texts of all lines. */
  function LinesOf(groups: seq<seq<string>>): (lines: seq<string>)
    ensures |lines| == |groups|
    ensures forall i :: 0 <= i < |groups| ==> lines[i] == LineText(groups[i])
  {
    seq(|groups|, i requires 0 <= i < |groups| => LineText(groups[i]))
  }

  /** All the words of all the groups, in order. */
  function Concat(groups: seq<seq<string>>): seq<string> {
    if groups == [] then [] else groups[0] + Concat(groups[1..])
  }

  /**
   * The packing the loop of `wrapText` produces once the current line holds
   * `cur` and `rest` is still to be placed: the next word joins the current
   * line when the extended line fits in `width`, and otherwise starts a new one.
   */
  function PackFrom(cur: seq<string>, rest: seq<string>, width: int): seq<seq<string>>
    decreases |rest|
  {
    if rest == [] then [cur]
    else if |LineText(cur + [rest[0]])| <= width then PackFrom(cur + [rest[0]], rest[1..], width)
    else [cur] + PackFrom([rest[0]], rest[1..], width)
  }

  /** The lines (as word groups) of the greedy packing of `words`. */
  function Pack(words: seq<string>, width: int): seq<seq<string>> {
    if words == [] then [] else PackFrom([words[0]], words[1..], width)
  }

  /** The string `wrapText(text, width)` returns. */
  function Wrapped(text: string, width: int): string {
    if width <= 0 then text
    else
      var words := Fields(text);
      if words == [] then text
      else Join(LinesOf(Pack(words, width)), "\n")
  }

  /** A line of two or more words fits in `width`. */
  predicate Fits(group: seq<string>, width: int) {
    |group| > 1 ==> |LineText(group)| <= width
  }

  /** A line break is forced: the next word, after a space, would not fit. */
  predicate BreakForced(group: seq<string>, next: string, width: int) {
    |LineText(group)| + 1 + |next| > width
  }

  /**
   * `groups` is a greedy packing of `words`: the lines hold the words in
   * order, none is empty, every line of several words fits, and every line
   * ends only because its successor's first word would not fit on it.
   */
  predicate GreedyPacking(words: seq<string>, width: int, groups: seq<seq<string>>) {
    && Concat(groups) == words
    && (forall i :: 0 <= i < |groups| ==> groups[i] != [] && Fits(groups[i], width))
    && (forall i :: 1 <= i < |groups| ==> BreakForced(groups[i - 1], groups[i][0], width))
  }

  /** `wrapText` (main.go): the greedy loop over the words of `text`. */
  method WrapText(text: string, width: int) returns (r: string)
    ensures r == Wrapped(text, width)
  {
    if width <= 0 {
      return text;
    }
    var words := Fields(text);
    if |words| == 0 {
      return text;
    }
    var lines: seq<string> := [];
    var currentLine: string := "";
    ghost var done: seq<seq<string>> := [];
    ghost var cur: seq<string> := [];
    var i := 0;
    while i < |words|
      invariant 0 <= i <= |words|
      invariant i == 0 ==> currentLine == "" && done == [] && cur == []
      invariant i > 0 ==> cur != [] && currentLine == LineText(cur) && currentLine != ""
      invariant lines == LinesOf(done)
      invariant i > 0 ==> done + PackFrom(cur, words[i..], width) == Pack(words, width)
    {
      var word := words[i];
      assert IsWord(word);
      assert LineText([word]) == word;
      var testLine := currentLine;
      if testLine != "" {
        testLine := testLine + " ";
      }
      testLine := testLine + word;
      assert words[i..][1..] == words[i + 1..];
      if i > 0 {
        JoinAppend(cur, [word], " ");
        assert testLine == LineText(cur + [word]);
      }
      if |testLine| <= width {
        if i > 0 {
          assert PackFrom(cur, words[i..], width) == PackFrom(cur + [word], words[i + 1..], width);
        }
        if i == 0 {
          assert cur + [word] == [word];
        }
        currentLine := testLine;
        cur := cur + [word];
      } else {
        if currentLine != "" {
          assert PackFrom(cur, words[i..], width) == [cur] + PackFrom([word], words[i + 1..], width);
          assert done + PackFrom(cur, words[i..], width) == (done + [cur]) + PackFrom([word], words[i + 1..], width);
          assert LinesOf(done + [cur]) == LinesOf(done) + [currentLine];
          lines := lines + [currentLine];
          done := done + [cur];
        }
        currentLine := word;
        cur := [word];
      }
      i := i + 1;
    }
    assert words[i..] == [];
    if currentLine != "" {
      assert LinesOf(done + [cur]) == LinesOf(done) + [currentLine];
      lines := lines + [currentLine];
      done := done + [cur];
    }
    assert done == Pack(words, width);
    r := Join(lines, "\n");
  }

  // ---------------------------------------------------------------------
  // The packing is greedy, and the greedy packing is unique.

  /** Every line the packing loop produces from `cur` onwards is a greedy line. */
  lemma {:induction false} PackFromGreedy(cur: seq<string>, rest: seq<string>, width: int)
    requires cur != [] && Fits(cur, width)
    ensures var g := PackFrom(cur, rest, width);
      && g != []
      && |cur| <= |g[0]| && g[0][..|cur|] == cur
      && GreedyPacking(cur + rest, width, g)
    decreases |rest|
  {
    if rest == [] {
      assert cur + rest == cur;
      assert [cur][1..] == [];
    } else {
      var w := rest[0];
      JoinAppend(cur, [w], " ");
      assert [w] + rest[1..] == rest;
      if |LineText(cur + [w])| <= width {
        PackFromGreedy(cur + [w], rest[1..], width);
        assert (cur + [w]) + rest[1..] == cur + rest;
        var g := PackFrom(cur, rest, width);
        assert g[0][..|cur|] == g[0][..|cur| + 1][..|cur|];
      } else {
        var tail := PackFrom([w], rest[1..], width);
        PackFromGreedy([w], rest[1..], width);
        assert tail[0][0] == tail[0][..1][0];
        var g := [cur] + tail;
        assert g == PackFrom(cur, rest, width);
        assert g[1..] == tail;
        assert Concat(g) == cur + rest;
        forall i | 0 <= i < |g|
          ensures g[i] != [] && Fits(g[i], width)
        {
          if i > 0 {
            assert g[i] == tail[i - 1];
          }
        }
        forall i | 1 <= i < |g|
          ensures BreakForced(g[i - 1], g[i][0], width)
        {
          if i > 1 {
            assert g[i] == tail[i - 1] && g[i - 1] == tail[i - 2];
          }
        }
      }
    }
  }

  /** The packing `wrapText` computes is a greedy packing of the words. */
  lemma PackGreedy(words: seq<string>, width: int)
    ensures GreedyPacking(words, width, Pack(words, width))
  {
    if words != [] {
      PackFromGreedy([words[0]], words[1..], width);
      assert [words[0]] + words[1..] == words;
    }
  }

  /** Dropping the first line of a greedy packing leaves a greedy packing of the remaining words. */
  lemma GreedyTail(words: seq<string>, width: int, g: seq<seq<string>>)
    requires GreedyPacking(words, width, g) && g != []
    ensures |g[0]| <= |words| && words[..|g[0]|] == g[0]
    ensures GreedyPacking(words[|g[0]|..], width, g[1..])
  {
    assert words == g[0] + Concat(g[1..]);
    assert words[|g[0]|..] == Concat(g[1..]);
    forall i | 0 <= i < |g[1..]|
      ensures g[1..][i] != [] && Fits(g[1..][i], width)
    {
      assert g[1..][i] == g[i + 1];
    }
    forall i | 1 <= i < |g[1..]|
      ensures BreakForced(g[1..][i - 1], g[1..][i][0], width)
    {
      assert g[1..][i] == g[i + 1] && g[1..][i - 1] == g[i];
    }
  }

  /** A line's prefix of at least one word is no wider than the line. */
  lemma LinePrefixWidth(b: seq<string>, k: nat)
    requires 1 <= k <= |b|
    ensures |LineText(b[..k])| <= |LineText(b)|
  {
    if k < |b| {
      assert b == b[..k] + b[k..];
      JoinAppend(b[..k], b[k..], " ");
    } else {
      assert b[..k] == b;
    }
  }

  /** In two greedy packings of the same words, neither first line is longer than the other's. */
  lemma FirstLineNotShorter(words: seq<string>, width: int, g: seq<seq<string>>, h: seq<seq<string>>)
    requires GreedyPacking(words, width, g) && GreedyPacking(words, width, h)
    requires g != [] && h != []
    ensures |g[0]| >= |h[0]|
  {
    var a, b := g[0], h[0];
    var n := |a|;
    if n < |b| {
      GreedyTail(words, width, g);
      GreedyTail(words, width, h);
      assert words[..|b|][..n] == a;
      var x := g[1][0];
      assert g[1..][0] == g[1];
      assert Concat(g[1..]) == g[1] + Concat(g[2..]);
      assert words[n] == x;
      assert b[..n + 1] == a + [x];
      LinePrefixWidth(b, n + 1);
      JoinAppend(a, [x], " ");
      assert false;
    }
  }

  /** There is only one greedy packing of a sequence of words. */
  lemma {:induction false} GreedyUnique(words: seq<string>, width: int, g1: seq<seq<string>>, g2: seq<seq<string>>)
    requires GreedyPacking(words, width, g1) && GreedyPacking(words, width, g2)
    ensures g1 == g2
    decreases |g1|
  {
    if g1 != [] && g2 != [] {
      FirstLineNotShorter(words, width, g1, g2);
      FirstLineNotShorter(words, width, g2, g1);
      GreedyTail(words, width, g1);
      GreedyTail(words, width, g2);
      GreedyUnique(words[|g1[0]|..], width, g1[1..], g2[1..]);
      assert g1 == [g1[0]] + g1[1..];
      assert g2 == [g2[0]] + g2[1..];
    }
  }

  // ---------------------------------------------------------------------
  // What the wrapped text looks like.

  /** The words of each line, read back from the line texts. */
  function LineWords(lines: seq<string>): (groups: seq<seq<string>>)
    ensures |groups| == |lines|
    ensures forall i :: 0 <= i < |lines| ==> groups[i] == Fields(lines[i])
  {
    seq(|lines|, i requires 0 <= i < |lines| => Fields(lines[i]))
  }

  /** If all the words of a packing are words, so are the words of each of its lines. */
  lemma {:induction false} ConcatAllWords(groups: seq<seq<string>>)
    requires AllWords(Concat(groups))
    ensures forall i :: 0 <= i < |groups| ==> AllWords(groups[i])
    decreases |groups|
  {
    if groups != [] {
      var rest := Concat(groups[1..]);
      assert Concat(groups) == groups[0] + rest;
      assert forall j :: 0 <= j < |groups[0]| ==> groups[0][j] == Concat(groups)[j];
      assert forall j :: 0 <= j < |rest| ==> rest[j] == Concat(groups)[|groups[0]| + j];
      ConcatAllWords(groups[1..]);
      forall i | 1 <= i < |groups|
        ensures AllWords(groups[i])
      {
        assert groups[i] == groups[1..][i - 1];
      }
    }
  }

  /** A line of words holds no newline. */
  lemma LineHasNoNewline(group: seq<string>)
    requires AllWords(group)
    ensures '\n' !in LineText(group)
  {
    forall i | 0 <= i < |group|
      ensures '\n' !in group[i]
    {
      assert forall j :: 0 <= j < |group[i]| ==> !IsSpace(group[i][j]);
    }
    JoinAvoids(group, " ", '\n');
  }

  /** The fields of the newline-joined lines are the words of all lines. */
  lemma {:induction false} FieldsOfLines(groups: seq<seq<string>>)
    requires forall i :: 0 <= i < |groups| ==> AllWords(groups[i])
    ensures Fields(Join(LinesOf(groups), "\n")) == Concat(groups)
    decreases |groups|
  {
    if |groups| == 1 {
      FieldsOfJoinedWords(groups[0], ' ');
      assert groups[1..] == [];
      assert Concat(groups) == groups[0];
    } else if |groups| > 1 {
      FieldsOfJoinedWords(groups[0], ' ');
      assert LinesOf(groups)[1..] == LinesOf(groups[1..]);
      FieldsAround(LineText(groups[0]), '\n', Join(LinesOf(groups[1..]), "\n"));
      FieldsOfLines(groups[1..]);
    }
  }

  /** The lines of the greedy packing of some words, and what they are made of. */
  lemma PackLines(words: seq<string>, width: int)
    requires words != [] && AllWords(words)
    ensures var g := Pack(words, width);
      && GreedyPacking(words, width, g)
      && (forall i :: 0 <= i < |g| ==> AllWords(g[i]))
      && Split(Join(LinesOf(g), "\n"), '\n') == LinesOf(g)
      && LineWords(LinesOf(g)) == g
      && Fields(Join(LinesOf(g), "\n")) == words
  {
    var g := Pack(words, width);
    PackGreedy(words, width);
    ConcatAllWords(g);
    forall i | 0 <= i < |g|
      ensures '\n' !in LinesOf(g)[i] && Fields(LinesOf(g)[i]) == g[i]
    {
      LineHasNoNewline(g[i]);
      FieldsOfJoinedWords(g[i], ' ');
    }
    SplitJoin(LinesOf(g), '\n');
    FieldsOfLines(g);
  }

  /** Wrapping returns its input unchanged when the width is not positive or the text has no words. */
  lemma WrapDegenerate(text: string, width: int)
    ensures width <= 0 || Fields(text) == [] ==> Wrapped(text, width) == text
    ensures Wrapped("", width) == ""
  {
  }

  /** Wrapping keeps the words of the text, in the same order. */
  lemma WrapFields(text: string, width: int)
    ensures Fields(Wrapped(text, width)) == Fields(text)
  {
    if width > 0 && Fields(text) != [] {
      PackLines(Fields(text), width);
    }
  }

  /**
   * The lines of the wrapped text are a greedy packing of the words of the
   * text, each line being its words separated by single spaces.
   */
  lemma WrapIsGreedy(text: string, width: int)
    requires width > 0 && Fields(text) != []
    ensures var lines := Split(Wrapped(text, width), '\n');
      && GreedyPacking(Fields(text), width, LineWords(lines))
      && forall i :: 0 <= i < |lines| ==> lines[i] == LineText(Fields(lines[i]))
  {
    PackLines(Fields(text), width);
  }

  /**
   * Every line of the wrapped text is non-empty, and a line wider than
   * `width` is a single word; every line break was forced by the next word.
   */
  lemma WrapLineWidth(text: string, width: int)
    requires width > 0 && Fields(text) != []
    ensures var lines := Split(Wrapped(text, width), '\n');
      && (forall i :: 0 <= i < |lines| ==> lines[i] != "" && (|lines[i]| > width ==> Fields(lines[i]) == [lines[i]]))
      && (forall i :: 1 <= i < |lines| ==> Fields(lines[i]) != [] && |lines[i - 1]| + 1 + |Fields(lines[i])[0]| > width)
  {
    var lines := Split(Wrapped(text, width), '\n');
    WrapIsGreedy(text, width);
    var g := LineWords(lines);
    forall i | 0 <= i < |lines|
      ensures lines[i] != "" && (|lines[i]| > width ==> Fields(lines[i]) == [lines[i]])
    {
      assert g[i] != [] && Fits(g[i], width);
      if |g[i]| == 1 {
        assert lines[i] == g[i][0];
      } else {
        assert LineText(g[i]) == g[i][0] + " " + LineText(g[i][1..]);
      }
    }
  }

  /** Wrapping already-wrapped text at the same width changes nothing. */
  lemma WrapIdempotent(text: string, width: int)
    ensures Wrapped(Wrapped(text, width), width) == Wrapped(text, width)
  {
    WrapFields(text, width);
  }

  /** Once the current line is non-empty, a word at least `width` wide never joins it. */
  lemma {:induction false} PackFromLongWords(cur: seq<string>, rest: seq<string>, width: int)
    requires width > 0 && cur != [] && |LineText(cur)| >= 1
    requires forall i :: 0 <= i < |rest| ==> |rest[i]| >= width
    ensures |PackFrom(cur, rest, width)| == 1 + |rest|
    decreases |rest|
  {
    if rest != [] {
      JoinAppend(cur, [rest[0]], " ");
      assert |LineText(cur + [rest[0]])| > width;
      assert LineText([rest[0]]) == rest[0];
      PackFromLongWords([rest[0]], rest[1..], width);
    }
  }

  /** Words each at least `width` wide, separated by spaces, wrap to one line per word. */
  lemma LongWordsOnePerLine(words: seq<string>, width: int)
    requires width > 0 && words != [] && AllWords(words)
    requires forall i :: 0 <= i < |words| ==> |words[i]| >= width
    ensures |Split(Wrapped(Join(words, " "), width), '\n')| == |words|
  {
    FieldsOfJoinedWords(words, ' ');
    PackLines(words, width);
    assert LineText([words[0]]) == words[0];
    PackFromLongWords([words[0]], words[1..], width);
  }

  /** "the quick brown fox" at width 10 becomes "the quick" and "brown fox". */
  lemma QuickBrownFox()
    ensures Wrapped("the quick brown fox", 10) == "the quick\nbrown fox"
  {
    FoxFields();
    FoxPack();
    FoxLines();
    WrappedByWords("the quick brown fox", 10, [["the", "quick"], ["brown", "fox"]]);
  }

  lemma FoxLines()
    ensures Join(LinesOf([["the", "quick"], ["brown", "fox"]]), "\n") == "the quick\nbrown fox"
  {
    var the, quick, brown, fox := "the", "quick", "brown", "fox";
    var groups := [[the, quick], [brown, fox]];
    var line1, line2 := LineText([the, quick]), LineText([brown, fox]);
    TwoJoin(the, quick, " ");
    TwoJoin(brown, fox, " ");
    TwoJoin(line1, line2, "\n");
    assert LinesOf(groups) == [line1, line2];
  }

  /** Wrapping at a positive width lays out the greedy packing of the words. */
  lemma WrappedByWords(text: string, width: int, groups: seq<seq<string>>)
    requires width > 0 && Fields(text) != [] && Pack(Fields(text), width) == groups
    ensures Wrapped(text, width) == Join(LinesOf(groups), "\n")
  {
  }

  /** Two parts joined. */
  lemma TwoJoin(a: string, b: string, sep: string)
    ensures Join([a, b], sep) == a + sep + b
  {
    assert [a, b][1..] == [b];
  }

  lemma FoxFields()
    ensures Fields("the quick brown fox") == ["the", "quick", "brown", "fox"]
  {
    var the, quick, brown, fox := "the", "quick", "brown", "fox";
    var words := [the, quick, brown, fox];
    FieldsOfJoinedWords(words, ' ');
    assert words[1..] == [quick, brown, fox];
    assert words[1..][1..] == [brown, fox];
    TwoJoin(brown, fox, [' ']);
    var s := Join(words, [' ']);
    assert s == the + [' '] + (quick + [' '] + (brown + [' '] + fox));
    assert s == "the quick brown fox";
  }

  lemma FoxPack()
    ensures Pack(["the", "quick", "brown", "fox"], 10) == [["the", "quick"], ["brown", "fox"]]
  {
    var the, quick, brown, fox := "the", "quick", "brown", "fox";
    TwoJoin(brown, fox, " ");
    assert PackFrom([brown, fox], [], 10) == [[brown, fox]];
    assert [brown] + [fox] == [brown, fox] && [fox][1..] == [];
    assert PackFrom([brown], [fox], 10) == [[brown, fox]];
    assert [the, quick, brown][1..] == [quick, brown];
    TwoJoin(quick, brown, " ");
    assert |LineText([the, quick, brown])| == 15;
    assert [the, quick] + [brown] == [the, quick, brown] && [brown, fox][1..] == [fox];
    assert PackFrom([the, quick], [brown, fox], 10) == [[the, quick], [brown, fox]];
    TwoJoin(the, quick, " ");
    assert [the] + [quick] == [the, quick] && [quick, brown, fox][1..] == [brown, fox];
    assert PackFrom([the], [quick, brown, fox], 10) == [[the, quick], [brown, fox]];
  }
}
