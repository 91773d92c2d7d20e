/**
 * The text helpers of the kiosk diagnostics panel: `safe_text`, which shows "N/A" for an
 * empty value, and `wrap_text`, a greedy word wrapper that re-flows a text into lines of at
 * most `width` characters, one word at a time.
 */
module SkullText {
  import opened PySeq
  import opened PyStr

  /** `safe_text(s)`: an empty value is shown as "N/A", anything else as it is. */
  function SafeText(s: string): (r: string)
    ensures r != []
    ensures s != [] ==> r == s
    ensures s == [] ==> r == "N/A"
  {
    if s != [] then s else "N/A"
  }

  /** The wrapper's loop state: the finished lines and the line being filled. */
  datatype Wrapping = Wrapping(lines: seq<string>, cur: string)

  /**
   * One iteration of the loop for the word `w`: the word joins the current line when the line,
   * a space and the word fit in `width`; otherwise the current line is finished, even when it
   * is empty, and the word starts the next one. The source strips the joined line, which only
   * removes the space in front of the first word of an empty line (`StripJoined`).
   */
  function WrapStep(st: Wrapping, w: string, width: int): Wrapping {
    if |st.cur| + |w| + 1 <= width then Wrapping(st.lines, Joined(st.cur, w))
    else Wrapping(st.lines + [st.cur], w)
  }

  /** The current line after the word `w` joins it with a space. */
  function Joined(cur: string, w: string): string {
    if cur == [] then w else cur + " " + w
  }

  /** The loop state after the words of `words`, in order, starting from no lines and "". */
  function WrapWords(words: seq<string>, width: int): Wrapping
    decreases |words|
  {
    if words == [] then Wrapping([], "")
    else WrapStep(WrapWords(words[..|words| - 1], width), words[|words| - 1], width)
  }

  /** The lines after the loop: a non-empty current line is the last one. */
  function Finished(st: Wrapping): seq<string> {
    if st.cur != [] then st.lines + [st.cur] else st.lines
  }

  /** The text `wrap_text(s, width)` returns. */
  function Wrapped(s: string, width: int): string {
    Join("\n", Finished(WrapWords(Words(s), width)))
  }

  /** `wrap_text(s, width)`: the loop over `s.split()`, then the lines joined by newlines. */
  method WrapText(s: string, width: int) returns (r: string)
    ensures r == Wrapped(s, width)
  {
    var words := Words(s);
    var lines: seq<string> := [];
    var cur: string := "";
    for i := 0 to |words|
      invariant Wrapping(lines, cur) == WrapWords(words[..i], width)
      invariant Trimmed(cur)
    {
      var w := words[i];
      WrapWordsNext(words, i, width);
      LoopStep(cur, w);
      if |cur| + |w| + 1 <= width {
        cur := Strip(cur + " " + w);
      } else {
        lines := lines + [cur];
        cur := w;
      }
    }
    TakeAll(words);
    ghost var last := Wrapping(lines, cur);
    if cur != [] {
      lines := lines + [cur];
    }
    r := Join("\n", lines);
    WrappedOf(s, width, last, r);
  }

  /** The text is the lines the final loop state `st` finishes with, joined by newlines. */
  lemma {:induction false} WrappedOf(s: string, width: int, st: Wrapping, r: string)
    requires st == WrapWords(Words(s), width)
    requires r == Join("\n", Finished(st))
    ensures r == Wrapped(s, width)
  {
  }

  /** What the loop needs for the word `w`: the stripped join, and both possible new lines trimmed. */
  lemma {:induction false} LoopStep(cur: string, w: string)
    requires Trimmed(cur) && IsWord(w)
    ensures Strip(cur + " " + w) == Joined(cur, w)
    ensures Trimmed(Joined(cur, w)) && Trimmed(w)
  {
    StripJoined(cur, w);
    JoinedTrimmed(cur, w);
  }

  lemma {:induction false} JoinedTrimmed(cur: string, w: string)
    requires Trimmed(cur) && IsWord(w)
    ensures Trimmed(Joined(cur, w)) && Trimmed(w)
  {
    if cur != [] {
      var x := cur + " " + w;
      assert x[0] == cur[0] && x[|x| - 1] == w[|w| - 1];
    }
  }

  lemma {:induction false} WrapWordsNext(words: seq<string>, i: nat, width: int)
    requires i < |words|
    ensures WrapWords(words[..i + 1], width) == WrapStep(WrapWords(words[..i], width), words[i], width)
  {
    assert words[..i + 1][..i] == words[..i];
  }

  /** `Words` of every line, concatenated, distributes over appending a line. */
  lemma {:induction false} WordsOfEachSnoc(lines: seq<string>, l: string)
    ensures WordsOfEach(lines + [l]) == WordsOfEach(lines) + Words(l)
    decreases |lines|
  {
    if lines == [] {
      assert [] + [l] == [l];
      assert [l][1..] == [];
    } else {
      assert (lines + [l])[1..] == lines[1..] + [l];
      WordsOfEachSnoc(lines[1..], l);
    }
  }

  /** Stripping the joined line removes only the space in front of a first word. */
  lemma {:induction false} StripJoined(cur: string, w: string)
    requires Trimmed(cur) && IsWord(w)
    ensures Strip(cur + " " + w) == Joined(cur, w)
  {
    if cur == [] {
      assert cur + " " + w == [' '] + w;
      StripLeadingSpace(' ', w);
    } else {
      var x := cur + " " + w;
      assert x[0] == cur[0] && x[|x| - 1] == w[|w| - 1];
      StripTrimmed(x);
    }
  }

  /** Joining a word keeps the words in order. */
  lemma {:induction false} JoinedWords(cur: string, w: string)
    requires Trimmed(cur) && IsWord(w)
    ensures Words(Joined(cur, w)) == Words(cur) + [w]
  {
    WordsOfWord(w);
    if cur == [] {
      assert Words(cur) == [];
    } else {
      assert cur + " " + w == cur + [' '] + w;
      WordsSeparated(cur, ' ', w);
    }
  }

  /** A word has no line boundary in it: every boundary is whitespace. */
  lemma {:induction false} WordNoBreak(w: string)
    requires IsWord(w)
    ensures NoLineBreak(w)
  {
    forall i | 0 <= i < |w| ensures !IsLineBreak(w[i]) {
      assert !IsSpace(w[i]);
    }
  }

  /** Joining a word with a space adds no line boundary. */
  lemma {:induction false} JoinedNoBreak(cur: string, w: string)
    requires NoLineBreak(cur) && IsWord(w)
    ensures NoLineBreak(Joined(cur, w))
  {
    WordNoBreak(w);
    if cur != [] {
      var x := cur + " " + w;
      forall i | 0 <= i < |x| ensures !IsLineBreak(x[i]) {
        if i < |cur| { assert x[i] == cur[i]; }
        else if i > |cur| { assert x[i] == w[i - |cur| - 1]; }
      }
    }
  }

  /**
   * What the loop keeps true about its words, for the words `done` so far: the lines and the
   * current line hold exactly those words, in order; no line has a line boundary in it; and
   * the current line is trimmed and empty only before the first word.
   */
  predicate HoldsWords(st: Wrapping, done: seq<string>) {
    && WordsOfEach(st.lines) + Words(st.cur) == done
    && Trimmed(st.cur) && NoLineBreak(st.cur)
    && (st.cur == [] <==> done == [])
    && (forall i :: 0 <= i < |st.lines| ==> NoLineBreak(st.lines[i]))
  }

  lemma {:induction false} StepKeepsWords(st: Wrapping, done: seq<string>, w: string, width: int)
    requires HoldsWords(st, done) && IsWord(w)
    ensures HoldsWords(WrapStep(st, w, width), done + [w])
  {
    if |st.cur| + |w| + 1 <= width {
      JoinKeepsWords(st, done, w);
    } else {
      BreakKeepsWords(st, done, w);
    }
  }

  /** The word joins the current line. */
  lemma {:induction false} JoinKeepsWords(st: Wrapping, done: seq<string>, w: string)
    requires HoldsWords(st, done) && IsWord(w)
    ensures HoldsWords(Wrapping(st.lines, Joined(st.cur, w)), done + [w])
  {
    JoinedWords(st.cur, w);
    JoinedTrimmed(st.cur, w);
    JoinedNoBreak(st.cur, w);
  }

  /** The current line is finished and the word starts the next one. */
  lemma {:induction false} BreakKeepsWords(st: Wrapping, done: seq<string>, w: string)
    requires HoldsWords(st, done) && IsWord(w)
    ensures HoldsWords(Wrapping(st.lines + [st.cur], w), done + [w])
  {
    JoinedTrimmed(st.cur, w);
    WordsOfEachSnoc(st.lines, st.cur);
    WordsOfWord(w);
    WordNoBreak(w);
    var lines := st.lines + [st.cur];
    assert forall i :: 0 <= i < |lines| ==> NoLineBreak(lines[i]) by {
      assert forall i :: 0 <= i < |st.lines| ==> lines[i] == st.lines[i];
      assert lines[|st.lines|] == st.cur;
    }
  }

  lemma {:induction false} WrapKeepsWords(words: seq<string>, width: int)
    requires forall i :: 0 <= i < |words| ==> IsWord(words[i])
    ensures HoldsWords(WrapWords(words, width), words)
    decreases |words|
  {
    if words != [] {
      var n := |words| - 1;
      assert words == words[..n] + [words[n]];
      WrapKeepsWords(words[..n], width);
      StepKeepsWords(WrapWords(words[..n], width), words[..n], words[n], width);
    }
  }

  /** What the loop keeps true about widths: a line holding more than one word fits in `width`. */
  predicate HoldsWidth(st: Wrapping, width: int) {
    && (NoSpace(st.cur) || |st.cur| <= width)
    && (forall i :: 0 <= i < |st.lines| ==> NoSpace(st.lines[i]) || |st.lines[i]| <= width)
  }

  lemma {:induction false} StepKeepsWidth(st: Wrapping, w: string, width: int)
    requires HoldsWidth(st, width) && Trimmed(st.cur) && IsWord(w)
    ensures HoldsWidth(WrapStep(st, w, width), width)
  {
    var q := WrapStep(st, w, width);
    if |st.cur| + |w| + 1 > width {
      assert q.lines == st.lines + [st.cur];
      assert forall i :: 0 <= i < |q.lines| ==> NoSpace(q.lines[i]) || |q.lines[i]| <= width;
    }
  }

  lemma {:induction false} WrapKeepsWidth(words: seq<string>, width: int)
    requires forall i :: 0 <= i < |words| ==> IsWord(words[i])
    ensures HoldsWidth(WrapWords(words, width), width)
    decreases |words|
  {
    if words != [] {
      var n := |words| - 1;
      WrapKeepsWords(words[..n], width);
      WrapKeepsWidth(words[..n], width);
      StepKeepsWidth(WrapWords(words[..n], width), words[n], width);
    }
  }

  /**
   * What the loop keeps true about empty lines: the only one is a first line finished before
   * any word could join it, because the first word did not fit after a space.
   */
  predicate HoldsEmptyLine(st: Wrapping, first: string, width: int) {
    && (forall i :: 0 <= i < |st.lines| ==> (st.lines[i] == [] <==> i == 0 && |first| + 1 > width))
    && (st.lines == [] && st.cur != [] ==> |first| + 1 <= width)
  }

  lemma {:induction false} StepKeepsEmptyLine(st: Wrapping, first: string, w: string, width: int)
    requires HoldsEmptyLine(st, first, width) && w != []
    requires st.cur == [] ==> st.lines == [] && w == first
    ensures HoldsEmptyLine(WrapStep(st, w, width), first, width)
  {
    var q := WrapStep(st, w, width);
    if |st.cur| + |w| + 1 > width {
      assert q.lines == st.lines + [st.cur];
      assert q.lines[|st.lines|] == st.cur;
    }
  }

  lemma {:induction false} WrapKeepsEmptyLine(words: seq<string>, width: int)
    requires forall i :: 0 <= i < |words| ==> IsWord(words[i])
    ensures words != [] ==> HoldsEmptyLine(WrapWords(words, width), words[0], width)
    decreases |words|
  {
    if words != [] {
      var n := |words| - 1;
      var prev := words[..n];
      WrapKeepsWords(prev, width);
      if n > 0 {
        WrapKeepsEmptyLine(prev, width);
        assert prev[0] == words[0];
      }
      StepKeepsEmptyLine(WrapWords(prev, width), words[0], words[n], width);
    }
  }

  /**
   * The whole promise of `wrap_text`: the lines of the output (its `splitlines()`) joined by
   * newlines are the output, so every newline in it is one the wrapper put between lines;
   * splitting the output on whitespace gives `s.split()` back; a line longer than `width` is
   * a single word; an empty line can only be the first one, exactly when the first word did not
   * fit after a space; and a text without words wraps to "".
   */
  lemma {:induction false} WrappedLines(s: string, width: int)
    ensures var out := Wrapped(s, width);
      var lines := SplitLines(out);
      && out == Join("\n", lines)
      && Words(out) == Words(s)
      && (forall i :: 0 <= i < |lines| ==> NoSpace(lines[i]) || |lines[i]| <= width)
      && (forall i :: 0 <= i < |lines| ==> (lines[i] == [] <==> i == 0 && |Words(s)[0]| + 1 > width))
      && (Words(s) == [] ==> out == [])
  {
    var words := Words(s);
    var fin := Finished(WrapWords(words, width));
    FinishedLines(words, width);
    FinishedShape(words, width);
    if words != [] {
      SplitLinesOfJoin(fin);
    }
    WordsOfJoin('\n', fin);
  }

  /** The loop's facts carried over to the finished lines: their words, and no line boundaries. */
  lemma {:induction false} FinishedLines(words: seq<string>, width: int)
    requires forall i :: 0 <= i < |words| ==> IsWord(words[i])
    ensures var fin := Finished(WrapWords(words, width));
      && WordsOfEach(fin) == words
      && (forall i :: 0 <= i < |fin| ==> NoLineBreak(fin[i]))
      && (words == [] <==> fin == [])
      && (fin != [] ==> fin[|fin| - 1] != [])
  {
    WrapKeepsWords(words, width);
    var st := WrapWords(words, width);
    if words != [] {
      WordsOfEachSnoc(st.lines, st.cur);
    }
  }

  /** The width and empty-line facts carried over to the finished lines. */
  lemma {:induction false} FinishedShape(words: seq<string>, width: int)
    requires forall i :: 0 <= i < |words| ==> IsWord(words[i])
    ensures var fin := Finished(WrapWords(words, width));
      && (forall i :: 0 <= i < |fin| ==> NoSpace(fin[i]) || |fin[i]| <= width)
      && (forall i :: 0 <= i < |fin| ==> (fin[i] == [] <==> i == 0 && |words[0]| + 1 > width))
  {
    WrapKeepsWords(words, width);
    WrapKeepsWidth(words, width);
    WrapKeepsEmptyLine(words, width);
  }
}
