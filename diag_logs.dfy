/**
 * The log side of the desktop diagnostics tool: the POST/log history (the non-blank lines of
 * the kernel or event log), the OS error records (one per non-blank line, tagged with where it
 * came from), and the POST panel, which colours each shown line by a case-insensitive keyword
 * search and shows the newest lines first.
 */
module DiagLogs {
  import opened Wrappers
  import opened PySeq
  import opened PyStr

  const NA: string := "N/A"

  /** How many history lines the POST panel shows. */
  const DisplayLimit: nat := 100

  /** `if l.strip()`: the line holds something besides whitespace (`Strip(l)` is empty exactly when it does not). */
  predicate NonBlank(l: string) {
    !AllSpace(l)
  }

  /** The history and its first line, as `get_post_and_logs` returns them. */
  datatype PostLogs = PostLogs(latest: string, history: seq<string>)

  /** `[l for l in out.splitlines() if l.strip()]`. */
  function History(out: string): seq<string> {
    Filter(SplitLines(out), NonBlank)
  }

  /**
   * `get_post_and_logs` for the log text `out` (`dmesg` on Linux and other systems, `wevtutil`
   * on Windows): the non-blank lines in their order, and the first of them, or "N/A".
   */
  function PostAndLogs(out: string): (p: PostLogs)
    ensures forall i :: 0 <= i < |p.history| ==> NonBlank(p.history[i]) && NoLineBreak(p.history[i])
    ensures forall l :: l in SplitLines(out) && NonBlank(l) ==> l in p.history
    ensures p.history == [] <==> p.latest == NA && forall l :: l in SplitLines(out) ==> !NonBlank(l)
    ensures p.history != [] ==> p.latest == p.history[0]
  {
    var h := History(out);
    NonBlankLinesOf(SplitLines(out));
    assert NonBlank(NA) by { assert !IsSpace(NA[0]); }
    PostLogs(if h != [] then h[0] else NA, h)
  }

  /** What the filter keeps are lines of the text, so they hold no line boundary. */
  lemma {:induction false} NonBlankLinesOf(lines: seq<string>)
    requires forall i :: 0 <= i < |lines| ==> NoLineBreak(lines[i])
    ensures forall i :: 0 <= i < |Filter(lines, NonBlank)| ==>
      NonBlank(Filter(lines, NonBlank)[i]) && NoLineBreak(Filter(lines, NonBlank)[i])
  {
    var h := Filter(lines, NonBlank);
    forall i | 0 <= i < |h|
      ensures NonBlank(h[i]) && NoLineBreak(h[i])
    {
      assert h[i] in h;
      var j :| 0 <= j < |lines| && lines[j] == h[i];
    }
  }

  /**
   * For log text whose lines end with a newline, the history is exactly the non-blank lines,
   * and `latest` is the first line when that one is not blank. `dmesg` prints the oldest line
   * first, so on Linux the "latest" entry is the oldest of the lines read.
   */
  lemma {:induction false} HistoryOfLines(lines: seq<string>)
    requires lines != []
    requires forall i :: 0 <= i < |lines| ==> NoLineBreak(lines[i])
    ensures PostAndLogs(Join("\n", lines) + "\n").history == Filter(lines, NonBlank)
    ensures NonBlank(lines[0]) ==> PostAndLogs(Join("\n", lines) + "\n").latest == lines[0]
  {
    SplitLinesOfJoinNewline(lines);
    assert lines == [lines[0]] + lines[1..];
    FilterConcat([lines[0]], lines[1..], NonBlank);
    assert Filter([lines[0]], NonBlank) == (if NonBlank(lines[0]) then [lines[0]] else []) by {
      assert [lines[0]][1..] == [];
    }
  }

  /** One error record: where it came from and the stripped line. */
  datatype OsError = OsError(source: string, msg: string)

  /** The records for the messages `msgs` of one source, in their order. */
  function Tagged(source: string, msgs: seq<string>): (r: seq<OsError>)
    ensures |r| == |msgs|
    ensures forall i :: 0 <= i < |r| ==> r[i] == OsError(source, msgs[i])
  {
    if msgs == [] then [] else [OsError(source, msgs[0])] + Tagged(source, msgs[1..])
  }

  lemma {:induction false} TaggedConcat(source: string, a: seq<string>, b: seq<string>)
    ensures Tagged(source, a + b) == Tagged(source, a) + Tagged(source, b)
  {
    var l, r := Tagged(source, a + b), Tagged(source, a) + Tagged(source, b);
    assert |l| == |r|;
    forall i | 0 <= i < |l|
      ensures l[i] == r[i]
    {
      if i < |a| {
        assert (a + b)[i] == a[i];
      } else {
        assert (a + b)[i] == b[i - |a|];
      }
    }
  }

  /** The messages `scan_os_errors` keeps from the text `out`: its history lines, stripped. */
  function Messages(out: string): seq<string> {
    MessagesOf(SplitLines(out))
  }

  /** The non-blank lines of `lines`, stripped. */
  function MessagesOf(lines: seq<string>): seq<string> {
    StripAll(Filter(lines, NonBlank))
  }

  /** The records `scan_os_errors` makes from the text `out` of one source: one per history line. */
  function Records(source: string, out: string): seq<OsError> {
    Tagged(source, Messages(out))
  }

  /** Every record carries its source and a message that is not empty, has no outer whitespace and is one line. */
  lemma {:induction false} RecordsAreStripped(source: string, out: string)
    ensures |Records(source, out)| <= |SplitLines(out)|
    ensures forall i :: 0 <= i < |Records(source, out)| ==>
      var e := Records(source, out)[i];
      && e.source == source && e.msg != [] && Trimmed(e.msg) && NoLineBreak(e.msg)
  {
    var h := History(out);
    NonBlankLinesOf(SplitLines(out));
    forall i | 0 <= i < |h|
      ensures Strip(h[i]) != [] && NoLineBreak(Strip(h[i]))
    {
      StripNoLineBreak(h[i]);
    }
  }

  /** One more line adds its stripped text to the messages, when it is not blank. */
  lemma {:induction false} MessagesStep(lines: seq<string>, i: nat)
    requires i < |lines|
    ensures MessagesOf(lines[..i + 1]) == MessagesOf(lines[..i]) + (if NonBlank(lines[i]) then [Strip(lines[i])] else [])
  {
    var l := lines[i];
    assert lines[..i + 1] == lines[..i] + [l];
    FilterSnoc(lines[..i], l, NonBlank);
    var kept := if NonBlank(l) then [l] else [];
    StripAllConcat(Filter(lines[..i], NonBlank), kept);
    assert StripAll(kept) == (if NonBlank(l) then [Strip(l)] else []);
  }

  /** One more line adds its record, when it is not blank. */
  lemma {:induction false} RecordsStep(source: string, lines: seq<string>, i: nat)
    requires i < |lines|
    ensures Tagged(source, MessagesOf(lines[..i + 1]))
      == Tagged(source, MessagesOf(lines[..i])) + (if NonBlank(lines[i]) then [OsError(source, Strip(lines[i]))] else [])
  {
    var extra := if NonBlank(lines[i]) then [Strip(lines[i])] else [];
    MessagesStep(lines, i);
    TaggedConcat(source, MessagesOf(lines[..i]), extra);
  }

  /** The loop `for l in out.splitlines(): if l.strip(): errs.append(...)`. */
  method AppendRecords(errs: seq<OsError>, source: string, out: string) returns (r: seq<OsError>)
    ensures r == errs + Records(source, out)
  {
    var lines := SplitLines(out);
    r := errs;
    for i := 0 to |lines|
      invariant r == errs + Tagged(source, MessagesOf(lines[..i]))
    {
      var l := lines[i];
      ghost var before := Tagged(source, MessagesOf(lines[..i]));
      RecordsStep(source, lines, i);
      if !AllSpace(l) {
        var e := OsError(source, Strip(l));
        AppendAssoc(errs, before, [e]);
        r := r + [e];
      } else {
        assert before + [] == before;
      }
    }
    assert lines[..|lines|] == lines;
  }

  /** The logs `scan_os_errors` can read on each platform; `journal` is `None` without `journalctl`. */
  datatype OsLogs =
    | Linux(dmesg: string, journal: Option<string>)
    | Windows(events: string)
    | Darwin(log: string)
    | OtherOs

  const DmesgSource: string := "dmesg"
  const JournalSource: string := "journalctl"
  const WindowsSource: string := "WindowsEvent"
  const MacSource: string := "macOS"

  /** `scan_os_errors`: the records of each log the platform has, in the order they are read. */
  method ScanOsErrors(logs: OsLogs) returns (errs: seq<OsError>)
    ensures logs.Linux? && logs.journal.None? ==> errs == Records(DmesgSource, logs.dmesg)
    ensures logs.Linux? && logs.journal.Some? ==>
      errs == Records(DmesgSource, logs.dmesg) + Records(JournalSource, logs.journal.value)
    ensures logs.Windows? ==> errs == Records(WindowsSource, logs.events)
    ensures logs.Darwin? ==> errs == Records(MacSource, logs.log)
    ensures logs.OtherOs? ==> errs == []
  {
    errs := [];
    match logs
    case Linux(dmesg, journal) =>
      errs := AppendRecords(errs, DmesgSource, dmesg);
      EmptyAppend(Records(DmesgSource, dmesg));
      if journal.Some? {
        errs := AppendRecords(errs, JournalSource, journal.value);
      }
    case Windows(events) =>
      errs := AppendRecords(errs, WindowsSource, events);
      EmptyAppend(Records(WindowsSource, events));
    case Darwin(log) =>
      errs := AppendRecords(errs, MacSource, log);
      EmptyAppend(Records(MacSource, log));
    case OtherOs =>
  }

  /** On Linux no `dmesg` record follows a `journalctl` record. */
  lemma {:induction false} KernelBeforeJournal(dmesg: string, journal: string)
    ensures var errs := Records(DmesgSource, dmesg) + Records(JournalSource, journal);
      forall i, k :: 0 <= i < k < |errs| && errs[i].source == JournalSource ==> errs[k].source == JournalSource
  {
    assert DmesgSource[0] != JournalSource[0];
    TaggedInOrder(DmesgSource, JournalSource, Messages(dmesg), Messages(journal));
  }

  /** Records tagged with one source, then records tagged with another: no first-source record follows a second-source one. */
  lemma {:induction false} TaggedInOrder(x: string, y: string, m1: seq<string>, m2: seq<string>)
    requires x != y
    ensures var errs := Tagged(x, m1) + Tagged(y, m2);
      forall i, k :: 0 <= i < k < |errs| && errs[i].source == y ==> errs[k].source == y
  {
    var a: seq<OsError>, b: seq<OsError> := Tagged(x, m1), Tagged(y, m2);
    forall i, k | 0 <= i < k < |a + b| && (a + b)[i].source == y
      ensures (a + b)[k].source == y
    {
      assert (a + b)[k] == b[k - |a|];
    }
  }

  /** The colour tag a POST line is shown with. */
  datatype Severity = Error | Warning | Info

  const ErrorWords: seq<string> := ["err", "fail", "fault", "panic", "critical"]
  const WarningWords: seq<string> := ["warn", "deprecated"]

  /**
   * What case-insensitive matching compares for the lower-case letters of the keywords: ASCII
   * capitals match their small letters, and both dotted capital I (U+0130) and dotless small i
   * (U+0131) match 'i'. Every other character only matches itself.
   */
  function FoldChar(c: char): char {
    if 'A' <= c <= 'Z' then (c as int + 32) as char
    else if c == 'İ' || c == 'ı' then 'i'
    else c
  }

  function Fold(s: string): (r: string)
    ensures |r| == |s|
    ensures forall i :: 0 <= i < |s| ==> r[i] == FoldChar(s[i])
  {
    if s == [] then [] else [FoldChar(s[0])] + Fold(s[1..])
  }

  /** One of `words` is a substring of `t`. */
  predicate MentionsAny(t: string, words: seq<string>)
    decreases |words|
  {
    words != [] && (Contains(t, words[0]) || MentionsAny(t, words[1..]))
  }

  /** `re.search("w1|w2|...", line, re.I)` succeeds: one of the words occurs somewhere, ignoring case. */
  ghost predicate Matches(line: string, words: seq<string>) {
    exists w, i :: w in words && IsAt(Fold(line), w, i)
  }

  lemma {:induction false} MentionsAnyIff(t: string, words: seq<string>)
    ensures MentionsAny(t, words) <==> exists w, i :: w in words && IsAt(t, w, i)
    decreases |words|
  {
    if words != [] {
      ContainsIff(t, words[0]);
      MentionsAnyIff(t, words[1..]);
      assert forall w :: w in words <==> w == words[0] || w in words[1..];
    }
  }

  /** The severity test of `update_ui`: an error keyword wins over a warning keyword. */
  function Classify(line: string): (s: Severity)
    ensures s == Error <==> Matches(line, ErrorWords)
    ensures s == Warning <==> !Matches(line, ErrorWords) && Matches(line, WarningWords)
    ensures s == Info <==> !Matches(line, ErrorWords) && !Matches(line, WarningWords)
  {
    var t := Fold(line);
    MentionsAnyIff(t, ErrorWords);
    MentionsAnyIff(t, WarningWords);
    if MentionsAny(t, ErrorWords) then Error
    else if MentionsAny(t, WarningWords) then Warning
    else Info
  }

  /** Changing the case of ASCII letters in a line does not change its severity. */
  lemma {:induction false} ClassifyIgnoresCase(a: string, b: string)
    requires Fold(a) == Fold(b)
    ensures Classify(a) == Classify(b)
  {
  }

  /**
   * The keywords are searched for anywhere, not as words: a line saying "deferred" (or
   * "Overriding", "interrupt-parent" and the like) holds "err" and is shown as an error.
   */
  lemma {:induction false} KeywordInsideWord(pre: string, post: string)
    ensures Classify(pre + "deferred" + post) == Error
  {
    var line := pre + "deferred" + post;
    var t := Fold(line);
    var k := |pre| + 3;
    assert line[k] == 'e' && line[k + 1] == 'r' && line[k + 2] == 'r';
    assert t[k..k + 3] == "err";
    assert "err" in ErrorWords;
    assert IsAt(t, "err", k);
  }

  /** One line of the POST panel: the text inserted and the tag it is inserted with. */
  datatype Row = Row(text: string, tag: Severity)

  function RowOf(line: string): Row {
    Row(line + "\n", Classify(line))
  }

  function Min(a: nat, b: nat): nat {
    if a < b then a else b
  }

  /**
   * The lines the panel shows as the source writes it, `reversed(history[:100])`: the first
   * hundred lines of the history, last of them on top.
   */
  function FirstWindow(history: seq<string>): (w: seq<string>)
    ensures |w| == Min(|history|, DisplayLimit)
    ensures forall i :: 0 <= i < |w| ==> w[i] == history[|w| - 1 - i]
  {
    Reverse(Take(history, DisplayLimit))
  }

  /**
   * With more than a hundred history lines the written window leaves out the newest line (the
   * last one `dmesg` prints) and puts the hundredth line on top.
   */
  lemma {:induction false} FirstWindowDropsNewest(history: seq<string>)
    requires |history| > DisplayLimit
    requires history[|history| - 1] !in history[..DisplayLimit]
    ensures history[|history| - 1] !in FirstWindow(history)
    ensures FirstWindow(history)[0] == history[DisplayLimit - 1]
  {
  }

  /**
   * The window the comments describe, "the last 100 entries, newest at top", for a history
   * that lists the oldest line first as `dmesg` does: the last hundred lines, newest first.
   */
  function NewestWindow(history: seq<string>): (w: seq<string>)
    ensures |w| == Min(|history|, DisplayLimit)
    ensures forall i :: 0 <= i < |w| ==> w[i] == history[|history| - 1 - i]
    ensures history != [] ==> w[0] == history[|history| - 1]
  {
    Reverse(history[|history| - Min(|history|, DisplayLimit)..])
  }

  /** The two windows agree whenever the history has at most a hundred lines. */
  lemma {:induction false} WindowsAgreeWhenShort(history: seq<string>)
    requires |history| <= DisplayLimit
    ensures FirstWindow(history) == NewestWindow(history)
  {
  }

  /** The POST text widget, as the rows it holds. */
  class PostPanel {
    var rows: seq<Row>

    constructor()
      ensures rows == []
    {
      rows := [];
    }

    /**
     * The POST part of `update_ui`, with the window corrected: an empty history leaves the panel
     * as it is; otherwise the panel is cleared and refilled with one tagged row per line of
     * `NewestWindow`, the last hundred lines of an oldest-first history, newest on top. The
     * source fills it from `FirstWindow` instead.
     */
    method Update(history: seq<string>)
      modifies this
      ensures history == [] ==> rows == old(rows)
      ensures history != [] ==> |rows| == |NewestWindow(history)|
      ensures history != [] ==> forall i :: 0 <= i < |rows| ==> rows[i] == RowOf(NewestWindow(history)[i])
    {
      if history != [] {
        var window := NewestWindow(history);
        rows := [];
        for i := 0 to |window|
          invariant |rows| == i
          invariant forall k :: 0 <= k < i ==> rows[k] == RowOf(window[k])
        {
          var line := window[i];
          rows := rows + [RowOf(line)];
        }
      }
    }
  }
}
