/**
 * The POST feed of the kiosk diagnostics panel: a newest-first list of time-stamped messages,
 * seeded with five fixed self-test messages on the first refresh, counted for the error
 * display and filtered, oldest first, into the error report files.
 */
module SkullPost {
  import opened PySeq
  import opened PyStr
  import opened SkullText

  /** The messages the first refresh adds, in the order it adds them. */
  const SeedMessages: seq<string> :=
    ["Power on self-test started", "Memory training OK", "CPU init OK",
     "GPU init skipped (headless)", "I/O scan OK"]

  const ManualRefreshMessage: string := "Manual refresh triggered"
  const ErrorsHeader: string := "[ERRORS]\n"
  const PrintHeader: string := "ERROR REPORT\n"

  /** `"=" * 40`, the rule under the printable report's title. */
  const Rule: string := "========================================"

  /** The width the panel wraps its labels to (`wrap_text`'s default). */
  const LabelWidth: int := 50

  /** `f"[{ts}] {message}"`: a feed entry, read back as its time and its message. */
  function Stamp(ts: string, message: string): (e: string)
    ensures |e| == |ts| + |message| + 3
    ensures e[0] == '[' && e[1..|ts| + 1] == ts && e[|ts| + 1..|ts| + 3] == "] "
    ensures e[|ts| + 3..] == message
  {
    "[" + ts + "] " + message
  }

  /** The entries for `messages` posted in order with the clock readings `times`. */
  function Stamps(times: seq<string>, messages: seq<string>): (r: seq<string>)
    requires |times| == |messages|
    ensures |r| == |messages|
    ensures forall i :: 0 <= i < |r| ==> r[i] == Stamp(times[i], messages[i])
  {
    if messages == [] then []
    else [Stamp(times[0], messages[0])] + Stamps(times[1..], messages[1..])
  }

  lemma {:induction false} StampsPrefix(times: seq<string>, messages: seq<string>, i: nat)
    requires |times| == |messages| && i < |messages|
    ensures Stamps(times[..i + 1], messages[..i + 1])
         == Stamps(times[..i], messages[..i]) + [Stamp(times[i], messages[i])]
  {
    var a := Stamps(times[..i + 1], messages[..i + 1]);
    var b := Stamps(times[..i], messages[..i]) + [Stamp(times[i], messages[i])];
    assert |a| == |b|;
    forall k | 0 <= k < |a| ensures a[k] == b[k] {
      assert times[..i + 1][k] == times[k] && messages[..i + 1][k] == messages[k];
    }
  }

  /** An entry that counts as an error on the display: it contains "ERROR" or "FAIL". */
  predicate IsErrorEntry(m: string) {
    Contains(m, "ERROR") || Contains(m, "FAIL")
  }

  /** An entry that goes into an error report: an error, or one that contains "WARN". */
  predicate IsReportEntry(m: string) {
    IsErrorEntry(m) || Contains(m, "WARN")
  }

  /** `len([msg for msg in POST_LOG if "ERROR" in msg or "FAIL" in msg])`. */
  function ErrorCount(log: seq<string>): (n: nat)
    ensures n <= |log|
  {
    |Filter(log, IsErrorEntry)|
  }

  /** `reversed([l for l in POST_LOG if ...])`: the reportable entries, oldest first. */
  function ErrorReport(log: seq<string>): seq<string> {
    Reverse(Filter(log, IsReportEntry))
  }

  /** The text `on_save_error` writes. */
  function ErrorReportFile(log: seq<string>): (f: string)
    ensures StartsWith(f, ErrorsHeader) && f[|f| - 1] == '\n'
  {
    ErrorsHeader + Join("\n", ErrorReport(log)) + "\n"
  }

  /** The text `on_print_error` writes. */
  function PrintReportFile(log: seq<string>): (f: string)
    ensures StartsWith(f, PrintHeader + Rule + "\n") && f[|f| - 1] == '\n'
  {
    PrintHeader + Rule + "\n" + Join("\n", ErrorReport(log)) + "\n"
  }

  /** The time label's text before wrapping: the clock, the error count and the uptime. */
  function TimesText(now: string, errors: nat, uptimeHours: nat): (t: string)
    ensures IsAt(t, now, |"Current Time: "|)
  {
    var t := "Current Time: " + now + "\nError Count: " + NatToString(errors)
      + "\nSystem Uptime: " + NatToString(uptimeHours) + "h";
    assert t[14..14 + |now|] == now;
    t
  }

  /** Posting one more entry adds one to the count exactly when that entry is an error. */
  lemma {:induction false} ErrorCountPost(m: string, log: seq<string>)
    ensures ErrorCount([m] + log) == ErrorCount(log) + (if IsErrorEntry(m) then 1 else 0)
  {
    assert ([m] + log)[1..] == log;
  }

  /** Every entry the count sees also reaches the report. */
  lemma {:induction false} ErrorsAreReported(log: seq<string>)
    ensures ErrorCount(log) <= |ErrorReport(log)|
  {
    FilterWeaker(log, IsErrorEntry, IsReportEntry);
  }

  /** The report holds exactly the entries that mention an error, a failure or a warning. */
  lemma {:induction false} ReportMembers(log: seq<string>)
    ensures forall m :: m in ErrorReport(log) <==> m in log && IsReportEntry(m)
  {
    var f := Filter(log, IsReportEntry);
    var r := ErrorReport(log);
    forall m ensures m in r <==> m in f {
      if m in r {
        var i :| 0 <= i < |r| && r[i] == m;
        assert f[|f| - 1 - i] == m;
      }
      if m in f {
        var j :| 0 <= j < |f| && f[j] == m;
        assert r[|f| - 1 - j] == m;
      }
    }
  }

  /**
   * A feed built by posting `entries` in order lists them newest first; its report lists the
   * reportable ones in the order they were posted.
   */
  lemma {:induction false} ReportOldestFirst(entries: seq<string>)
    ensures ErrorReport(Reverse(entries)) == Filter(entries, IsReportEntry)
  {
    FilterReverse(Reverse(entries), IsReportEntry);
    ReverseReverse(entries);
    ReverseReverse(Filter(Reverse(entries), IsReportEntry));
  }

  /**
   * The lines of the saved report: the header, then one line per reportable entry, oldest
   * first; an empty report leaves an empty line after the header.
   */
  lemma {:induction false} ErrorReportFileLines(log: seq<string>)
    requires forall i :: 0 <= i < |log| ==> NoLineBreak(log[i])
    ensures ErrorReport(log) != [] ==> SplitLines(ErrorReportFile(log)) == ["[ERRORS]"] + ErrorReport(log)
    ensures ErrorReport(log) == [] ==> ErrorReportFile(log) == "[ERRORS]\n\n"
  {
    var r := ErrorReport(log);
    ReportMembers(log);
    if r != [] {
      var lines := ["[ERRORS]"] + r;
      JoinCons("\n", "[ERRORS]", r);
      assert ErrorsHeader == "[ERRORS]" + "\n";
      forall i | 0 <= i < |lines| ensures NoLineBreak(lines[i]) {
        if i > 0 {
          assert lines[i] in r;
          var k :| 0 <= k < |log| && log[k] == lines[i];
        }
      }
      SplitLinesOfJoinNewline(lines);
    }
  }

  /**
   * The feed `POST_LOG` and the calls that read and change it. The clock is a parameter of
   * every call that reads it: `ts` for the stamp of a posted entry, `now` for the time label,
   * `fileTs` for a report's file name.
   */
  class PostLog {
    /** The entries, newest first. */
    var entries: seq<string>

    constructor()
      ensures entries == []
    {
      entries := [];
    }

    /** `append_post(message)`: the stamped entry goes in front of all earlier ones. */
    method AppendPost(ts: string, message: string)
      modifies this
      ensures entries == [Stamp(ts, message)] + old(entries)
    {
      entries := [Stamp(ts, message)] + entries;
    }

    /** `append_post` for each of `messages` in turn, reading the clock once per message. */
    method AppendAll(times: seq<string>, messages: seq<string>)
      requires |times| == |messages|
      modifies this
      ensures entries == Reverse(Stamps(times, messages)) + old(entries)
    {
      var i := 0;
      while i < |messages|
        invariant 0 <= i <= |messages|
        invariant entries == Reverse(Stamps(times[..i], messages[..i])) + old(entries)
      {
        var x := Stamp(times[i], messages[i]);
        var before := Stamps(times[..i], messages[..i]);
        StampsPrefix(times, messages, i);
        ReverseSnoc(before, x);
        AppendPost(times[i], messages[i]);
        assert entries == [x] + Reverse(before) + old(entries);
        i := i + 1;
      }
      assert times[..i] == times && messages[..i] == messages;
    }

    /**
     * `refresh_all` as far as the feed goes: the time label shows the error count taken
     * before seeding, and an empty feed is seeded with the five messages.
     */
    method RefreshAll(now: string, uptimeHours: nat, times: seq<string>) returns (timesLabel: string)
      requires |times| == |SeedMessages|
      modifies this
      ensures timesLabel == Wrapped(TimesText(now, ErrorCount(old(entries)), uptimeHours), LabelWidth)
      ensures old(entries) == [] ==> entries == Reverse(Stamps(times, SeedMessages))
      ensures old(entries) != [] ==> entries == old(entries)
    {
      var errors := |Filter(entries, IsErrorEntry)|;
      timesLabel := WrapText(TimesText(now, errors, uptimeHours), LabelWidth);
      if entries == [] {
        AppendAll(times, SeedMessages);
      }
    }

    /** `tick`: the time label with the current error count; the feed is not changed. */
    method Tick(now: string, uptimeHours: nat) returns (timesLabel: string)
      ensures timesLabel == Wrapped(TimesText(now, ErrorCount(entries), uptimeHours), LabelWidth)
    {
      var errors := |Filter(entries, IsErrorEntry)|;
      timesLabel := WrapText(TimesText(now, errors, uptimeHours), LabelWidth);
    }

    /** `on_refresh`: a refresh, then a note that it was asked for. */
    method OnRefresh(now: string, uptimeHours: nat, times: seq<string>, ts: string) returns (timesLabel: string)
      requires |times| == |SeedMessages|
      modifies this
      ensures timesLabel == Wrapped(TimesText(now, ErrorCount(old(entries)), uptimeHours), LabelWidth)
      ensures entries == [Stamp(ts, ManualRefreshMessage)]
        + (if old(entries) == [] then Reverse(Stamps(times, SeedMessages)) else old(entries))
    {
      timesLabel := RefreshAll(now, uptimeHours, times);
      AppendPost(ts, ManualRefreshMessage);
    }

    /** `on_save_error`: the report of the feed as it was, then a note naming the file. */
    method OnSaveError(fileTs: string, ts: string) returns (report: string)
      modifies this
      ensures report == ErrorReportFile(old(entries))
      ensures entries == [Stamp(ts, "Saved error report: errors_" + fileTs + ".txt")] + old(entries)
    {
      var errs := Filter(entries, IsReportEntry);
      report := ErrorsHeader + Join("\n", Reverse(errs)) + "\n";
      AppendPost(ts, "Saved error report: errors_" + fileTs + ".txt");
    }

    /** `on_print_error`: the printable report of the feed as it was, then a note naming the file. */
    method OnPrintError(fileTs: string, ts: string) returns (report: string)
      modifies this
      ensures report == PrintReportFile(old(entries))
      ensures entries == [Stamp(ts, "Prepared error report for printing: print_errors_" + fileTs + ".txt")]
        + old(entries)
    {
      var errs := Filter(entries, IsReportEntry);
      report := PrintHeader + Rule + "\n" + Join("\n", Reverse(errs)) + "\n";
      AppendPost(ts, "Prepared error report for printing: print_errors_" + fileTs + ".txt");
    }
  }

  /** The first refresh of a fresh feed leaves the five seed entries, "I/O scan OK" in front. */
  method FirstRefresh(now: string, uptimeHours: nat, times: seq<string>) returns (log: PostLog, timesLabel: string)
    requires |times| == |SeedMessages|
    ensures |log.entries| == 5
    ensures log.entries[0] == Stamp(times[4], "I/O scan OK")
    ensures log.entries[4] == Stamp(times[0], "Power on self-test started")
    ensures timesLabel == Wrapped(TimesText(now, 0, uptimeHours), LabelWidth)
  {
    log := new PostLog();
    timesLabel := log.RefreshAll(now, uptimeHours, times);
  }
}
