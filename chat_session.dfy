/**
 * The state one run of the chat program changes: the log file (absent until first needed),
 * the backup slot `clear` fills and `undo` empties, the named archives `save:` writes, and the
 * flag that makes the Gemini error message appear only once. The providers are given as
 * functions from a request to an outcome, and the clock as plain arguments.
 */
module ChatSession {
  import opened Wrappers
  import opened PyStr
  import opened ChatCommand
  import opened ChatVerdict
  import opened ChatHistory

  const ClaudeModelDefault: string := "claude-sonnet-4-5-20250929"
  const ClaudeJudgeModel: string := "claude-opus-4-5-20251101"
  const GeminiModel: string := "gemini-1.5-flash"
  const OpenAIModel: string := "gpt-4o"

  /** What a provider call yields: a reply text, or the message of the exception it raised. */
  datatype Outcome = Reply(text: string) | Failure(message: string)

  /**
   * The three provider endpoints: Claude takes a model, a prompt and a token limit; Gemini and
   * OpenAI a model and a prompt.
   */
  datatype Providers = Providers(
    claude: (string, string, nat) -> Outcome,
    gemini: (string, string) -> Outcome,
    openai: (string, string) -> Outcome)

  /** An archived copy of the log with the three members `save_session` adds. */
  datatype Archive = Archive(doc: Document, sessionName: string, duration: string, savedAt: string)

  /** `ask_claude`'s result: the reply, or the error text that replaces it. */
  function ClaudeAnswer(o: Outcome): (r: string)
    ensures o.Failure? ==> r == "[ERROR] Claude call failed: " + o.message
    ensures o.Reply? ==> r == o.text
  {
    match o
    case Reply(t) => t
    case Failure(e) => "[ERROR] Claude call failed: " + e
  }

  /** `ask_openai`'s result: the reply, or the error text that replaces it. */
  function OpenAIAnswer(o: Outcome): (r: string)
    ensures o.Failure? ==> r == "[ERROR] OpenAI call failed: " + o.message
    ensures o.Reply? ==> r == o.text
  {
    match o
    case Reply(t) => t
    case Failure(e) => "[ERROR] OpenAI call failed: " + e
  }

  /** The instruction `ask_gemini` puts in front of every prompt. */
  const GeminiInstruction: string :=
    "CRITICAL: Respond in 2-4 concise paragraphs maximum. No bullet lists unless absolutely necessary. "
    + "Be as brief and direct as Claude or ChatGPT. Get to the core answer immediately.\n\n"

  /** The prompt Gemini receives: the instruction, then the caller's prompt unchanged. */
  function GeminiPrompt(prompt: string): (p: string)
    ensures |p| > |prompt| && IsAt(p, prompt, |p| - |prompt|)
  {
    var p := GeminiInstruction + prompt;
    assert p[|GeminiInstruction|..] == prompt;
    p
  }

  /** A Gemini failure message that reports an exhausted quota. */
  predicate IsQuotaError(message: string) {
    Contains(message, "429") || Contains(Lower(message), "quota")
  }

  const GeminiQuotaMessage: string := "[Gemini quota limit reached - consider upgrading API key or wait 24hrs]"

  /**
   * What `ask_gemini` returns for an outcome, given whether a failure was already reported:
   * the detailed message only for the first failure.
   */
  function GeminiReply(o: Outcome, errorShown: bool): (r: string)
    ensures o.Reply? ==> r == o.text
    ensures o.Failure? && errorShown ==> r == "[Gemini unavailable]"
    ensures o.Failure? && !errorShown && IsQuotaError(o.message) ==> r == GeminiQuotaMessage
    ensures o.Failure? && !errorShown && !IsQuotaError(o.message) ==> r == "[Gemini error: " + o.message + "]"
  {
    match o
    case Reply(t) => t
    case Failure(m) =>
      if errorShown then "[Gemini unavailable]"
      else if IsQuotaError(m) then GeminiQuotaMessage
      else "[Gemini error: " + m + "]"
  }

  /** Once a failure has been reported, every later failure reads the same, whatever its message. */
  lemma {:induction false} GeminiErrorShownOnce(m1: string, m2: string)
    ensures GeminiReply(Failure(m1), true) == GeminiReply(Failure(m2), true)
    ensures !IsQuotaError(m1) ==> GeminiReply(Failure(m1), false) != GeminiReply(Failure(m1), true)
  {
    if !IsQuotaError(m1) {
      var r := GeminiReply(Failure(m1), false);
      assert r[8] == 'e';
      assert "[Gemini unavailable]"[8] == 'u';
    }
  }

  /** The `(hours, minutes)` of an elapsed time in seconds. */
  function DurationParts(elapsed: nat): (hm: (nat, nat))
    ensures hm.1 < 60
    ensures 3600 * hm.0 + 60 * hm.1 <= elapsed < 3600 * hm.0 + 60 * hm.1 + 60
  {
    (elapsed / 3600, (elapsed % 3600) / 60)
  }

  /**
   * `get_session_duration()` for `elapsed` whole seconds: `"<h>h <m>m"` once an hour has
   * passed, `"<m>m"` before.
   */
  function SessionDuration(elapsed: nat): string {
    var (h, m) := DurationParts(elapsed);
    if h > 0 then NatToString(h) + "h " + NatToString(m) + "m" else NatToString(m) + "m"
  }

  /** The duration text carries the hour and minute counts that add up to the elapsed time. */
  lemma {:induction false} DurationReadBack(elapsed: nat)
    ensures elapsed < 3600 ==> SessionDuration(elapsed) == NatToString(elapsed / 60) + "m"
    ensures elapsed >= 3600 ==> StartsWith(SessionDuration(elapsed), NatToString(elapsed / 3600) + "h ")
    ensures DigitsValue(NatToString(DurationParts(elapsed).0)) * 3600
          + DigitsValue(NatToString(DurationParts(elapsed).1)) * 60 <= elapsed
  {
    var (h, m) := DurationParts(elapsed);
    NatToStringValue(h);
    NatToStringValue(m);
    if elapsed >= 3600 {
      var p := NatToString(h) + "h ";
      assert SessionDuration(elapsed)[..|p|] == p;
    }
  }

  /** The log's document as `load_log` reads it: an absent file reads as empty. */
  function DocOf(log: Option<Document>): (d: Document)
    ensures log.Some? ==> d == log.value
    ensures log.None? ==> d.sessions == []
  {
    log.GetOr(EmptyDocument)
  }

  /** The prompt a single agent receives: the recent history, then the user's prompt. */
  function RoutedPrompt(doc: Document, userPrompt: string): (r: string)
    ensures IsAt(r, userPrompt, |r| - |userPrompt|)
    ensures StartsWith(r, Tail(HistoryText(doc), 1000))
  {
    var h := Tail(HistoryText(doc), 1000);
    var r := h + "\n\nUser prompt:\n" + userPrompt;
    assert r[|r| - |userPrompt|..] == userPrompt && r[..|h|] == h;
    r
  }

  /** The reply to an agent key that is none of the three. */
  function UnknownAgentMessage(agent: string): string {
    "Unknown agent '" + agent + "'. Use claude, gemini, or openai."
  }

  /** `{"Claude": c, "Gemini": g, "OpenAI": o}`. */
  function AnswerMap(c: string, g: string, o: string): (m: map<string, string>)
    ensures m.Keys == {"Claude", "Gemini", "OpenAI"}
    ensures Answer(m, "Claude") == c && Answer(m, "Gemini") == g && Answer(m, "OpenAI") == o
  {
    assert "Claude" != "Gemini" && "Claude" != "OpenAI" && "Gemini" != "OpenAI" by {
      assert "Claude"[0] != "Gemini"[0] && "Claude"[0] != "OpenAI"[0] && "Gemini"[0] != "OpenAI"[0];
    }
    map["Claude" := c, "Gemini" := g, "OpenAI" := o]
  }

  /** The judge's verdict on `answers` given the log document it reads its context from. */
  function JudgeOf(p: Providers, decode: string -> Decoding, doc: Document, answers: map<string, string>)
    : (v: Option<Verdict>)
    ensures v.Some? ==> v.value.bestAgent in Agents
  {
    var history := Tail(HistoryText(doc), 1000);
    var judgeText := ClaudeAnswer(p.claude(ClaudeJudgeModel, ComparisonPrompt(history, answers), 500));
    JudgeVerdict(judgeText, answers, decode, ClaudeJudgeModel)
  }

  class Session {
    /** The log file's document; `None` while the file does not exist. */
    var log: Option<Document>
    /** The document the last `clear` saved, until `undo` restores it. */
    var backup: Option<Document>
    /** The files under `sessions/`, by session name. */
    var archives: map<string, Archive>
    /** Set by the first Gemini failure; never cleared. */
    var geminiErrorShown: bool
    /** The start time's `%Y%m%d_%H%M%S` stamp, used when an archive has no name. */
    const sessionId: string

    constructor(sessionId: string, log: Option<Document>)
      ensures this.sessionId == sessionId && this.log == log
      ensures backup.None? && archives == map[] && !geminiErrorShown
    {
      this.sessionId := sessionId;
      this.log := log;
      backup := None;
      archives := map[];
      geminiErrorShown := false;
    }

    /** `ensure_log()`: create the file with no sessions when it is missing. */
    method EnsureLog()
      modifies this
      ensures log == Some(DocOf(old(log)))
      ensures backup == old(backup) && archives == old(archives) && geminiErrorShown == old(geminiErrorShown)
    {
      if log.None? {
        log := Some(EmptyDocument);
      }
    }

    /** `save_session_entry(entry)`: append the entry to the log's sessions. */
    method SaveSessionEntry(e: Entry)
      modifies this
      ensures log == Some(Document(DocOf(old(log)).sessions + [e]))
      ensures backup == old(backup) && archives == old(archives) && geminiErrorShown == old(geminiErrorShown)
    {
      EnsureLog();
      var data := log.value;
      log := Some(Document(data.sessions + [e]));
    }

    /** `read_history_text(max_chars)`, which creates the log file first when it is missing. */
    method ReadHistory(maxChars: int) returns (text: string)
      modifies this
      ensures log == Some(DocOf(old(log)))
      ensures text == Tail(HistoryText(DocOf(old(log))), maxChars)
      ensures backup == old(backup) && archives == old(archives) && geminiErrorShown == old(geminiErrorShown)
    {
      EnsureLog();
      text := ReadHistoryText(log.value, maxChars);
    }

    /**
     * `clear_session()`: when the log file exists, keep its document as the backup and
     * empty the log; otherwise change nothing and report failure.
     */
    method ClearSession() returns (ok: bool)
      modifies this
      ensures ok <==> old(log).Some?
      ensures ok ==> log == Some(EmptyDocument) && backup == old(log)
      ensures !ok ==> log == old(log) && backup == old(backup)
      ensures archives == old(archives) && geminiErrorShown == old(geminiErrorShown)
    {
      if log.Some? {
        backup := log;
        log := Some(EmptyDocument);
        return true;
      }
      return false;
    }

    /** `undo_clear()`: write the backup back to the log and empty the slot, when there is one. */
    method UndoClear() returns (ok: bool)
      modifies this
      ensures ok <==> old(backup).Some?
      ensures ok ==> log == old(backup) && backup.None?
      ensures !ok ==> log == old(log) && backup == old(backup)
      ensures archives == old(archives) && geminiErrorShown == old(geminiErrorShown)
    {
      if backup.None? {
        return false;
      }
      log := backup;
      backup := None;
      return true;
    }

    /**
     * `save_session(name)`: archive a copy of the log under `name`, or under the session id
     * when no name (or an empty one) is given. Without a log file nothing is written.
     */
    method SaveSession(name: Option<string>, elapsed: nat, savedAt: string) returns (ok: bool)
      modifies this
      ensures ok <==> old(log).Some?
      ensures var n := if name.Some? && name.value != "" then name.value else sessionId;
        ok ==> archives == old(archives)[n := Archive(old(log).value, n, SessionDuration(elapsed), savedAt)]
      ensures !ok ==> archives == old(archives)
      ensures log == old(log) && backup == old(backup) && geminiErrorShown == old(geminiErrorShown)
    {
      var sessionName := if name.Some? && name.value != "" then name.value else sessionId;
      if log.Some? {
        archives := archives[sessionName := Archive(log.value, sessionName, SessionDuration(elapsed), savedAt)];
        return true;
      }
      return false;
    }

    /**
     * `ask_gemini(prompt)`: a reply is passed through; the first failure gives the detailed
     * message (the quota text for a quota error) and sets the flag, later failures only say
     * that Gemini is unavailable.
     */
    method AskGemini(p: Providers, prompt: string) returns (reply: string)
      modifies this
      ensures var o := p.gemini(GeminiModel, GeminiPrompt(prompt));
        reply == GeminiReply(o, old(geminiErrorShown)) && geminiErrorShown == (old(geminiErrorShown) || o.Failure?)
      ensures log == old(log) && backup == old(backup) && archives == old(archives)
    {
      var o := p.gemini(GeminiModel, GeminiPrompt(prompt));
      match o {
        case Reply(t) =>
          reply := t;
        case Failure(errorMsg) =>
          if !geminiErrorShown {
            geminiErrorShown := true;
            if IsQuotaError(errorMsg) {
              reply := GeminiQuotaMessage;
            } else {
              reply := "[Gemini error: " + errorMsg + "]";
            }
          } else {
            reply := "[Gemini unavailable]";
          }
      }
    }

    /**
     * `judge_best_with_claude(answers)`: the judge sees the last 1000 characters of history and
     * the three answers. `None` is the case where the repair raises.
     */
    method JudgeBest(p: Providers, decode: string -> Decoding, answers: map<string, string>)
      returns (verdict: Option<Verdict>)
      modifies this
      ensures log == Some(DocOf(old(log)))
      ensures verdict == JudgeOf(p, decode, DocOf(old(log)), answers)
      ensures backup == old(backup) && archives == old(archives) && geminiErrorShown == old(geminiErrorShown)
    {
      var history := ReadHistory(1000);
      var judgeText := ClaudeAnswer(p.claude(ClaudeJudgeModel, ComparisonPrompt(history, answers), 500));
      verdict := JudgeVerdict(judgeText, answers, decode, ClaudeJudgeModel);
    }

    /**
     * The first half of `run_all_three_and_judge`: the user's prompt, unchanged, goes to Claude,
     * Gemini and OpenAI in turn (the pauses between the calls are not modelled).
     */
    method AskAllThree(p: Providers, userPrompt: string) returns (answers: map<string, string>)
      modifies this
      ensures answers == AnswerMap(ClaudeAnswer(p.claude(ClaudeModelDefault, userPrompt, 400)),
                                   GeminiReply(p.gemini(GeminiModel, GeminiPrompt(userPrompt)), old(geminiErrorShown)),
                                   OpenAIAnswer(p.openai(OpenAIModel, userPrompt)))
      ensures geminiErrorShown == (old(geminiErrorShown) || p.gemini(GeminiModel, GeminiPrompt(userPrompt)).Failure?)
      ensures log == old(log) && backup == old(backup) && archives == old(archives)
    {
      var c := ClaudeAnswer(p.claude(ClaudeModelDefault, userPrompt, 400));
      var g := AskGemini(p, userPrompt);
      var o := OpenAIAnswer(p.openai(OpenAIModel, userPrompt));
      answers := AnswerMap(c, g, o);
    }

    /**
     * `run_all_three_and_judge(user_prompt)`: the three answers, the judge's verdict on them,
     * and the exchange appended to the log stamped `timestamp`.
     */
    method RunAllThreeAndJudge(p: Providers, decode: string -> Decoding, userPrompt: string, timestamp: string)
      returns (answers: map<string, string>, judge: Option<Verdict>)
      modifies this
      ensures answers == AnswerMap(ClaudeAnswer(p.claude(ClaudeModelDefault, userPrompt, 400)),
                                   GeminiReply(p.gemini(GeminiModel, GeminiPrompt(userPrompt)), old(geminiErrorShown)),
                                   OpenAIAnswer(p.openai(OpenAIModel, userPrompt)))
      ensures judge == JudgeOf(p, decode, DocOf(old(log)), answers)
      ensures judge.Some? ==>
        log == Some(Document(DocOf(old(log)).sessions + [AllThreeEntry(timestamp, userPrompt, answers, judge.value)]))
      ensures judge.None? ==> log == Some(DocOf(old(log)))
      ensures geminiErrorShown == (old(geminiErrorShown) || p.gemini(GeminiModel, GeminiPrompt(userPrompt)).Failure?)
      ensures backup == old(backup) && archives == old(archives)
    {
      answers := AskAllThree(p, userPrompt);
      judge := JudgeBest(p, decode, answers);
      if judge.Some? {
        SaveSessionEntry(AllThreeEntry(timestamp, userPrompt, answers, judge.value));
      }
    }

    /**
     * `route_single_agent(agent, user_prompt)`: the agent sees the last 1000 characters of
     * history before the prompt, and the exchange is appended to the log; an unknown agent key
     * only yields an error text.
     */
    method RouteSingleAgent(p: Providers, agent: string, userPrompt: string, timestamp: string)
      returns (reply: string)
      modifies this
      ensures agent == "claude" ==>
        && reply == ClaudeAnswer(p.claude(ClaudeModelDefault, RoutedPrompt(DocOf(old(log)), userPrompt), 400))
        && log == Some(Document(DocOf(old(log)).sessions + [SingleEntry(timestamp, userPrompt, "Claude", reply)]))
      ensures agent == "gemini" ==>
        && reply == GeminiReply(p.gemini(GeminiModel, GeminiPrompt(RoutedPrompt(DocOf(old(log)), userPrompt))),
                                old(geminiErrorShown))
        && log == Some(Document(DocOf(old(log)).sessions + [SingleEntry(timestamp, userPrompt, "Gemini", reply)]))
      ensures agent == "openai" ==>
        && reply == OpenAIAnswer(p.openai(OpenAIModel, RoutedPrompt(DocOf(old(log)), userPrompt)))
        && log == Some(Document(DocOf(old(log)).sessions + [SingleEntry(timestamp, userPrompt, "OpenAI", reply)]))
      ensures agent != "claude" && agent != "gemini" && agent != "openai" ==>
        log == Some(DocOf(old(log))) && reply == UnknownAgentMessage(agent)
      ensures agent == "gemini" ==>
        geminiErrorShown == (old(geminiErrorShown) || p.gemini(GeminiModel, GeminiPrompt(RoutedPrompt(DocOf(old(log)), userPrompt))).Failure?)
      ensures agent != "gemini" ==> geminiErrorShown == old(geminiErrorShown)
      ensures backup == old(backup) && archives == old(archives)
    {
      ghost var doc := DocOf(log);
      var shared := ReadHistory(1000);
      var routed := shared + "\n\nUser prompt:\n" + userPrompt;
      assert routed == RoutedPrompt(doc, userPrompt);
      reply := Dispatch(p, agent, userPrompt, routed, timestamp);
    }

    /**
     * The branches of `route_single_agent` once the prompt `routed` is built: the named agent
     * answers it and the exchange is appended to the log; an unknown key only yields a text.
     */
    method Dispatch(p: Providers, agent: string, userPrompt: string, routed: string, timestamp: string)
      returns (reply: string)
      modifies this
      ensures agent == "claude" ==>
        && reply == ClaudeAnswer(p.claude(ClaudeModelDefault, routed, 400))
        && log == Some(Document(DocOf(old(log)).sessions + [SingleEntry(timestamp, userPrompt, "Claude", reply)]))
      ensures agent == "gemini" ==>
        && reply == GeminiReply(p.gemini(GeminiModel, GeminiPrompt(routed)), old(geminiErrorShown))
        && log == Some(Document(DocOf(old(log)).sessions + [SingleEntry(timestamp, userPrompt, "Gemini", reply)]))
        && geminiErrorShown == (old(geminiErrorShown) || p.gemini(GeminiModel, GeminiPrompt(routed)).Failure?)
      ensures agent == "openai" ==>
        && reply == OpenAIAnswer(p.openai(OpenAIModel, routed))
        && log == Some(Document(DocOf(old(log)).sessions + [SingleEntry(timestamp, userPrompt, "OpenAI", reply)]))
      ensures agent != "claude" && agent != "gemini" && agent != "openai" ==>
        log == old(log) && reply == UnknownAgentMessage(agent)
      ensures agent != "gemini" ==> geminiErrorShown == old(geminiErrorShown)
      ensures backup == old(backup) && archives == old(archives)
    {
      assert "claude" != "gemini" && "claude" != "openai" && "gemini" != "openai" by {
        assert "claude"[0] != "gemini"[0] && "claude"[0] != "openai"[0] && "gemini"[0] != "openai"[0];
      }
      if agent == "claude" {
        reply := ClaudeAnswer(p.claude(ClaudeModelDefault, routed, 400));
        SaveSessionEntry(SingleEntry(timestamp, userPrompt, "Claude", reply));
      } else if agent == "gemini" {
        reply := AskGemini(p, routed);
        SaveSessionEntry(SingleEntry(timestamp, userPrompt, "Gemini", reply));
      } else if agent == "openai" {
        reply := OpenAIAnswer(p.openai(OpenAIModel, routed));
        SaveSessionEntry(SingleEntry(timestamp, userPrompt, "OpenAI", reply));
      } else {
        reply := UnknownAgentMessage(agent);
      }
    }

    /**
     * `parse_command(line)`: classify the line and carry out `clear`, `undo` and `save:`
     * on the spot; the returned triple tells the caller what is left to do.
     */
    method ParseCommand(line: string, elapsed: nat, savedAt: string)
      returns (mode: Option<string>, agent: Option<string>, prompt: Option<string>)
      modifies this
      ensures (mode, agent, prompt) == Returned(Classify(line))
      ensures Classify(line) == Clear ==>
        && (old(log).Some? ==> log == Some(EmptyDocument) && backup == old(log))
        && (old(log).None? ==> log == old(log) && backup == old(backup))
        && archives == old(archives)
      ensures Classify(line) == Undo ==>
        && (old(backup).Some? ==> log == old(backup) && backup.None?)
        && (old(backup).None? ==> log == old(log) && backup == old(backup))
        && archives == old(archives)
      ensures Classify(line).Save? ==>
        && (old(log).Some? ==>
              var n := if Classify(line).name != "" then Classify(line).name else sessionId;
              archives == old(archives)[n := Archive(old(log).value, n, SessionDuration(elapsed), savedAt)])
        && (old(log).None? ==> archives == old(archives))
        && log == old(log) && backup == old(backup)
      ensures !(Classify(line).Clear? || Classify(line).Undo? || Classify(line).Save?) ==>
        log == old(log) && backup == old(backup) && archives == old(archives)
      ensures geminiErrorShown == old(geminiErrorShown)
    {
      var c := Classify(line);
      match c {
        case Clear =>
          var _ := ClearSession();
        case Undo =>
          var _ := UndoClear();
        case Save(name) =>
          var _ := SaveSession(Some(name), elapsed, savedAt);
        case _ =>
      }
      var t := Returned(c);
      mode, agent, prompt := t.0, t.1, t.2;
    }
  }

  /** `clear` followed by `undo` puts the log back as it was and leaves the backup slot empty. */
  method ClearThenUndo(s: Session)
    requires s.log.Some?
    modifies s
    ensures s.log == old(s.log) && s.backup.None?
    ensures s.archives == old(s.archives)
  {
    var cleared := s.ClearSession();
    assert cleared;
    var restored := s.UndoClear();
    assert restored;
  }

  /** A second `undo` after a successful one finds nothing to restore and changes nothing. */
  method UndoTwice(s: Session)
    modifies s
    ensures s.backup.None?
    ensures old(s.backup).Some? ==> s.log == old(s.backup)
    ensures old(s.backup).None? ==> s.log == old(s.log)
  {
    var first := s.UndoClear();
    var second := s.UndoClear();
    assert !second;
  }
}
