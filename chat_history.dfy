/**
 * The chat log document and the condensed history text the providers are shown: one header
 * line per stored exchange, the providers' replies in a fixed order, the judge's choice, all
 * joined by newlines and cut to the last `maxChars` characters.
 */
module ChatHistory {
  import opened Wrappers
  import opened PySeq
  import opened PyStr
  import opened ChatVerdict

  /** How an exchange was run. */
  datatype Mode = Single | AllThreeThenJudge

  /** The `mode` member written to the log. */
  function ModeName(m: Mode): (name: string)
    ensures name == "single" <==> m == Single
  {
    match m
    case Single => "single"
    case AllThreeThenJudge => "all_three_then_judge"
  }

  /**
   * One stored exchange. `agent` is present for a single-agent exchange and `judge` for an
   * all-three one; `responses` maps provider names to replies.
   */
  datatype Entry = Entry(
    timestamp: string,
    userPrompt: string,
    mode: Mode,
    agent: Option<string>,
    responses: map<string, string>,
    judge: Option<Verdict>)

  /** The log file's content, `{"sessions": [...]}`. */
  datatype Document = Document(sessions: seq<Entry>)

  const EmptyDocument: Document := Document([])

  /** The entry written after an all-three exchange. */
  function AllThreeEntry(timestamp: string, userPrompt: string, answers: map<string, string>,
                         judge: Verdict): (e: Entry)
    ensures e.mode == AllThreeThenJudge && e.agent.None? && e.judge == Some(judge)
    ensures e.responses == answers && e.userPrompt == userPrompt
  {
    Entry(timestamp, userPrompt, AllThreeThenJudge, None, answers, Some(judge))
  }

  /** The entry written after a single-agent exchange: only that agent's reply is stored. */
  function SingleEntry(timestamp: string, userPrompt: string, agent: string, reply: string): (e: Entry)
    ensures e.mode == Single && e.agent == Some(agent) && e.judge.None?
    ensures e.responses == map[agent := reply] && e.userPrompt == userPrompt
  {
    Entry(timestamp, userPrompt, Single, Some(agent), map[agent := reply], None)
  }

  /** `f"[{ts}] User: {user}"`. */
  function HeaderLine(e: Entry): string {
    "[" + e.timestamp + "] User: " + e.userPrompt
  }

  /** `f"{agent}: {reply}"`. */
  function AgentLine(agent: string, reply: string): string {
    agent + ": " + reply
  }

  /** The reply line of one provider, when it answered. */
  function ReplyLine(responses: map<string, string>, agent: string): (r: seq<string>)
    ensures agent in responses <==> |r| == 1
    ensures agent !in responses <==> r == []
  {
    if agent in responses then [AgentLine(agent, responses[agent])] else []
  }

  /** The reply lines of the providers in `agents` that answered, built up from the last. */
  function ProviderChunks(responses: map<string, string>, agents: seq<string>): seq<string> {
    if agents == [] then []
    else ProviderChunks(responses, agents[..|agents| - 1]) + ReplyLine(responses, agents[|agents| - 1])
  }

  /** Replies appear as Claude, then Gemini, then OpenAI, whatever order the map was built in. */
  lemma {:induction false} ProviderOrder(responses: map<string, string>)
    ensures ProviderChunks(responses, Agents)
      == ReplyLine(responses, "Claude") + ReplyLine(responses, "Gemini") + ReplyLine(responses, "OpenAI")
  {
    var p := Agents;
    assert p[..2] + [p[2]] == p;
    assert p[..1] + [p[1]] == p[..2];
    assert [] + [p[0]] == p[..1];
    ProviderChunksSnoc(responses, p[..2], p[2]);
    ProviderChunksSnoc(responses, p[..1], p[1]);
    ProviderChunksSnoc(responses, [], p[0]);
    assert ProviderChunks(responses, []) + ReplyLine(responses, p[0]) == ReplyLine(responses, p[0]);
  }

  lemma {:induction false} ProviderChunksSnoc(responses: map<string, string>, agents: seq<string>, a: string)
    ensures ProviderChunks(responses, agents + [a]) == ProviderChunks(responses, agents) + ReplyLine(responses, a)
  {
    assert (agents + [a])[..|agents|] == agents;
  }

  /** `f"Judge: {judge_agent} -> {best_agent}"`. */
  function JudgeLine(v: Verdict): string {
    "Judge: " + v.judgeAgent + " -> " + v.bestAgent
  }

  /** `f"Best Outcome: {best_text}"`. */
  function OutcomeLine(v: Verdict): string {
    "Best Outcome: " + Render(v.bestText)
  }

  /** The two judge lines of an entry that has a verdict. */
  function JudgeLines(judge: Option<Verdict>): (r: seq<string>)
    ensures judge.None? <==> r == []
  {
    match judge
    case None => []
    case Some(v) => [JudgeLine(v), OutcomeLine(v)]
  }

  /** The history lines of one entry. */
  function EntryChunks(e: Entry): (r: seq<string>)
    ensures |r| >= 1 && r[0] == HeaderLine(e)
  {
    [HeaderLine(e)] + ProviderChunks(e.responses, Agents) + JudgeLines(e.judge)
  }

  /** The history lines of a list of entries, built up from the last. */
  function Chunks(sessions: seq<Entry>): seq<string> {
    if sessions == [] then [] else Chunks(sessions[..|sessions| - 1]) + EntryChunks(sessions[|sessions| - 1])
  }

  /** `"\n".join(chunks)` over the whole document. */
  function HistoryText(doc: Document): string {
    Join("\n", Chunks(doc.sessions))
  }

  /**
   * `text[-maxChars:] if len(text) > maxChars else text`, with Python's slice rules: a zero
   * bound keeps everything and a negative one drops that many characters from the front.
   */
  function Tail(text: string, maxChars: int): (r: string)
    ensures |r| <= |text| && r == text[|text| - |r|..]
    ensures |text| <= maxChars ==> r == text
    ensures |text| > maxChars > 0 ==> |r| == maxChars
    ensures maxChars == 0 ==> r == text
    ensures maxChars < 0 ==> |r| == if -maxChars < |text| then |text| + maxChars else 0
  {
    if |text| > maxChars then
      if maxChars > 0 then text[|text| - maxChars..]
      else if maxChars == 0 then text
      else if -maxChars < |text| then text[-maxChars..]
      else []
    else text
  }

  /**
   * `read_history_text(max_chars)` on a given document: the lines of every entry in order,
   * joined by newlines and cut to the tail.
   */
  method ReadHistoryText(doc: Document, maxChars: int) returns (text: string)
    ensures text == Tail(HistoryText(doc), maxChars)
    ensures doc.sessions == [] ==> text == []
  {
    var chunks: seq<string> := [];
    var i := 0;
    while i < |doc.sessions|
      invariant 0 <= i <= |doc.sessions|
      invariant chunks == Chunks(doc.sessions[..i])
    {
      var s := doc.sessions[i];
      ghost var before := chunks;
      chunks := chunks + [HeaderLine(s)];
      chunks := AppendReplies(chunks, s.responses);
      ghost var replies := chunks;
      match s.judge {
        case Some(v) =>
          chunks := chunks + [JudgeLine(v)];
          chunks := chunks + [OutcomeLine(v)];
        case None =>
      }
      assert chunks == replies + JudgeLines(s.judge);
      ConcatAssoc(before, [HeaderLine(s)], ProviderChunks(s.responses, Agents));
      ConcatAssoc(before, [HeaderLine(s)] + ProviderChunks(s.responses, Agents), JudgeLines(s.judge));
      ChunksSnoc(doc.sessions, i);
      i := i + 1;
    }
    assert doc.sessions[..i] == doc.sessions;
    text := Tail(Join("\n", chunks), maxChars);
  }

  /** The inner loop of `read_history_text`: one line per provider that answered, in provider order. */
  method AppendReplies(chunks: seq<string>, responses: map<string, string>) returns (out: seq<string>)
    ensures out == chunks + ProviderChunks(responses, Agents)
  {
    out := chunks;
    var j := 0;
    while j < |Agents|
      invariant 0 <= j <= |Agents|
      invariant out == chunks + ProviderChunks(responses, Agents[..j])
    {
      var agent := Agents[j];
      ProviderChunksSnoc(responses, Agents[..j], agent);
      assert Agents[..j + 1] == Agents[..j] + [agent];
      if agent in responses {
        out := out + [AgentLine(agent, responses[agent])];
      }
      j := j + 1;
    }
    assert Agents[..j] == Agents;
  }

  lemma {:induction false} ConcatAssoc(a: seq<string>, b: seq<string>, c: seq<string>)
    ensures a + b + c == a + (b + c)
  {
  }

  lemma {:induction false} ChunksSnoc(sessions: seq<Entry>, i: nat)
    requires i < |sessions|
    ensures Chunks(sessions[..i + 1]) == Chunks(sessions[..i]) + EntryChunks(sessions[i])
  {
    assert sessions[..i + 1][..i] == sessions[..i];
  }

  /**
   * Saving an entry extends the history: the new text is the old one, a newline, and the
   * entry's own lines (the old text stands alone when the log was empty).
   */
  lemma {:induction false} HistoryAppend(doc: Document, e: Entry)
    ensures HistoryText(Document(doc.sessions + [e]))
      == if doc.sessions == [] then Join("\n", EntryChunks(e))
         else HistoryText(doc) + "\n" + Join("\n", EntryChunks(e))
  {
    var s := doc.sessions + [e];
    assert s[..|s| - 1] == doc.sessions;
    if doc.sessions == [] {
      assert Chunks(doc.sessions) == [];
      assert Chunks(s) == EntryChunks(e);
    } else {
      ChunksNonEmpty(doc.sessions);
      JoinAppend("\n", Chunks(doc.sessions), EntryChunks(e));
    }
  }

  /** A non-empty log has at least one history line. */
  lemma {:induction false} ChunksNonEmpty(sessions: seq<Entry>)
    requires sessions != []
    ensures Chunks(sessions) != []
  {
    assert |EntryChunks(sessions[|sessions| - 1])| >= 1;
  }

  /** Joining two non-empty lists of parts puts one separator between their joins. */
  lemma {:induction false} JoinAppend(sep: string, a: seq<string>, b: seq<string>)
    requires a != [] && b != []
    ensures Join(sep, a + b) == Join(sep, a) + sep + Join(sep, b)
    decreases |a|
  {
    assert a + b == [a[0]] + (a[1..] + b);
    JoinCons(sep, a[0], a[1..] + b);
    if |a| > 1 {
      JoinAppend(sep, a[1..], b);
      JoinCons(sep, a[0], a[1..]);
      assert a == [a[0]] + a[1..];
    }
  }

  /** An all-three exchange where every provider answered contributes six lines, in this order. */
  lemma {:induction false} AllThreeLines(timestamp: string, userPrompt: string, c: string, g: string, o: string, judge: Verdict)
    ensures EntryChunks(AllThreeEntry(timestamp, userPrompt, map["Claude" := c, "Gemini" := g, "OpenAI" := o], judge))
      == ["[" + timestamp + "] User: " + userPrompt, "Claude: " + c, "Gemini: " + g, "OpenAI: " + o,
          "Judge: " + judge.judgeAgent + " -> " + judge.bestAgent, "Best Outcome: " + Render(judge.bestText)]
  {
    var m := map["Claude" := c, "Gemini" := g, "OpenAI" := o];
    ProviderOrder(m);
    assert "Claude" != "Gemini" && "Claude" != "OpenAI" && "Gemini" != "OpenAI" by {
      assert "Claude"[0] != "Gemini"[0] && "Claude"[0] != "OpenAI"[0] && "Gemini"[0] != "OpenAI"[0];
    }
    assert "Claude" + ": " == "Claude: " && "Gemini" + ": " == "Gemini: " && "OpenAI" + ": " == "OpenAI: ";
    assert ReplyLine(m, "Claude") == [AgentLine("Claude", c)] && AgentLine("Claude", c) == "Claude: " + c;
    assert ReplyLine(m, "Gemini") == [AgentLine("Gemini", g)] && AgentLine("Gemini", g) == "Gemini: " + g;
    assert ReplyLine(m, "OpenAI") == [AgentLine("OpenAI", o)] && AgentLine("OpenAI", o) == "OpenAI: " + o;
  }

  /** A single-agent exchange under one of the provider names contributes the header and one reply. */
  lemma {:induction false} SingleLines(timestamp: string, userPrompt: string, agent: string, reply: string)
    requires agent in Agents
    ensures EntryChunks(SingleEntry(timestamp, userPrompt, agent, reply))
      == ["[" + timestamp + "] User: " + userPrompt, agent + ": " + reply]
  {
    ProviderOrder(map[agent := reply]);
  }
}
