/**
 * The judge step of the all-three mode: the judge model's reply is searched for a JSON object,
 * and whatever comes back (a good object, a partial one, nothing, a malformed one) is repaired
 * into a verdict whose best agent is always one of the three providers.
 */
module ChatVerdict {
  import opened Wrappers
  import opened PySeq
  import opened PyStr

  /** The provider names as they appear in answers and verdicts. */
  const Agents: seq<string> := ["Claude", "Gemini", "OpenAI"]

  /** A JSON member value: a string, or any other value shown the way Python's `str` shows it. */
  datatype Json = JString(text: string) | JOther(shown: string)

  /** What `f"{value}"` writes for a member value. */
  function Render(j: Json): string {
    match j
    case JString(t) => t
    case JOther(shown) => shown
  }

  /**
   * The outcome of `json.loads` on a candidate span: an object with its members, a well-formed
   * value that is not an object, a syntax error at a position, or any other exception.
   */
  datatype Decoding =
    | Decoded(fields: map<string, Json>)
    | NotObject
    | DecodeError(pos: nat)
    | Raised(message: string)

  /** The stored judge record: who judged, the chosen agent, its text and the rationale. */
  datatype Verdict = Verdict(judgeAgent: string, bestAgent: string, bestText: Json, rationale: Json)

  /** `answers.get(key, "")`. */
  function Answer(answers: map<string, string>, key: string): (r: string)
    ensures key in answers ==> r == answers[key]
    ensures key !in answers ==> r == ""
  {
    if key in answers then answers[key] else ""
  }

  /**
   * The text handed to the decoder: from the first `{` to the last `}` inclusive, or nothing
   * when either brace is missing. When the last `}` comes before the first `{` the Python
   * slice is empty.
   */
  function JsonSpan(t: string): (r: Option<string>)
    ensures r.None? <==> '{' !in t || '}' !in t
    ensures r.Some? && r.value != [] ==>
      IsAt(t, r.value, Find(t, '{')) && r.value[0] == '{' && r.value[|r.value| - 1] == '}'
    ensures r.Some? && r.value != [] ==>
      '{' !in t[..Find(t, '{')] && '}' !in t[Find(t, '{') + |r.value|..]
    ensures r.Some? ==> (r.value == [] <==> RFind(t, '}') < Find(t, '{'))
  {
    var start := Find(t, '{');
    var end := RFind(t, '}');
    if start == -1 || end == -1 then None
    else if end < start then Some([])
    else Some(t[start..end + 1])
  }

  /** The agent a decoded object names, when it names one of the three; otherwise Claude. */
  function RepairedAgent(fields: map<string, Json>): (a: string)
    ensures a in Agents
    ensures "best_agent" in fields && fields["best_agent"].JString? && fields["best_agent"].text in Agents
      ==> a == fields["best_agent"].text
  {
    if "best_agent" in fields && fields["best_agent"].JString? && fields["best_agent"].text in Agents
    then fields["best_agent"].text
    else "Claude"
  }

  /** The verdict built from a decoded object: missing members are filled in, the rest kept. */
  function Repair(fields: map<string, Json>, answers: map<string, string>, judgeAgent: string): Verdict {
    var agent := RepairedAgent(fields);
    Verdict(
      judgeAgent,
      agent,
      if "best_text" in fields then fields["best_text"] else JString(Answer(answers, agent)),
      if "rationale" in fields then fields["rationale"] else JString("No rationale provided"))
  }

  /** The verdict when nothing usable was decoded: Claude's answer, with a rationale saying why. */
  function Fallback(answers: map<string, string>, judgeAgent: string, rationale: string): Verdict {
    Verdict(judgeAgent, "Claude", JString(Answer(answers, "Claude")), JString(rationale))
  }

  /**
   * `judge_best_with_claude` after the judge has replied with `judgeText`. `None` is the case
   * where the span decodes to a value that is not an object: the repair then raises a
   * `TypeError` inside its own exception handler and the error escapes the call.
   */
  function JudgeVerdict(judgeText: string, answers: map<string, string>, decode: string -> Decoding,
                        judgeModel: string): (r: Option<Verdict>)
    ensures r.Some? ==> r.value.bestAgent in Agents
    ensures r.Some? ==> r.value.judgeAgent == "Claude (" + judgeModel + ")"
    ensures r.None? <==> JsonSpan(judgeText).Some? && decode(JsonSpan(judgeText).value).NotObject?
  {
    var judgeAgent := "Claude (" + judgeModel + ")";
    var raw := Take(judgeText, 100);
    match JsonSpan(judgeText)
    case None => Some(Fallback(answers, judgeAgent, "Fallback: No JSON in response. Raw: " + raw + "..."))
    case Some(span) =>
      match decode(span)
      case Decoded(fields) => Some(Repair(fields, answers, judgeAgent))
      case NotObject => None
      case DecodeError(pos) =>
        Some(Fallback(answers, judgeAgent,
          "Fallback: JSON error at position " + NatToString(pos) + ". Raw: " + raw + "..."))
      case Raised(message) => Some(Fallback(answers, judgeAgent, "Fallback: " + Take(message, 100)))
  }

  /**
   * A decoded object keeps every member it supplies: a valid agent, its text and its rationale
   * go through unchanged.
   */
  lemma {:induction false} JudgeKeepsDecoded(judgeText: string, answers: map<string, string>, decode: string -> Decoding,
                          judgeModel: string)
    requires JsonSpan(judgeText).Some? && decode(JsonSpan(judgeText).value).Decoded?
    ensures var fields := decode(JsonSpan(judgeText).value).fields;
      var v := JudgeVerdict(judgeText, answers, decode, judgeModel).value;
      && (("best_agent" in fields && fields["best_agent"] in [JString("Claude"), JString("Gemini"), JString("OpenAI")])
            ==> fields["best_agent"] == JString(v.bestAgent))
      && ("best_text" in fields ==> v.bestText == fields["best_text"])
      && ("rationale" in fields ==> v.rationale == fields["rationale"])
  {
  }

  /**
   * A decoded object lacking members is completed: an unknown or missing agent becomes Claude,
   * a missing text is the chosen agent's own answer, a missing rationale says so.
   */
  lemma {:induction false} JudgeFillsMissing(judgeText: string, answers: map<string, string>, decode: string -> Decoding,
                          judgeModel: string)
    requires JsonSpan(judgeText).Some? && decode(JsonSpan(judgeText).value).Decoded?
    ensures var fields := decode(JsonSpan(judgeText).value).fields;
      var v := JudgeVerdict(judgeText, answers, decode, judgeModel).value;
      && (("best_agent" !in fields || fields["best_agent"] !in [JString("Claude"), JString("Gemini"), JString("OpenAI")])
            ==> v.bestAgent == "Claude")
      && ("best_text" !in fields ==> v.bestText == JString(Answer(answers, v.bestAgent)))
      && ("rationale" !in fields ==> v.rationale == JString("No rationale provided"))
  {
    var fields := decode(JsonSpan(judgeText).value).fields;
    if "best_agent" in fields && fields["best_agent"].JString? && fields["best_agent"].text in Agents {
      var a := fields["best_agent"].text;
      assert a == "Claude" || a == "Gemini" || a == "OpenAI";
    }
  }

  /**
   * Whenever no object was decoded (no braces, a syntax error, another exception) the verdict
   * picks Claude and Claude's own answer, and the rationale says which failure it was: the
   * first hundred characters of the reply after "No JSON" or the error position, or the first
   * hundred characters of the exception's message.
   */
  lemma {:induction false} JudgeFallbackPicksClaude(judgeText: string, answers: map<string, string>, decode: string -> Decoding,
                                 judgeModel: string)
    requires JsonSpan(judgeText).None? || !decode(JsonSpan(judgeText).value).Decoded?
    requires JsonSpan(judgeText).None? || !decode(JsonSpan(judgeText).value).NotObject?
    ensures var v := JudgeVerdict(judgeText, answers, decode, judgeModel).value;
      && v.bestAgent == "Claude"
      && v.bestText == JString(Answer(answers, "Claude"))
      && v.rationale.JString? && StartsWith(v.rationale.text, "Fallback: ")
    ensures JsonSpan(judgeText).None? ==>
      JudgeVerdict(judgeText, answers, decode, judgeModel).value.rationale
      == JString("Fallback: No JSON in response. Raw: " + Take(judgeText, 100) + "...")
    ensures JsonSpan(judgeText).Some? && decode(JsonSpan(judgeText).value).DecodeError? ==>
      JudgeVerdict(judgeText, answers, decode, judgeModel).value.rationale
      == JString("Fallback: JSON error at position " + NatToString(decode(JsonSpan(judgeText).value).pos)
           + ". Raw: " + Take(judgeText, 100) + "...")
    ensures JsonSpan(judgeText).Some? && decode(JsonSpan(judgeText).value).Raised? ==>
      JudgeVerdict(judgeText, answers, decode, judgeModel).value.rationale
      == JString("Fallback: " + Take(decode(JsonSpan(judgeText).value).message, 100))
  {
    var raw := Take(judgeText, 100);
    match JsonSpan(judgeText)
    case None =>
      assert StartsWith("Fallback: No JSON in response. Raw: " + raw + "...", "Fallback: ");
    case Some(span) =>
      match decode(span)
      case DecodeError(pos) =>
        assert StartsWith("Fallback: JSON error at position " + NatToString(pos) + ". Raw: " + raw + "...",
                          "Fallback: ");
      case Raised(message) =>
        assert StartsWith("Fallback: " + Take(message, 100), "Fallback: ");
  }

  /**
   * A reply whose only closing brace precedes its only opening brace hands the decoder the
   * empty string; with a decoder that rejects it at position 0, the rationale reports that.
   */
  lemma {:induction false} JudgeBracesReversed(judgeText: string, answers: map<string, string>, decode: string -> Decoding,
                            judgeModel: string)
    requires '{' in judgeText && '}' in judgeText && RFind(judgeText, '}') < Find(judgeText, '{')
    requires decode([]) == DecodeError(0)
    ensures JudgeVerdict(judgeText, answers, decode, judgeModel)
      == Some(Fallback(answers, "Claude (" + judgeModel + ")",
           "Fallback: JSON error at position 0. Raw: " + Take(judgeText, 100) + "..."))
  {
    assert JsonSpan(judgeText) == Some([]);
    PositionZero(Take(judgeText, 100));
  }

  lemma {:induction false} PositionZero(raw: string)
    ensures "Fallback: JSON error at position " + NatToString(0) + ". Raw: " + raw + "..."
         == "Fallback: JSON error at position 0. Raw: " + raw + "..."
  {
    assert NatToString(0) == "0" by { assert DigitChar(0) == '0'; }
    var a := "Fallback: JSON error at position ";
    var b := ". Raw: ";
    assert a + "0" + b == "Fallback: JSON error at position 0. Raw: ";
  }

  /**
   * A reply with prose around one object, where the prose before it has no `{` and the prose
   * after it no `}`: the decoder is given exactly the object.
   */
  lemma {:induction false} SpanInsideProse(before: string, obj: string, after: string)
    requires |obj| >= 2 && obj[0] == '{' && obj[|obj| - 1] == '}'
    requires '{' !in before && '}' !in after
    ensures JsonSpan(before + obj + after) == Some(obj)
  {
    var t := before + obj + after;
    assert t[|before|] == '{' && t[..|before|] == before;
    FindIs(t, '{', |before|);
    var e := |before| + |obj| - 1;
    assert t[e] == '}' && t[e + 1..] == after;
    RFindIs(t, '}', e);
    assert t[|before|..e + 1] == obj;
  }

  /** The prompt the judge receives: the prior context and the three answers, in provider order. */
  function ComparisonPrompt(history: string, answers: map<string, string>): (p: string)
    ensures IsAt(p, history, |PromptHead|)
  {
    var p := PromptHead + history + "\n\nAnswers to compare:\n"
      + "- Claude: " + Answer(answers, "Claude") + "\n"
      + "- Gemini: " + Answer(answers, "Gemini") + "\n"
      + "- OpenAI: " + Answer(answers, "OpenAI") + "\n\n"
      + PromptFormat;
    assert p[|PromptHead|..|PromptHead| + |history|] == history;
    p
  }

  /** The fixed instructions that precede the prior context in the judge's prompt. */
  const PromptHead: string :=
    "You are the lead judge. Compare the following three answers and select the single best outcome. "
    + "Prioritize factual accuracy, clarity, completeness, and actionable detail. Explain your choice briefly.\n\n"
    + "Prior conversation context:\n"

  /** The reply format the judge is asked for, closing the judge's prompt. */
  const PromptFormat: string :=
    "Return your response in this strict JSON format:\n"
    + "{ \"best_agent\": \"Claude|Gemini|OpenAI\", \"best_text\": \"...\", \"rationale\": \"...\" }"
}
