/**
 * The line router of the interactive chat loop: one input line is classified by a fixed
 * chain of tests (blank, `menu`, `exit`, `clear`, `undo`, `save:`, `all:`, the three agent
 * prefixes) and anything else is a prompt for all three providers.
 */
module ChatCommand {
  import opened Wrappers
  import opened PyStr

  /** What a line asks for. `Clear`, `Undo` and `Save` are carried out by the router itself. */
  datatype Command =
    | Blank
    | Menu
    | Exit
    | Clear
    | Undo
    | Save(name: string)
    | All(prompt: string)
    | Single(agent: string, prompt: string)

  /** The agent prefixes, in the order they are tried. */
  const AgentKeys: seq<string> := ["claude", "gemini", "openai"]

  /** The words that are whole commands (compared after lower-casing). */
  predicate IsControlWord(sl: string) {
    sl == "menu" || sl == "exit" || sl == "clear" || sl == "undo"
  }

  /**
   * `s.split(":", 1)[1]`: the text after the first colon. Every call site has a colon
   * (`ColonAfterPrefix`); the empty result for a string without one is never used.
   */
  function AfterFirstColon(s: string): (r: string)
    ensures ':' in s ==> r == s[Find(s, ':') + 1..]
  {
    var k := Find(s, ':');
    if k < 0 then "" else s[k + 1..]
  }

  /** The first of `keys` that `sl` starts with, followed by a colon. */
  function MatchAgent(sl: string, keys: seq<string>): (r: Option<string>)
    ensures r.Some? ==> r.value in keys && StartsWith(sl, r.value + ":")
    ensures r.None? ==> forall k :: k in keys ==> !StartsWith(sl, k + ":")
  {
    if keys == [] then None
    else if StartsWith(sl, keys[0] + ":") then Some(keys[0])
    else MatchAgent(sl, keys[1..])
  }

  /**
   * `parse_command(line)` as far as it decides: control words are matched on the lower-cased
   * stripped line, and a prefix's prompt is the stripped text after the first colon.
   */
  function Classify(line: string): (c: Command)
    ensures c == Blank <==> AllSpace(line)
    ensures c.Single? ==> c.agent in AgentKeys
  {
    Route(Strip(line))
  }

  /** The decision chain on the stripped line `s`. */
  function Route(s: string): (c: Command)
    ensures c == Blank <==> s == []
    ensures c.Single? ==> c.agent in AgentKeys
  {
    if s == [] then Blank
    else
      var sl := Lower(s);
      if sl == "menu" then Menu
      else if sl == "exit" then Exit
      else if sl == "clear" then Clear
      else if sl == "undo" then Undo
      else if StartsWith(sl, "save:") then Save(Strip(AfterFirstColon(s)))
      else if StartsWith(sl, "all:") then All(Strip(AfterFirstColon(s)))
      else
        match MatchAgent(sl, AgentKeys)
        case Some(a) => Single(a, Strip(AfterFirstColon(s)))
        case None => All(s)
  }

  /** The four control words are recognised whatever their case, and nothing else yields them. */
  lemma {:induction false} RouteControlWords(line: string)
    ensures Classify(line) == Menu <==> Lower(Strip(line)) == "menu"
    ensures Classify(line) == Exit <==> Lower(Strip(line)) == "exit"
    ensures Classify(line) == Clear <==> Lower(Strip(line)) == "clear"
    ensures Classify(line) == Undo <==> Lower(Strip(line)) == "undo"
  {
    RouteControlWordsStripped(Strip(line));
  }

  lemma {:induction false} RouteControlWordsStripped(s: string)
    ensures Route(s) == Menu <==> Lower(s) == "menu"
    ensures Route(s) == Exit <==> Lower(s) == "exit"
    ensures Route(s) == Clear <==> Lower(s) == "clear"
    ensures Route(s) == Undo <==> Lower(s) == "undo"
  {
    if s == [] { assert Lower(s) == []; }
  }

  /** `save:<name>` asks for an archive under the stripped name ("" asks for the automatic name). */
  lemma {:induction false} RouteSave(line: string)
    ensures Classify(line).Save? <==> StartsWith(Lower(Strip(line)), "save:")
    ensures Classify(line).Save? ==> Classify(line).name == Strip(Strip(line)[5..])
  {
    RouteSaveStripped(Strip(line));
  }

  lemma {:induction false} RouteSaveStripped(s: string)
    ensures Route(s).Save? <==> StartsWith(Lower(s), "save:")
    ensures Route(s).Save? ==> Route(s).name == Strip(s[5..])
  {
    var sl := Lower(s);
    if StartsWith(sl, "save:") {
      PrefixNotControlWord(sl, "save:");
      ColonAfterPrefix(s, "save");
    }
  }

  /** A line starting with `all:` in any case goes to all three providers with the stripped rest. */
  lemma {:induction false} RouteAll(line: string)
    requires StartsWith(Lower(Strip(line)), "all:")
    ensures Classify(line) == All(Strip(Strip(line)[4..]))
  {
    RouteAllStripped(Strip(line));
  }

  lemma {:induction false} RouteAllStripped(s: string)
    requires StartsWith(Lower(s), "all:")
    ensures Route(s) == All(Strip(s[4..]))
  {
    var sl := Lower(s);
    PrefixNotControlWord(sl, "all:");
    assert !StartsWith(sl, "save:") by { assert sl[0] == 'a'; }
    ColonAfterPrefix(s, "all");
  }

  /** A line starting with `<agent>:` in any case goes to that agent alone with the stripped rest. */
  lemma {:induction false} RouteSingle(line: string, a: string)
    requires a in AgentKeys && StartsWith(Lower(Strip(line)), a + ":")
    ensures Classify(line) == Single(a, Strip(Strip(line)[|a| + 1..]))
  {
    RouteSingleStripped(Strip(line), a);
  }

  lemma {:induction false} RouteSingleStripped(s: string, a: string)
    requires a in AgentKeys && StartsWith(Lower(s), a + ":")
    ensures Route(s) == Single(a, Strip(s[|a| + 1..]))
  {
    var sl := Lower(s);
    PrefixNotControlWord(sl, a + ":");
    assert !StartsWith(sl, "save:") && !StartsWith(sl, "all:") by {
      assert sl[0] == a[0];
    }
    MatchAgentFirst(sl, a);
    ColonAfterPrefix(s, a);
  }

  /** Any other non-blank line is a prompt for all three providers, stripped but otherwise as typed. */
  lemma {:induction false} RouteDefault(line: string)
    requires !AllSpace(line) && !IsControlWord(Lower(Strip(line)))
    requires !StartsWith(Lower(Strip(line)), "save:") && !StartsWith(Lower(Strip(line)), "all:")
    requires forall a :: a in AgentKeys ==> !StartsWith(Lower(Strip(line)), a + ":")
    ensures Classify(line) == All(Strip(line))
  {
  }

  /** A string that starts with a colon-terminated prefix is none of the control words. */
  lemma {:induction false} PrefixNotControlWord(sl: string, p: string)
    requires StartsWith(sl, p) && |p| >= 4 && p[|p| - 1] == ':' && ':' !in p[..|p| - 1]
    ensures !IsControlWord(sl)
  {
    if |sl| <= 5 {
      assert sl[|p| - 1] == ':';
    }
  }

  /** The agent prefixes exclude one another, so the first match is the one the line starts with. */
  lemma {:induction false} MatchAgentFirst(sl: string, a: string)
    requires a in AgentKeys && StartsWith(sl, a + ":")
    ensures MatchAgent(sl, AgentKeys) == Some(a)
  {
    var m := MatchAgent(sl, AgentKeys);
    assert m.Some?;
    assert sl[..|m.value| + 1] == m.value + ":";
    assert m.value[0] == a[0] by {
      assert sl[0] == (m.value + ":")[0] == (a + ":")[0];
    }
  }

  lemma {:induction false} LowerColon(c: char)
    ensures LowerChar(c) == ':' <==> c == ':'
  {
  }

  /** When the lower-cased `s` starts with `p + ":"` and `p` has no colon, the first colon of `s` follows `p`. */
  lemma {:induction false} ColonAfterPrefix(s: string, p: string)
    requires StartsWith(Lower(s), p + ":") && ':' !in p
    ensures ':' in s && Find(s, ':') == |p|
  {
    var sl := Lower(s);
    assert sl[|p|] == (p + ":")[|p|] == ':';
    LowerColon(s[|p|]);
    forall i | 0 <= i < |p| ensures s[i] != ':' {
      assert sl[i] == p[i];
      LowerColon(s[i]);
    }
    assert ':' !in s[..|p|];
    FindIs(s, ':', |p|);
  }

  /** The `(mode, agent, prompt)` triple `parse_command` returns for a command. */
  function Returned(c: Command): (t: (Option<string>, Option<string>, Option<string>))
    ensures t.0.None? <==> (c.Blank? || c.Clear? || c.Undo? || c.Save?)
    ensures t.1.Some? <==> c.Single?
    ensures t.2.Some? <==> (c.All? || c.Single?)
  {
    match c
    case Blank => (None, None, None)
    case Clear => (None, None, None)
    case Undo => (None, None, None)
    case Save(_) => (None, None, None)
    case Menu => (Some("menu"), None, None)
    case Exit => (Some("exit"), None, None)
    case All(p) => (Some("all"), None, Some(p))
    case Single(a, p) => (Some("single"), Some(a), Some(p))
  }

  /**
   * The triples of a blank line and of the control words: `("menu", None, None)` and
   * `("exit", None, None)` for those two words, nothing at all for a blank line, `clear`,
   * `undo` and `save:`.
   */
  lemma {:induction false} ParsedControl(line: string)
    ensures AllSpace(line) ==> Returned(Classify(line)) == (None, None, None)
    ensures Lower(Strip(line)) == "menu" ==> Returned(Classify(line)) == (Some("menu"), None, None)
    ensures Lower(Strip(line)) == "exit" ==> Returned(Classify(line)) == (Some("exit"), None, None)
    ensures Lower(Strip(line)) == "clear" || Lower(Strip(line)) == "undo" || StartsWith(Lower(Strip(line)), "save:")
      ==> Returned(Classify(line)) == (None, None, None)
  {
    RouteControlWords(line);
    RouteSave(line);
  }

  /** An `all:` line returns `("all", None, <stripped rest>)`. */
  lemma {:induction false} ParsedAll(line: string)
    requires StartsWith(Lower(Strip(line)), "all:")
    ensures Returned(Classify(line)) == (Some("all"), None, Some(Strip(Strip(line)[4..])))
  {
    RouteAll(line);
  }

  /** An `<agent>:` line returns `("single", <agent>, <stripped rest>)`. */
  lemma {:induction false} ParsedSingle(line: string, a: string)
    requires a in AgentKeys && StartsWith(Lower(Strip(line)), a + ":")
    ensures Returned(Classify(line)) == (Some("single"), Some(a), Some(Strip(Strip(line)[|a| + 1..])))
  {
    RouteSingle(line, a);
  }

  /** Any other non-blank line returns `("all", None, <stripped line>)`. */
  lemma {:induction false} ParsedDefault(line: string)
    requires !AllSpace(line) && !IsControlWord(Lower(Strip(line)))
    requires !StartsWith(Lower(Strip(line)), "save:") && !StartsWith(Lower(Strip(line)), "all:")
    requires forall a :: a in AgentKeys ==> !StartsWith(Lower(Strip(line)), a + ":")
    ensures Returned(Classify(line)) == (Some("all"), None, Some(Strip(line)))
  {
    RouteDefault(line);
  }
}
