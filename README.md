# Multi-AI chat and diagnostics tools, modelled in Dafny

The repository holds three small Python programs. This project models the part of each that makes decisions, and proves what that part promises.

- **The multi-AI chat session** (`multi_ai_chat.py`) sends a prompt to Claude, Gemini and OpenAI. It asks a judge model to pick the best answer, and keeps a JSON log of every exchange.
  - The model covers the command router (`parse_command`).
  - It covers the repair of the judge's free-form reply into a verdict.
  - It covers the log and its condensed history text (`read_history_text`).
  - It covers the session state: the `clear`/`undo` backup slot, the `save:` archives and the once-only Gemini error flag.
  - It covers the session-duration text.
- **The kiosk diagnostics panel** (`Edits/SkullGUI/SkullGUI_DiagTool.py`) shows system tiles and a POST feed. The model covers:
  - its greedy word wrapper `wrap_text` and `safe_text`;
  - the newest-first feed `POST_LOG` with `append_post`;
  - the seeding of the feed and the error count;
  - the error-report filter.
- **The desktop diagnostics tool** (`Edits/reboot_diagtool_new/diagtool_new.py`) polls the OS and shows tiles. The model covers its output parsers:
  - the `nvidia-smi` row mapping, the `lspci`/`wmic` paths and the `setdefault` defaults of `get_gpu_info`;
  - the `dmidecode` slot parsing of `get_ram_info`, with its regular expressions matched the way `re.search` matches them;
  - the blank-line filtering of `get_post_and_logs` and `scan_os_errors`;
  - the severity colouring and display order of the POST panel.

The files are:

- `wrappers.dfy`: `Option`.
- `py_seq.dfy` (module `PySeq`): the Python list operations the programs use, such as `reversed`, slicing and comprehensions with a filter.
- `py_str.dfy` (module `PyStr`): the Python string operations the programs use, such as `strip`, `lower`, `find`/`rfind`, `split()`, `split(sep)`, `join`, `splitlines` and `str(n)`.
- `chat_command.dfy`, `chat_verdict.dfy`, `chat_history.dfy`, `chat_session.dfy`: the chat program.
- `skull_text.dfy`, `skull_post.dfy`: the kiosk panel.
- `diag_gpu.dfy`, `diag_ram.dfy`, `diag_logs.dfy`: the desktop tool.

Where the source mutates state, the model does too:

- `ChatSession.Session` holds the log file, the backup slot, the archives and the Gemini flag as fields.
- `SkullPost.PostLog` holds `POST_LOG`.
- `DiagLogs.PostPanel` holds the rows of the POST text widget.

Loops in the source are `while`/`for` loops in the model. Each is proved against a recursive specification function:

| method | specification function |
|---|---|
| `WrapText` | `Wrapped` |
| `ReadHistoryText` | `HistoryText` and `Tail` |
| `AppendRecords` | `Records` |
| `ParseSlots` | `SlotsOf` |
| `PostLog.AppendAll` | `Stamps` |

The properties the programs promise are proved as lemmas about those functions.

External services are parameters:

- The three provider SDKs form a `Providers` value: functions from a model and a prompt to a reply or an exception message.
- `json.loads` is a `decode` function returning a `Decoding`.
- Clock readings are string or number arguments.
- Command outputs and tool availability are the input texts, or probe datatypes such as `GpuProbe` and `OsLogs`.

## Model

| member | source | states |
|---|---|---|
| ChatCommand.Classify | multi_ai_chat.py:380-407 | A line is treated as blank exactly when it is all whitespace; an agent command always names one of the three agent keys |
| ChatCommand.Route | multi_ai_chat.py:381-407 | On the stripped line: blank exactly when empty, and an agent command names one of "claude", "gemini", "openai" |
| ChatCommand.AfterFirstColon | multi_ai_chat.py:401 | `s.split(":", 1)[1]` is the text after the first colon of `s` |
| ChatCommand.MatchAgent | multi_ai_chat.py:403-405 | The agent found is one of the keys and the lower-cased line starts with it and a colon; none is found exactly when no key prefixes the line |
| ChatCommand.MatchAgentFirst | multi_ai_chat.py:403-405 | The three agent prefixes exclude one another, so the key tried first that matches is the one the line starts with |
| ChatCommand.RouteControlWords | multi_ai_chat.py:383-393 | `menu`, `exit`, `clear`, `undo` are recognised in any case and surrounding whitespace, and only when the whole stripped line is that word |
| ChatCommand.RouteSave | multi_ai_chat.py:395-398 | A save command happens exactly when the lower-cased stripped line starts with `save:`, and its name is the stripped text after that prefix |
| ChatCommand.RouteAll | multi_ai_chat.py:400-401 | A line starting `all:` in any case is a prompt for all three, namely the stripped text after the colon |
| ChatCommand.RouteSingle | multi_ai_chat.py:403-405 | A line starting `claude:`, `gemini:` or `openai:` in any case goes to that lower-case agent with the stripped rest |
| ChatCommand.RouteDefault | multi_ai_chat.py:407 | Any other non-blank line is a prompt for all three, the whole stripped line |
| ChatCommand.Returned | multi_ai_chat.py:380-407 | The returned mode is `None` exactly for blank, clear, undo and save lines; an agent is returned only for single-agent lines, a prompt only for all and single lines |
| ChatCommand.ParsedControl | multi_ai_chat.py:381-398 | A blank line returns `(None, None, None)`; `menu` and `exit` in any case return `("menu", None, None)` and `("exit", None, None)`; `clear`, `undo` and `save:` lines return `(None, None, None)` |
| ChatCommand.ParsedAll | multi_ai_chat.py:400-401 | A line starting `all:` in any case returns `("all", None, <stripped text after the colon>)` |
| ChatCommand.ParsedSingle | multi_ai_chat.py:403-405 | A line starting `<agent>:` in any case returns `("single", <agent>, <stripped text after the colon>)` |
| ChatCommand.ParsedDefault | multi_ai_chat.py:407 | Any other non-blank line returns `("all", None, <the whole stripped line>)` |
| ChatVerdict.Answer | multi_ai_chat.py:242 | `answers.get(key, "")`: the stored answer, or "" for a missing key |
| ChatVerdict.JsonSpan | multi_ai_chat.py:246-249 | No span exactly when a brace kind is missing. A non-empty span starts at the first `{` and ends with the last `}`; no `{` comes before it and no `}` after it. The span is empty exactly when the last `}` precedes the first `{` |
| ChatVerdict.RepairedAgent | multi_ai_chat.py:252-253 | The agent is always one of the three, and is the decoded `best_agent` whenever that is one of them |
| ChatVerdict.Repair | multi_ai_chat.py:250-257 | The verdict built from a decoded object; its members are stated by `JudgeKeepsDecoded` and `JudgeFillsMissing` |
| ChatVerdict.Fallback | multi_ai_chat.py:240-244 | The verdict when nothing usable was decoded: Claude, Claude's answer and the given rationale; its rationale texts are stated by `JudgeFallbackPicksClaude` |
| ChatVerdict.JudgeVerdict | multi_ai_chat.py:239-273 | Every verdict's best agent is one of the three providers and its judge label is `Claude (<judge model>)`. The only case without a verdict is a span decoding to a non-object. The fallback rationale texts are stated by `JudgeFallbackPicksClaude` |
| ChatVerdict.JudgeKeepsDecoded | multi_ai_chat.py:250-257 | A decoded object keeps a valid agent, a given `best_text` and a given `rationale` unchanged |
| ChatVerdict.JudgeFillsMissing | multi_ai_chat.py:252-257 | In a decoded object, a missing or invalid agent becomes Claude. A missing text becomes the chosen agent's own answer; a missing rationale becomes "No rationale provided" |
| ChatVerdict.JudgeFallbackPicksClaude | multi_ai_chat.py:240-264 | With no braces, a decode error or any other exception, the verdict is Claude with Claude's answer. The rationale is "Fallback: No JSON in response. Raw: " with the first 100 characters of the reply and "..."; for a decode error, "Fallback: JSON error at position <pos>. Raw: " with the same excerpt and "..."; for another exception, "Fallback: " and the first 100 characters of its message |
| ChatVerdict.JudgeBracesReversed | multi_ai_chat.py:246-262 | When the only `}` precedes the only `{`, the decoder gets "", and the rationale reports a JSON error at position 0 followed by the raw text |
| ChatVerdict.SpanInsideProse | multi_ai_chat.py:246-249 | Take an object surrounded by prose, with no `{` before it and no `}` after it: exactly that object is passed to the decoder |
| ChatVerdict.ComparisonPrompt | multi_ai_chat.py:227-237 | The judge's prompt carries the prior history text, unchanged, right after the fixed instructions |
| ChatHistory.ModeName | multi_ai_chat.py:293 | The stored mode is "single" exactly for single-agent exchanges |
| ChatHistory.AllThreeEntry | multi_ai_chat.py:290-296 | An all-three entry has the all-three mode, no agent, the verdict, and exactly the answers given |
| ChatHistory.SingleEntry | multi_ai_chat.py:307-313 | A single-agent entry has the single mode, the agent, no verdict, and a response map holding only that agent's reply |
| ChatHistory.ReplyLine | multi_ai_chat.py:144-145 | A provider contributes one line when it has a response, and none when it has not |
| ChatHistory.ProviderOrder | multi_ai_chat.py:143-145 | Reply lines come as Claude, then Gemini, then OpenAI, each only if present, whatever the map |
| ChatHistory.JudgeLines | multi_ai_chat.py:146-150 | An entry contributes judge lines exactly when it has a verdict |
| ChatHistory.EntryChunks | multi_ai_chat.py:140-150 | Every entry's lines start with its `[timestamp] User: prompt` header |
| ChatHistory.Chunks | multi_ai_chat.py:138-150 | The lines of every entry in log order; `ReadHistoryText` and `HistoryAppend` state how the loop builds them |
| ChatHistory.HistoryText | multi_ai_chat.py:151 | The lines joined by newlines, before truncation; `ReadHistoryText` returns its `Tail` |
| ChatHistory.Tail | multi_ai_chat.py:152 | The result is a suffix of the text. A text of at most `max_chars` is kept whole. For a positive bound, a longer text is cut to exactly `max_chars` characters; a zero bound keeps everything; a negative bound drops that many characters from the front |
| ChatHistory.ReadHistoryText | multi_ai_chat.py:133-152 | The loop over sessions and providers yields the tail of the newline-joined lines of every entry in order, and "" for an empty log |
| ChatHistory.AppendReplies | multi_ai_chat.py:143-145 | The inner loop appends exactly the present providers' lines, in provider order |
| ChatHistory.HistoryAppend | multi_ai_chat.py:138-151 | Appending an entry extends the untruncated history text by a newline and the entry's own lines; with an empty log, the entry's lines stand alone |
| ChatHistory.AllThreeLines | multi_ai_chat.py:139-150 | An all-three exchange with three answers contributes six lines: header, Claude, Gemini, OpenAI, judge, best outcome |
| ChatHistory.SingleLines | multi_ai_chat.py:305-313 | A single-agent exchange contributes its header and exactly one reply line |
| ChatSession.ClaudeAnswer | multi_ai_chat.py:164-168 | A reply is passed through; an exception becomes "[ERROR] Claude call failed: " and its message |
| ChatSession.OpenAIAnswer | multi_ai_chat.py:211-217 | A reply is passed through; an exception becomes "[ERROR] OpenAI call failed: " and its message |
| ChatSession.GeminiPrompt | multi_ai_chat.py:176-180 | Gemini receives the caller's prompt unchanged at the end, after a non-empty instruction |
| ChatSession.IsQuotaError | multi_ai_chat.py:196 | A failure message reports an exhausted quota when it contains "429" or, ignoring case, "quota"; `GeminiReply` states which text follows |
| ChatSession.GeminiReply | multi_ai_chat.py:182-200 | A reply is passed through. After an earlier failure, every failure reads "[Gemini unavailable]". A first failure gives the quota text when the message has "429" or "quota" in any case, and the error text otherwise |
| ChatSession.GeminiErrorShownOnce | multi_ai_chat.py:193-200 | Once the flag is set, all failures read the same; a first non-quota failure reads differently from later ones |
| ChatSession.DurationParts | multi_ai_chat.py:412-414 | Minutes are below 60, and hours·3600 + minutes·60 is the elapsed time rounded down to a whole minute |
| ChatSession.SessionDuration | multi_ai_chat.py:410-417 | `"<h>h <m>m"` from an hour on and `"<m>m"` before; `DurationReadBack` states what the text reads back as |
| ChatSession.DurationReadBack | multi_ai_chat.py:410-417 | Under an hour the text is just the minutes; from an hour on it starts with the hours. The numbers printed read back to at most the elapsed time |
| ChatSession.DocOf | multi_ai_chat.py:114-123 | Loading reads the stored document, or an empty session list when the file is missing |
| ChatSession.RoutedPrompt | multi_ai_chat.py:302-303 | A single agent's prompt starts with the last 1000 history characters and ends with the user's prompt |
| ChatSession.UnknownAgentMessage | multi_ai_chat.py:341-342 | The reply to an agent key that is none of the three; `Session.RouteSingleAgent` states that it adds no log entry |
| ChatSession.AnswerMap | multi_ai_chat.py:287 | The answer map has exactly the three provider keys, each with its answer |
| ChatSession.JudgeOf | multi_ai_chat.py:226-238 | The judge, shown the last 1000 history characters and the answers, yields a best agent among the three |
| ChatSession.Session.constructor | multi_ai_chat.py:13-64 | A run starts with the given log, an empty backup slot, no archives and the Gemini flag clear |
| ChatSession.Session.EnsureLog | multi_ai_chat.py:114-117 | A missing log is created with no sessions; an existing one is untouched |
| ChatSession.Session.SaveSessionEntry | multi_ai_chat.py:126-130 | The log becomes the old sessions plus exactly the new entry at the end; nothing else changes |
| ChatSession.Session.ReadHistory | multi_ai_chat.py:133-152 | Reading history creates a missing log and returns the tail of the history of the log as it was |
| ChatSession.Session.ClearSession | multi_ai_chat.py:441-457 | Clearing succeeds exactly when the log exists: the backup then holds the old document and the log is empty. Otherwise neither log nor backup changes |
| ChatSession.Session.UndoClear | multi_ai_chat.py:460-477 | Undo succeeds exactly when the slot is full: the log gets the backup and the slot empties. Otherwise nothing changes |
| ChatSession.Session.SaveSession | multi_ai_chat.py:480-504 | When the log exists, an archive of it is stored under the given name, or under the session id for no name or "", with duration and save time. No archive is written without a log |
| ChatSession.Session.AskGemini | multi_ai_chat.py:171-200 | The reply follows `GeminiReply` for the flag's old value; the flag becomes set by any failure and is never cleared |
| ChatSession.Session.JudgeBest | multi_ai_chat.py:220-273 | The verdict is the repair of the judge's reply to a prompt built from the last 1000 history characters |
| ChatSession.Session.AskAllThree | multi_ai_chat.py:278-287 | The user's prompt goes unchanged to Claude, Gemini and OpenAI, and the answers map each provider to its reply |
| ChatSession.Session.RunAllThreeAndJudge | multi_ai_chat.py:276-298 | The three answers and their verdict; the log gains exactly one all-three entry holding both. The Gemini flag becomes set when that Gemini call fails and stays set once set |
| ChatSession.Session.RouteSingleAgent | multi_ai_chat.py:301-342 | Each known agent gets the history-prefixed prompt and the log gains exactly one single entry with its reply. An unknown agent gets an error text and adds no entry. The Gemini flag becomes set when the Gemini call fails, stays set once set, and is untouched for the other agents |
| ChatSession.Session.Dispatch | multi_ai_chat.py:304-342 | Once the routed prompt is built, each known agent answers it and the log gains exactly one single entry with that reply; the Gemini flag becomes set by a Gemini failure and is untouched otherwise; an unknown agent changes nothing and gets the error text |
| ChatSession.Session.ParseCommand | multi_ai_chat.py:367-407 | The returned triple is the classification's. `clear` with a log empties it into the backup, and without a log changes nothing; `undo` with a backup restores it and empties the slot, and without one changes nothing; both keep the archives. `save:` with a log archives it under the name or the session id, and without one changes nothing; it keeps the log and the backup. Every other line leaves the state alone, and no line touches the Gemini flag |
| ChatSession.ClearThenUndo | multi_ai_chat.py:441-477 | `clear` then `undo` on an existing log restores the log, leaves the slot empty and keeps the archives |
| ChatSession.UndoTwice | multi_ai_chat.py:460-477 | After two undos the slot is empty: the log holds the first backup if there was one, and is unchanged otherwise |
| SkullText.SafeText | Edits/SkullGUI/SkullGUI_DiagTool.py:36 | The shown text is never empty: a non-empty value is shown as is, an empty one as "N/A" |
| SkullText.Wrapped | Edits/SkullGUI/SkullGUI_DiagTool.py:38-47 | The greedy wrap of `s.split()` joined by newlines; `WrappedLines` states its words, width, empty-line and newline facts |
| SkullText.WrapText | Edits/SkullGUI/SkullGUI_DiagTool.py:38-47 | The loop over `s.split()` and the final join compute `Wrapped(s, width)` |
| SkullText.WrappedLines | Edits/SkullGUI/SkullGUI_DiagTool.py:38-47 | Every newline in the output separates its `splitlines()`, so input newlines do not survive. Splitting the output on whitespace gives `s.split()`. A line longer than `width` is one word. An empty line is only the first, exactly when the first word plus one exceeds `width`. A text without words gives "" |
| SkullText.LoopStep | Edits/SkullGUI/SkullGUI_DiagTool.py:41-42 | `(cur + " " + w).strip()` is the current line with the word joined by one space, and the line stays trimmed |
| SkullText.StripJoined | Edits/SkullGUI/SkullGUI_DiagTool.py:42 | The strip only removes the space in front of the first word of an empty line |
| SkullText.JoinedWords | Edits/SkullGUI/SkullGUI_DiagTool.py:42 | Joining a word to the current line appends it to the line's words |
| SkullText.StepKeepsWords | Edits/SkullGUI/SkullGUI_DiagTool.py:41-45 | One iteration keeps the finished lines holding, in order, the words seen so far; no line gains a line boundary |
| SkullText.JoinKeepsWords | Edits/SkullGUI/SkullGUI_DiagTool.py:41-42 | The joining branch keeps that invariant |
| SkullText.BreakKeepsWords | Edits/SkullGUI/SkullGUI_DiagTool.py:43-45 | The line-breaking branch keeps that invariant |
| SkullText.WrapKeepsWords | Edits/SkullGUI/SkullGUI_DiagTool.py:40-45 | After all the words, the lines and the current line hold exactly `s.split()` in order |
| SkullText.StepKeepsWidth | Edits/SkullGUI/SkullGUI_DiagTool.py:41-45 | One iteration keeps every line of more than one word within `width` |
| SkullText.WrapKeepsWidth | Edits/SkullGUI/SkullGUI_DiagTool.py:40-45 | After the loop, every line is within `width` or is a single word |
| SkullText.StepKeepsEmptyLine | Edits/SkullGUI/SkullGUI_DiagTool.py:43-45 | One iteration keeps the only possible empty line at the front, and only when the first word did not fit |
| SkullText.WrapKeepsEmptyLine | Edits/SkullGUI/SkullGUI_DiagTool.py:39-45 | After the loop, the only empty line is the first, exactly when the first word plus one exceeds `width` |
| SkullText.FinishedLines | Edits/SkullGUI/SkullGUI_DiagTool.py:46 | After `if cur: lines.append(cur)`, the lines hold the words in order and have no line boundaries; there are none exactly when there are no words, and the last is not empty |
| SkullText.FinishedShape | Edits/SkullGUI/SkullGUI_DiagTool.py:46 | The width and empty-line facts hold for the finished lines |
| SkullPost.Stamp | Edits/SkullGUI/SkullGUI_DiagTool.py:84-85 | A feed entry reads back as `[`, the time, `] ` and the message |
| SkullPost.Stamps | Edits/SkullGUI/SkullGUI_DiagTool.py:209-216 | Posting messages in order stamps each with its own clock reading |
| SkullPost.IsErrorEntry | Edits/SkullGUI/SkullGUI_DiagTool.py:204 | An entry is an error when it contains "ERROR" or "FAIL", case-sensitively; `ErrorCountPost` states how the count follows it |
| SkullPost.IsReportEntry | Edits/SkullGUI/SkullGUI_DiagTool.py:269 | An entry is reported when it is an error or contains "WARN"; `ReportMembers` and `ErrorsAreReported` state the report's members |
| SkullPost.ErrorReport | Edits/SkullGUI/SkullGUI_DiagTool.py:269-270 | The reportable entries of the newest-first feed, reversed; `ReportMembers` and `ReportOldestFirst` state its members and order |
| SkullPost.ErrorCount | Edits/SkullGUI/SkullGUI_DiagTool.py:204 | The count of entries containing "ERROR" or "FAIL" is at most the feed length |
| SkullPost.ErrorCountPost | Edits/SkullGUI/SkullGUI_DiagTool.py:204 | Posting one entry raises the count by one exactly when that entry has "ERROR" or "FAIL", case-sensitively |
| SkullPost.ErrorsAreReported | Edits/SkullGUI/SkullGUI_DiagTool.py:269 | Every entry that is counted as an error also goes into the report |
| SkullPost.ReportMembers | Edits/SkullGUI/SkullGUI_DiagTool.py:269 | The report holds exactly the feed entries containing "ERROR", "FAIL" or "WARN" |
| SkullPost.ReportOldestFirst | Edits/SkullGUI/SkullGUI_DiagTool.py:270 | For a feed built by posting entries in order, the report lists the reportable ones in posting order, oldest first |
| SkullPost.ErrorReportFile | Edits/SkullGUI/SkullGUI_DiagTool.py:268-270 | The saved report starts with its header and ends with a newline |
| SkullPost.ErrorReportFileLines | Edits/SkullGUI/SkullGUI_DiagTool.py:270 | The saved report's lines are the header and then one line per reportable entry, oldest first; an empty report is the header and an empty line |
| SkullPost.PrintReportFile | Edits/SkullGUI/SkullGUI_DiagTool.py:288-291 | The printable report starts with its title and the rule of 40 `=`, and ends with a newline |
| SkullPost.TimesText | Edits/SkullGUI/SkullGUI_DiagTool.py:205 | The time label carries the current time right after "Current Time: " |
| SkullPost.PostLog.constructor | Edits/SkullGUI/SkullGUI_DiagTool.py:82 | The feed starts empty |
| SkullPost.PostLog.AppendPost | Edits/SkullGUI/SkullGUI_DiagTool.py:83-85 | The stamped entry goes in front and every earlier entry follows unchanged |
| SkullPost.PostLog.AppendAll | Edits/SkullGUI/SkullGUI_DiagTool.py:209-216 | Posting messages in turn puts their stamped entries in front, last posted first |
| SkullPost.PostLog.RefreshAll | Edits/SkullGUI/SkullGUI_DiagTool.py:203-217 | The time label shows the error count from before seeding. An empty feed is seeded with the five messages; a non-empty one is left alone |
| SkullPost.PostLog.Tick | Edits/SkullGUI/SkullGUI_DiagTool.py:233-236 | The time label shows the current error count, wrapped; the feed is unchanged |
| SkullPost.PostLog.OnRefresh | Edits/SkullGUI/SkullGUI_DiagTool.py:242-245 | A manual refresh seeds an empty feed, then puts "Manual refresh triggered" in front |
| SkullPost.PostLog.OnSaveError | Edits/SkullGUI/SkullGUI_DiagTool.py:264-272 | The report is of the feed before the note; then a note naming the file goes in front |
| SkullPost.PostLog.OnPrintError | Edits/SkullGUI/SkullGUI_DiagTool.py:284-293 | The printable report is of the feed before the note; then a note naming the file goes in front |
| SkullPost.FirstRefresh | Edits/SkullGUI/SkullGUI_DiagTool.py:208-216 | The first refresh of a fresh feed leaves five entries, "I/O scan OK" at index 0 and the self-test start at index 4, with an error count of 0 shown |
| DiagGpu.NvidiaColumns | Edits/reboot_diagtool_new/diagtool_new.py:144 | The first line of a non-empty output gives at least one column |
| DiagGpu.NvidiaRowRoundTrip | Edits/reboot_diagtool_new/diagtool_new.py:142-144 | Take trimmed fields without commas or line breaks, joined by commas as the first line of the output: they come back as the columns, whatever lines follow |
| DiagGpu.NvidiaInfo | Edits/reboot_diagtool_new/diagtool_new.py:145-153 | The NVIDIA path sets all nine keys. The manufacturer is "NVIDIA". Field i is column i, with " MB" for the two memory sizes; a missing column gives "NVIDIA" for the model and "N/A" for the rest |
| DiagGpu.SetDefault | Edits/reboot_diagtool_new/diagtool_new.py:170-172 | `setdefault` adds the key; it keeps a present value and sets an absent one |
| DiagGpu.DefaultStep | Edits/reboot_diagtool_new/diagtool_new.py:170-172 | Each `setdefault` extends the set of defaulted keys without touching values already present |
| DiagGpu.ApplyDefaults | Edits/reboot_diagtool_new/diagtool_new.py:170-172 | The seven defaults add exactly those keys; present values are never overwritten and absent ones become "N/A" |
| DiagGpu.LspciManufacturer | Edits/reboot_diagtool_new/diagtool_new.py:160-162 | "AMD" exactly when the line has "AMD" or "Radeon"; otherwise "Intel" exactly when it has "Intel"; otherwise "Unknown" |
| DiagGpu.OtherInfo | Edits/reboot_diagtool_new/diagtool_new.py:157-172 | The non-NVIDIA paths end with the model, the manufacturer and the seven keys at "N/A" |
| DiagGpu.GetGpuInfo | Edits/reboot_diagtool_new/diagtool_new.py:137-174 | NVIDIA output maps as above, and empty NVIDIA output gives only "NVIDIA (no output)". `lspci` gives the stripped line or "N/A" with the manufacturer rule. `wmic` gives the last line or "N/A", with all-whitespace output caught as `{"manufacturer": "N/A"}`. With no tool the model is "N/A". Every non-NVIDIA result has the seven defaults |
| DiagRam.SearchLeftmost | Edits/reboot_diagtool_new/diagtool_new.py:204-208 | `re.search` returns the group of the leftmost position where the whole pattern matches |
| DiagRam.SearchNone | Edits/reboot_diagtool_new/diagtool_new.py:204-208 | The search fails exactly when the pattern matches nowhere |
| DiagRam.SearchSome | Edits/reboot_diagtool_new/diagtool_new.py:204-208 | A returned group comes from a position where the pattern matches |
| DiagRam.Search | Edits/reboot_diagtool_new/diagtool_new.py:204-208 | `re.search` of a literal label followed by a capture, tried from each position in turn; `SearchLeftmost`, `SearchNone` and `SearchSome` state its result |
| DiagRam.FirstMatch | Edits/reboot_diagtool_new/diagtool_new.py:204-208 | When the pattern matches at the first occurrence of a label, that occurrence's group is returned |
| DiagRam.Field | Edits/reboot_diagtool_new/diagtool_new.py:204-205 | `m.group(1).strip() if m else "N/A"` for `<label>:\s*(.+)`; `FieldReadBack`, `FieldMissing` and `FieldAtEnd` state what it reads |
| DiagRam.SpeedField | Edits/reboot_diagtool_new/diagtool_new.py:206 | `(m.group(1) + " MHz") if m else "N/A"` for `Speed:\s*(\d+)\s*MHz`; `SpeedReadBack` and `SpeedNeedsMHz` state what it reads |
| DiagRam.ParseSlot | Edits/reboot_diagtool_new/diagtool_new.py:203-209 | The five fields of one slot, each searched in the slot's own chunk; `SlotsOfEach` states that slot i depends on chunk i alone |
| DiagRam.FieldReadBack | Edits/reboot_diagtool_new/diagtool_new.py:204 | After the first occurrence of a label and any whitespace, newlines included, the field is the rest of that line, stripped |
| DiagRam.FieldMissing | Edits/reboot_diagtool_new/diagtool_new.py:204-208 | A label that does not occur gives "N/A" |
| DiagRam.FieldAtEnd | Edits/reboot_diagtool_new/diagtool_new.py:204 | A label followed only by whitespace at the end of the chunk gives "N/A" when that whitespace is all newlines, and "" otherwise |
| DiagRam.SpeedReadBack | Edits/reboot_diagtool_new/diagtool_new.py:206 | `Speed: <n> MHz` after any whitespace reads back as the digits of n and " MHz" |
| DiagRam.SpeedNeedsMHz | Edits/reboot_diagtool_new/diagtool_new.py:206 | A chunk without "MHz" (a speed in MT/s, say) has speed "N/A" |
| DiagRam.SlotsOfEach | Edits/reboot_diagtool_new/diagtool_new.py:202-209 | There is one slot per chunk, and slot i is parsed from chunk i alone |
| DiagRam.ParseSlots | Edits/reboot_diagtool_new/diagtool_new.py:201-209 | The loop yields one slot per chunk, in order |
| DiagRam.ChunksOfDevices | Edits/reboot_diagtool_new/diagtool_new.py:200-202 | Take a preamble and device texts without the header, joined by "Memory Device": `parts[1:]` gives back exactly the device texts |
| DiagRam.GetRamDetail | Edits/reboot_diagtool_new/diagtool_new.py:190-216 | There is one slot per piece after the first. The summary manufacturer, type and speed come from the first slot when one exists and are "N/A" otherwise. Part number and maximum speed stay "N/A" |
| DiagLogs.PostAndLogs | Edits/reboot_diagtool_new/diagtool_new.py:281-297 | The history is the non-blank lines. Every non-blank line is kept, and each kept line is one line. `latest` is the first kept line, or "N/A" exactly when nothing is kept |
| DiagLogs.HistoryOfLines | Edits/reboot_diagtool_new/diagtool_new.py:286-287 | For newline-terminated lines, the history is exactly the non-blank ones in order, and `latest` is the first line if it is not blank |
| DiagLogs.History | Edits/reboot_diagtool_new/diagtool_new.py:286 | `[l for l in out.splitlines() if l.strip()]`; `HistoryOfLines` and `PostAndLogs` state which lines it keeps |
| DiagLogs.Tagged | Edits/reboot_diagtool_new/diagtool_new.py:305 | There is one record per message, carrying the source and the message |
| DiagLogs.Records | Edits/reboot_diagtool_new/diagtool_new.py:304-305 | One record per non-blank line, stripped and tagged with its source; `RecordsAreStripped` states its shape and `AppendRecords` that the loop builds it |
| DiagLogs.RecordsAreStripped | Edits/reboot_diagtool_new/diagtool_new.py:304-305 | There are no more records than lines. Each carries its source and a non-empty, stripped, single-line message |
| DiagLogs.AppendRecords | Edits/reboot_diagtool_new/diagtool_new.py:304-305 | The loop appends one record per non-blank line, stripped, after the earlier records |
| DiagLogs.ScanOsErrors | Edits/reboot_diagtool_new/diagtool_new.py:299-319 | Each platform gives the records of its logs in reading order: dmesg, then journalctl when present, on Linux; the event log on Windows; the unified log on macOS; nothing elsewhere |
| DiagLogs.KernelBeforeJournal | Edits/reboot_diagtool_new/diagtool_new.py:302-309 | On Linux no dmesg record comes after a journalctl record |
| DiagLogs.Fold | Edits/reboot_diagtool_new/diagtool_new.py:677 | Case folding keeps the length and folds each character on its own |
| DiagLogs.MentionsAnyIff | Edits/reboot_diagtool_new/diagtool_new.py:677 | The alternation matches exactly when one of its words occurs at some index |
| DiagLogs.Classify | Edits/reboot_diagtool_new/diagtool_new.py:677-682 | A line is an error exactly when it matches an error word, ignoring case; a warning exactly when it matches no error word but a warning word; info otherwise |
| DiagLogs.ClassifyIgnoresCase | Edits/reboot_diagtool_new/diagtool_new.py:677-679 | Lines differing only in letter case get the same colour |
| DiagLogs.KeywordInsideWord | Edits/reboot_diagtool_new/diagtool_new.py:677 | Keywords match inside words: any line containing "deferred" is coloured as an error |
| DiagLogs.FirstWindow | Edits/reboot_diagtool_new/diagtool_new.py:676 | `reversed(history[:100])`: at most 100 lines, the first hundred of the history, the last of them on top |
| DiagLogs.FirstWindowDropsNewest | Edits/reboot_diagtool_new/diagtool_new.py:676 | With over 100 lines, the newest line is not shown, and the hundredth line is on top |
| DiagLogs.NewestWindow | Edits/reboot_diagtool_new/diagtool_new.py:667-676 | For an oldest-first history: at most 100 lines, the last hundred of the history, newest on top |
| DiagLogs.WindowsAgreeWhenShort | Edits/reboot_diagtool_new/diagtool_new.py:676 | With at most 100 lines, the code's window and the intended window coincide |
| DiagLogs.PostPanel.constructor | Edits/reboot_diagtool_new/diagtool_new.py:551 | The POST text widget starts empty |
| DiagLogs.PostPanel.Update | Edits/reboot_diagtool_new/diagtool_new.py:668-685 | The corrected panel. An empty history leaves the panel as it was. Otherwise the panel holds one row per line of `NewestWindow`, the corrected window, newest on top: the line, a newline, and its colour |
| PySeq.Reverse | Edits/SkullGUI/SkullGUI_DiagTool.py:270 | `reversed`: same length, element i is element n-1-i |
| PySeq.ReverseReverse | Edits/SkullGUI/SkullGUI_DiagTool.py:270 | Reversing twice gives the list back |
| PySeq.Take | multi_ai_chat.py:260 | `s[:n]`: the first n elements, or all when there are fewer |
| PySeq.Filter | Edits/SkullGUI/SkullGUI_DiagTool.py:269 | A filtering comprehension keeps precisely the elements that pass, and is no longer than its input |
| PySeq.FilterConcat | Edits/reboot_diagtool_new/diagtool_new.py:286 | Filtering a concatenation filters each part, so order is kept |
| PySeq.FilterReverse | Edits/SkullGUI/SkullGUI_DiagTool.py:269-270 | Filtering a reversed list gives the reversed filter |
| PySeq.FilterWeaker | Edits/SkullGUI/SkullGUI_DiagTool.py:269 | A weaker condition keeps at least as many elements |
| PyStr.LStrip | multi_ai_chat.py:380 | The result is a suffix after a run of whitespace; it starts with no whitespace |
| PyStr.RStrip | multi_ai_chat.py:380 | The result is a prefix before a run of whitespace; it ends with no whitespace |
| PyStr.Strip | multi_ai_chat.py:380 | `strip()` leaves no whitespace at either end, and gives "" exactly for an all-whitespace string |
| PyStr.StripTrimmed | multi_ai_chat.py:380 | Stripping a string without outer whitespace changes nothing |
| PyStr.StripAll | Edits/reboot_diagtool_new/diagtool_new.py:144 | `[c.strip() for c in cols]` strips each element, keeping the count |
| PyStr.Lower | multi_ai_chat.py:383 | `lower()` keeps the length and maps ASCII capitals to small letters, character by character |
| PyStr.ContainsIff | Edits/SkullGUI/SkullGUI_DiagTool.py:204 | `t in s` holds exactly when `t` occurs at some index of `s` |
| PyStr.Find | multi_ai_chat.py:246 | `find(c)` is -1 exactly when `c` is absent, and otherwise the first index holding `c` |
| PyStr.RFind | multi_ai_chat.py:247 | `rfind(c)` is -1 exactly when `c` is absent, and otherwise the last index holding `c` |
| PyStr.FindSub | Edits/reboot_diagtool_new/diagtool_new.py:200 | `find(t)` is the first index where `t` occurs, and -1 when it occurs nowhere |
| PyStr.Words | Edits/SkullGUI/SkullGUI_DiagTool.py:40 | `split()` yields only non-empty pieces without whitespace |
| PyStr.WordsOfWord | Edits/SkullGUI/SkullGUI_DiagTool.py:40 | `split()` of a single word is that word |
| PyStr.WordsSeparated | Edits/SkullGUI/SkullGUI_DiagTool.py:40 | One whitespace character splits the words of its two sides apart |
| PyStr.WordsOfJoin | Edits/SkullGUI/SkullGUI_DiagTool.py:47 | Joining with one whitespace character neither merges nor splits words |
| PyStr.Join | multi_ai_chat.py:151 | `join` of no parts is "" and of one part is that part |
| PyStr.JoinSnoc | multi_ai_chat.py:151 | Joining one more part adds the separator and the part at the end |
| PyStr.SplitOn | Edits/reboot_diagtool_new/diagtool_new.py:200 | `split(sep)` always yields at least one piece |
| PyStr.SplitOnJoin | Edits/reboot_diagtool_new/diagtool_new.py:200 | Joining the pieces of a split with the separator gives the text back |
| PyStr.SplitOnPieces | Edits/reboot_diagtool_new/diagtool_new.py:200 | No piece of a split contains the separator |
| PyStr.SplitOnJoinUnique | Edits/reboot_diagtool_new/diagtool_new.py:144 | Take parts without the separator, for a separator whose first character does not recur: splitting their join gives them back |
| PyStr.SplitLines | Edits/reboot_diagtool_new/diagtool_new.py:286 | `splitlines()` is empty exactly for "", and no line holds a line boundary |
| PyStr.SplitLinesOfJoin | Edits/SkullGUI/SkullGUI_DiagTool.py:47 | Splitting lines joined by newlines gives them back when the last is not empty |
| PyStr.SplitLinesOfJoinNewline | Edits/reboot_diagtool_new/diagtool_new.py:286 | Splitting newline-terminated lines gives them all back |
| PyStr.FirstLine | Edits/reboot_diagtool_new/diagtool_new.py:144 | `splitlines()[0]` of a line followed by a newline is that line |
| PyStr.StripNoLineBreak | Edits/reboot_diagtool_new/diagtool_new.py:305 | Stripping a line keeps it a single line |
| PyStr.NatToString | multi_ai_chat.py:416 | `str(n)` is a non-empty string of decimal digits without a leading zero |
| PyStr.NatToStringValue | multi_ai_chat.py:416 | The digits `str(n)` prints read back as `n` |

## Left out

- Provider SDKs and the network (`ask_claude`, `ask_openai`, the two Gemini SDK paths, `init_clients`, `require_keys`). Each call is a function parameter returning a reply or an exception message. The SDKs' `str(msg)`/`str(resp)` fallbacks are replies whose text the SDK decides.
- Environment overrides of the model names: the defaults are constants.
- The pauses `time.sleep(0.2)` between the provider calls: they change no state.
- File I/O and JSON serialisation. The log is an in-memory `Document`, and an absent file is `None`. The archives under `sessions/` are a map from name to archive. `json.loads` is a decoder parameter; no JSON parser is modelled.
- ChatVerdict.JudgeVerdict: the decoder may return a value that is not an object. The model then returns no verdict, since the repair raises and the error leaves the call. A real `json.loads` cannot return a non-object for a span that starts with `{` and ends with `}`.
- The clock. Timestamps, `saved_at` and the feed's `%H:%M:%S` stamps are string parameters, and the session id is a constructor argument. `get_session_duration` takes whole elapsed seconds: it drops the fractional part, which cannot change the whole hours and minutes.
- `get_last_topics` (multi_ai_chat.py:420-438) is not part of this model. It reads an `"entries"` member the log never has, so it always returns an empty list.
- `show_last_log` and the interactive loop `run_cli`, including the menu, `input()`, ANSI colours and `cprint`: terminal plumbing.
- The kiosk panel's widgets, layout, background image and screen probe: GUI code.
- The tile texts of `get_system_information`, `get_cpu_information`, `get_ram_information`, `get_gpu_information` and `get_voltages`: they are psutil or OS readings and fixed strings. SkullPost.PostLog.RefreshAll models the time label and the feed only.
- The full-report and log-export handlers `on_save_full` and `on_export_log`, the system-report dialog and the easter-egg button. Only the two error-report handlers, whose filter is part of the core, are modelled. Writing their files is the returned text.
- The desktop tool's other pollers (system, CPU, storage, network, sensors), its poller thread and locks, the Tk widgets, and the PyQt5 variant of the tool: OS probing, threads and GUI code.
- `human_bytes` and the `psutil` memory totals of `get_ram_info`: they use floating-point arithmetic.
- `safe_cmd`, `which` and `platform.system()`. Their results are the probe datatypes (`GpuProbe`, `OsLogs`) and the output texts. `safe_cmd` returns "" on any failure, which is one of the texts.
- DiagGpu.GetGpuInfo: only the exception the parsing can raise, the `IndexError` of an all-whitespace `wmic` output, is modelled. `safe_cmd` never raises, so the other `except` paths are left out.
- PyStr.Lower: only ASCII letters are lowered. Python's `str.lower` also lowers other Unicode letters, which the commands compared against do not contain.
- DiagLogs.Fold: case-insensitive matching folds ASCII letters and the two Turkish dotted/dotless i forms only. These are the only characters that can match a lower-case ASCII keyword letter, apart from the Kelvin sign, which matches `k`, a letter none of the keywords has.
- DiagRam.DigitEnd: `\d` matches ASCII digits only. Python's `\d` also matches other Unicode decimal digits, which `dmidecode` does not print.
- DiagLogs.PostPanel.Update: the final scroll call `see(tk.END)` is widget behaviour and is left out.
- DiagLogs.PostPanel.Update: the panel is filled from the corrected window `NewestWindow`, not from the source's `reversed(history[:100])` (`FirstWindow`). For a history of over 100 lines the source shows the first hundred with `history[99]` on top, while the model shows the last hundred with the newest line on top. The correction assumes an oldest-first history, as `dmesg` prints; for the newest-first `wevtutil /rd:true` history of Windows, `history[:100]` already holds the newest lines and only the reversal is at fault, which the model does not capture.

## Findings

| source | as written | input that shows it | evidently intended | confidence | as-written member | corrected member |
|---|---|---|---|---|---|---|
| Edits/reboot_diagtool_new/diagtool_new.py:676 | `reversed(history[:100])` shows the first hundred history lines, the hundredth on top | a history of 101 lines with a distinct newest line: `history[100]` is not shown, and `history[99]` is on top | the comments say "last 100 entries" and "newest at top": for an oldest-first history such as `dmesg` prints (line 285), the last hundred lines, newest first. On Windows `wevtutil /rd:true` (line 289) prints newest first, so there `history[:100]` is already the newest hundred and only the reversal is at fault | not executed | DiagLogs.FirstWindowDropsNewest | DiagLogs.NewestWindow |
