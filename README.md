# ATLAS orchestration core in Dafny

This project models the orchestration core of the ATLAS desktop agent
(`atlas.py`). The core does three things:

- It turns the language model's free text into a `TaskPlan`. This is
  `ResponseParser.extract_json` and `ResponseParser.parse_plan`.
- It runs the plan's steps through the `ToolManager`. Each step gets up to
  `max_retries + 1` attempts. After a failed attempt that is not the last,
  the model is asked for corrected parameters, which replace the step's
  parameters. This is `ExecutionEngine.run`.
- It aggregates the plan's status and asks the model to verify the outcome.

The conversation with the model is `OllamaEngine`: a history bounded to the
newest 12 messages, sent behind the system prompt. The model also covers the
pure helpers the tools apply to plan parameters:

- the path aliases of `PathResolver`;
- the block list of `ShellTools`;
- the `(headers, rows)` normalisation of `create_excel`;
- the `https://` prefix of `open_url`;
- the key split of `hotkey`;
- the line classification of `create_word_document`.

Modules, one file each:

| file | module | what it holds |
|---|---|---|
| `options.dfy` | `Options` | `Option` |
| `text.dfy` | `Text` | Python string operations (`strip`, `lower`, `split`, `join`, `in`, `replace`) |
| `json.dfy` | `Json` | JSON values as `json.loads` returns them, truthiness, `str()`, `json.dumps` |
| `tasks.dfy` | `Tasks` | `TaskStatus`, `TaskStep` (a value), `TaskPlan` (a class the engine mutates) |
| `tools.dfy` | `Tools` | `ToolResult` and `ToolManager.execute` |
| `ollama.dfy` | `Ollama` | `OllamaEngine`: chat history, the three prompts, `reset` |
| `response_parser.dfy` | `ResponseParser` | the five stages of `extract_json`, and `parse_plan` |
| `engine.dfy` | `Engine` | `ExecutionEngine.run`: the functional specification `RunSpec` and the imperative engine proved equal to it |
| `path_resolver.dfy`, `shell_tools.dfy`, `excel_tools.dfy`, `web_tools.dfy`, `automation_tools.dfy`, `document_tools.dfy` | one per tool class | the tool helpers listed above |

The world outside the program enters only through parameters:

- **The model server.** `backend` maps the messages sent, whether JSON is
  expected, and the number of earlier requests to a reply or to "unreachable".
- **The tools.** Each tool maps its arguments and the number of earlier
  manager calls to a result or an exception.
- **`json.loads`.** It is the parameter `parse`.

The two counters are fields of the objects (`OllamaEngine.sent`,
`ToolManager.calls`). They let the same request get different answers at
different times.

The engine's methods carry a ghost `Env`: the four collaborators `run` calls,
as functions. `ExecutionEngine.Drives` ties them to the engine's own tool
manager, model and parser. The lemmas about `RunSpec` hold for any `Env`.

Some consequences of the code are easy to miss:

- The history holds up to 13 messages after a reply, not 12. `chat` cuts the
  history to the newest 12 (atlas.py:405-407) and only then appends the
  reply (atlas.py:430).
- `retry_count <= max_retries` holds only for steps that start with
  `retry_count` 0. Each run adds its retries to whatever count the step had
  (atlas.py:1511).
- A step with a negative `max_retries` is never attempted and stays "in
  progress" (atlas.py:1497). `run` still ends, and the plan is aggregated
  over it.
- The engine can raise. The four cases are listed under "Findings".

## Model

| member | source | states |
|---|---|---|
| `Tasks.NewStep` | atlas.py:210-220 | a new step is pending, has no result or error, `retry_count` 0 and `max_retries` 2 |
| `Tools.KeywordArgs` | atlas.py:1367 | the keyword arguments are exactly the given parameters whose names the signature declares, in order |
| `Tools.KeywordArgsConcat` | atlas.py:1367 | the filter works item by item: filtering two runs of parameters gives the two filtered runs, in the same order |
| `Tools.KeywordArgsAllDeclared` | atlas.py:1367-1368 | when every given name is declared, all parameters are passed by keyword, unchanged |
| `Tools.UnknownToolFails` | atlas.py:1361-1363 | a name not in the registry fails with "Unknown tool: <name>", whatever the parameters |
| `Tools.KeywordCallWins` | atlas.py:1365-1368 | when the keyword call returns, its result is `execute`'s result |
| `Tools.PositionalFallback` | atlas.py:1369-1371 | when the keyword call raises `TypeError`, the values are passed positionally in the plan's order, and that call's result is returned |
| `Tools.CallOutcomes` | atlas.py:1365-1375 | a known tool's call returns what the tool returned for one of the two bindings, or a failure prefixed "<name> failed: " or "Param error for <name>: " |
| `Tools.Dispatch` | atlas.py:1360-1375 | a success needs a string name in the registry and dict parameters; every other call ends in a failure the manager writes itself, naming the tool (an unknown tool, or "<name> failed: " when the parameters have no `items`) |
| `Tools.DispatchOutcome` | atlas.py:1360-1375 | every result is either the tool's own result or a failure the manager writes that names the tool |
| `Tools.SuccessComesFromTool` | atlas.py:1360-1375 | a success comes only from a registered tool called with dict parameters |
| `Tools.ListToolNameRaises` | atlas.py:1361 | a list as the tool name raises as written, and the corrected dispatch reports an unknown tool |
| `Tools.ToolManager.Execute` | atlas.py:1360-1375 | the result is the dispatch at the current call count, and exactly one call is counted |
| `Ollama.Window` | atlas.py:405-407 | the window keeps the newest `min(len, 12)` messages, as a suffix |
| `Ollama.ChatBoundsHistory` | atlas.py:404-434 | after any turn the history holds at most 13 messages |
| `Ollama.ChatKeepsNewest` | atlas.py:404-434 | after a reply, the history is a suffix of the old history plus the user message, then the reply. When the server is unreachable, the answer is "OLLAMA_ERROR: " plus the detail and no reply is kept |
| `Ollama.RequestShape` | atlas.py:409-410 | every request starts with the system prompt, ends with the new user message, and has 2 to 13 messages |
| `Ollama.ShortHistoryKept` | atlas.py:406 | a history of at most 12 messages is kept whole |
| `Ollama.Summary` | atlas.py:445 | the results summary is the prefix of the `"; "`-joined results of length `min(len, 400)` |
| `Ollama.PlanPromptQuotes` | atlas.py:437-442 | the plan prompt opens with `Task: "` followed by the request |
| `Ollama.VerifyPromptCarries` | atlas.py:444-450 | the verification prompt contains `str` of the task and the truncated summary |
| `Ollama.FixPromptCarries` | atlas.py:452-458 | the fix prompt contains the tool name, the error message and `json.dumps` of the parameters |
| `Ollama.OllamaEngine.Chat` | atlas.py:404-434 | the new history and the reply are those of `ChatStep`; one request is counted; the history stays within 13 messages |
| `Ollama.OllamaEngine.PlanTask` | atlas.py:437-442 | a JSON-mode chat turn with the plan prompt |
| `Ollama.OllamaEngine.VerifyResult` | atlas.py:444-450 | a JSON-mode chat turn with the verification prompt over the truncated summary |
| `Ollama.OllamaEngine.FixParams` | atlas.py:452-458 | a JSON-mode chat turn with the fix prompt, which carries `json.dumps` of the parameters |
| `Ollama.OllamaEngine.Reset` | atlas.py:460-461 | the history is emptied; the request count is untouched |
| `ResponseParser.FenceBody` | atlas.py:1397-1411 | the captured block holds no fence and has no whitespace at either end |
| `ResponseParser.FenceBodySpec` | atlas.py:1397-1411 | the search finds nothing iff no opener has a closing fence after it. Otherwise it captures at the first opener that has one: the text from after the opener and its whitespace up to the first fence, with trailing whitespace trimmed |
| `ResponseParser.ScanFromSpec` | atlas.py:1413-1427 | from any consistent scanner state, the scan returns the first depth-0 brace span that parses, or nothing when none parses |
| `ResponseParser.BraceScanSpec` | atlas.py:1413-1427 | stage 4 returns the first parsed `{...}` span opened and closed at depth 0; it returns nothing iff no such span parses |
| `ResponseParser.DropCommasTrailing` | atlas.py:1430 | a comma followed by whitespace and `]` or `}` is dropped together with the whitespace, and the closer is kept |
| `ResponseParser.DropCommasKeepsSignificant` | atlas.py:1430 | dropping trailing commas removes only commas and whitespace: the text without commas and whitespace is unchanged |
| `ResponseParser.Cleanup` | atlas.py:1430-1431 | the cleaned text has no `'` and is no longer than the original. Apart from commas and whitespace it is the original with every `'` turned into `"` |
| `ResponseParser.ExtractJson` | atlas.py:1390-1437 | the result is that of the first of the five stages that parses, with stage 4 as the source's scanning loop |
| `ResponseParser.ExtractFallsToBraces` | atlas.py:1413-1437 | when stages 1-3 fail, the result is the first brace span that parses, or else the parse of the cleaned text |
| `ResponseParser.ScanInside` | atlas.py:1414-1422 | inside an open span whose depth stays above zero, the scan only counts braces: it tries no span and keeps the span's start |
| `ResponseParser.SkipsUnparsableSibling` | atlas.py:1414-1427 | of two sibling objects whose bodies are balanced (nested objects allowed), where the first does not parse, the second is returned |
| `ResponseParser.StrayCloserHidesObject` | atlas.py:1414-1427 | a lone object is found; a stray `}` before it drives the depth negative, so the object is not found |
| `ResponseParser.NoBacktickNoFence` | atlas.py:1398 | text without backticks has no fenced block |
| `ResponseParser.FencedJsonRoundTrip` | atlas.py:1397-1403 | a value dumped into a "```json" block after prose comes back unchanged |
| `ResponseParser.PlanEntries` | atlas.py:1441-1457 | no plan when the value is missing or falsy, or is a dict without "steps"; a dict whose "steps" is a list of dicts gives one entry per item; agrees with the source wherever the source does not raise |
| `ResponseParser.CheckPlanAsWritten` | atlas.py:1441-1457 | no plan when the value is missing or falsy. An accepted plan is a dict holding "steps" whose items are its entries. A truthy dict with "steps" is accepted iff those steps are usable, and a truthy number or boolean raises. Raising needs a truthy value that is not a dict or whose "steps" are unusable |
| `ResponseParser.NumberReplyRaises` | atlas.py:1442 | a bare number reply raises in `parse_plan` as written, and yields no plan when corrected |
| `ResponseParser.PlanSteps` | atlas.py:1448-1456 | one pending step per entry. "step" defaults to the position plus one, "description" and "tool" to "" and "params" to `{}`, and each key that is present is taken as given |
| `ResponseParser.ParsePlan` | atlas.py:1440-1457 | a plan exists iff the extracted value is a plan. The plan is fresh, has the given id, "plan" (default "") as its request, the steps of `PlanSteps`, and status pending |
| `Engine.ApplyFixAsWritten` | atlas.py:1522-1523 | a missing or falsy reply keeps the parameters. A dict with "params" replaces them by that value. Raising needs a truthy reply that is not a dict, and a truthy number or boolean always raises |
| `Engine.ApplyFix` | atlas.py:1522-1523 | parameters change only when the fix reply is a dict with "params", and then they are replaced (not merged) by that value; agrees with the source wherever the source does not raise |
| `Engine.NumberFixReplyRaises` | atlas.py:1522-1523 | a bare number as the fix reply raises as written; the corrected fix keeps the parameters |
| `Engine.Attempts` | atlas.py:1497-1534 | attempts never change a step's number, description, tool or retry limit, and never decrease the call or request counts |
| `Engine.Retry` | atlas.py:1510-1523 | a retry adds one to `retry_count`, marks the step retrying, and sends exactly one fix request |
| `Engine.AttemptsOnce` | atlas.py:1497-1534 | one attempt: success completes the step with the message; a failure before the last attempt retries; the last failure fails the step with the message |
| `Engine.AttemptsEndTerminal` | atlas.py:1497-1534 | with an attempt left, the step ends completed (with a result) or failed (with an error), and the other field is unchanged |
| `Engine.AttemptsCounts` | atlas.py:1497-1534 | `retry_count` rises by at most the attempts left. Fix requests sent equal the retries, and tool calls equal the retries plus one. A failed step used every retry |
| `Engine.SucceedsFirstTime` | atlas.py:1497-1507 | a step whose first call succeeds is completed after one call, with no fix request and nothing else changed |
| `Engine.AlwaysFails` | atlas.py:1497-1534 | a tool that always fails is called `max_retries + 1` times. The step fails with `retry_count` raised by `max_retries` and the last call's message as its error |
| `Engine.UnknownToolStep` | atlas.py:1497-1534 | a step naming an unknown tool fails after `max_retries + 1` calls with "Unknown tool: <name>" |
| `Engine.NoAttemptsWhenNegative` | atlas.py:1497 | with a negative `max_retries`, the step stays in progress and nothing is called |
| `Engine.RunSteps` | atlas.py:1487-1539 | one end state and one log line per step |
| `Engine.RunStepsAt` | atlas.py:1487-1539 | step k ends as run from the state the first k steps left, and log line k describes it |
| `Engine.AllStepsTerminal` | atlas.py:1487-1534 | when every step allows an attempt, every step ends completed or failed, with its number, tool and limit kept |
| `Engine.OutcomeTextSpec` | atlas.py:1536-1538 | a log line shows the step's result, or its error when the result is missing or empty, or "None" when both are missing |
| `Engine.LogLineShape` | atlas.py:1536-1538 | a log line starts with "Step " and ends with the step's outcome |
| `Engine.FreshStepsEnd` | atlas.py:1497-1534 | every step that enters with no retries, no result and no error, and allows an attempt, ends with `retry_count <= max_retries` and exactly one of result and error set |
| `Engine.CountCompleted` | atlas.py:1542 | the count of completed steps is at most the number of steps |
| `Engine.CountCompletedIsSize` | atlas.py:1542 | the count is the number of positions whose step has status `completed` |
| `Engine.CountCompletedPositive` | atlas.py:1542-1544 | the count is positive iff some step completed |
| `Engine.Aggregate` | atlas.py:1542-1544 | the plan is completed iff some step completed, otherwise failed; an empty plan fails |
| `Engine.VerificationNoteAsWritten` | atlas.py:1552 | the source raises iff the reply parses to a truthy value that is not a dict. A dict gives its "note" (default ""), and a missing or falsy value gives the first 200 characters of the raw reply |
| `Engine.VerificationNote` | atlas.py:1550-1552 | the note is the dict's "note" (default ""), or else the first 200 characters of the raw reply; agrees with the source wherever the source does not raise |
| `Engine.ListVerificationReplyRaises` | atlas.py:1552 | a list as the verification reply raises as written; the corrected note is the raw reply |
| `Engine.RunSpecProperties` | atlas.py:1472-1564 | one log line per step, in order, each describing its step's end state. Every step ends terminal when it allows an attempt. The plan is completed iff a step is. An empty plan fails after one verification request and no tool call. A step that enters with no retries, no result and no error ends with `retry_count <= max_retries` and exactly one of result and error set |
| `Engine.ExecutionEngine.Attempt` | atlas.py:1498 | one tool call through the manager at the current call count |
| `Engine.ExecutionEngine.AttemptOnce` | atlas.py:1498-1534 | one pass of the attempts loop: on success the step and state are the end of `Attempts`; otherwise the loop goes on from the next attempt with the same outcome |
| `Engine.ExecutionEngine.RetryStep` | atlas.py:1510-1523 | the step and the conversation after a retry are those of `Retry` |
| `Engine.ExecutionEngine.RunOneStep` | atlas.py:1488-1534 | the attempts loop with its `break` ends in the step and state of `RunStep` |
| `Engine.ExecutionEngine.RunAll` | atlas.py:1487-1539 | the plan's steps are replaced in order by their end states, and the log is that of `RunSteps`; id, request and status are kept |
| `Engine.ExecutionEngine.Verify` | atlas.py:1550-1552 | one verification request; the note is `VerificationNote` of its extracted reply |
| `Engine.ExecutionEngine.Run` | atlas.py:1472-1564 | the plan's steps, status, log, note and the conversation and counters after the run are exactly those of `RunSpec`; id and request are kept |
| `PathResolver.Alias` | atlas.py:251-259 | only lower-case, non-empty names are aliases |
| `PathResolver.Resolve` | atlas.py:261-287 | empty gives the workspace, and a stripped `~` path is expanded. Any other non-empty path is kept as given iff it is absolute. A first segment naming a folder (in any case, with `\` or `/`) gives that folder and the rest joined with `/`. Anything else goes under the workspace |
| `PathResolver.ResolveAlias` | atlas.py:276-284 | conversely, any-case alias + `/` + rest resolves to that folder and that rest |
| `PathResolver.BackslashAlias` | atlas.py:277-284 | `Desktop\rest` resolves as `desktop/rest` does |
| `ShellTools.ContainsAny` | atlas.py:1063 | true iff some entry occurs in the text |
| `ShellTools.Safe` | atlas.py:1061-1063 | a command is safe iff no blocked entry occurs in its lower-cased text |
| `ShellTools.BlockedIsLowerCase` | atlas.py:1051-1057 | the block list is lower case |
| `ShellTools.SafeIgnoresCase` | atlas.py:1062 | the verdict does not depend on case |
| `ShellTools.BlockedAnywhere` | atlas.py:1061-1063 | a blocked entry in any case, anywhere in a command, makes it unsafe |
| `ShellTools.SafePart` | atlas.py:1061-1063 | every slice of a safe command is safe |
| `ExcelTools.MaxLen` | atlas.py:629 | the maximum is the length of some value and at least that of each |
| `ExcelTools.Normalise` | atlas.py:620-662 | the loops compute `Tabulate` for every shape of `data` |
| `ExcelTools.CollectSubKeys` | atlas.py:638-642 | the nested loops collect `SubKeys` |
| `ExcelTools.AddKeysSpec` | atlas.py:640-642 | adding keys keeps the list duplicate-free and holds exactly the old and new keys |
| `ExcelTools.SubKeysSpec` | atlas.py:638-643 | the sub-keys are distinct and are exactly the keys of some inner dict |
| `ExcelTools.ColumnsReadBack` | atlas.py:627-636 | a dict of lists gives one column per key, as many rows as the longest list, and each cell is the list's item or "" |
| `ExcelTools.FirstRecordReadsBack` | atlas.py:651-653 | a list of dicts gives the first dict's keys as headers, one row per item, and the first row is the first dict's values |
| `ExcelTools.RaisesIff` | atlas.py:623-662 | normalisation raises iff `data` is an empty dict, or a list led by a non-empty dict with a non-dict item |
| `ExcelTools.ScalarTable` | atlas.py:660-662 | a string gives one "Data" column holding it |
| `WebTools.WithScheme` | atlas.py:924-925 | the address has a scheme and ends with the given one. It is unchanged when it had `http://` or `https://`, and is otherwise prefixed with `https://` |
| `WebTools.WithSchemeIdempotent` | atlas.py:924-925 | prefixing twice is prefixing once |
| `WebTools.SchemeCaseSensitive` | atlas.py:924-925 | the test is case-sensitive: every address starting with a capital letter, `HTTP://` among them, is given the prefix |
| `AutomationTools.SplitKeys` | atlas.py:1169 | one key per `+` or `,` separator plus one; no key holds a separator; keys are stripped |
| `AutomationTools.SplitKeysRoundTrip` | atlas.py:1169 | without whitespace, joining the keys with `+` gives the combination with `,` written as `+` |
| `AutomationTools.SplitKeysOne` | atlas.py:1169 | a combination with no `+` and no `,` is the single key: the whole text, stripped |
| `AutomationTools.SplitKeysConcat` | atlas.py:1169 | the keys of `a`, a `+` or `,`, then `b` are the keys of `a` followed by the keys of `b` |
| `DocumentTools.ClassifyLine` | atlas.py:1270-1279 | headings have level 1 to 3, and every non-blank line is its block's marker followed by its text |
| `DocumentTools.BlankIff` | atlas.py:1278 | a line gives no block iff it strips to nothing |
| `DocumentTools.Blocks` | atlas.py:1268-1269 | one classification per `\n`-separated line |
| `DocumentTools.BlocksConcat` | atlas.py:1268-1269 | the blocks of two texts joined by a newline are those of the first followed by those of the second |
| `DocumentTools.BlocksOneLine` | atlas.py:1268-1279 | a single line gives exactly its own classification |
| `DocumentTools.ClassifyMarked` | atlas.py:1270-1279 | a block written with its marker reads back as itself |

## Left out

- Console output (`rich` panels, previews), logging and `time.sleep(0.5)` are left out. They change no state the core reads.
- The task id (`md5` of the clock) is the parameter `taskId`. `created_at` is left out.
- Tool bodies are outside the model: files, Excel workbooks, Selenium, pyautogui, shell processes and python-docx. A tool is its declared parameter names plus a function from its arguments and the call count to a result or an exception. `inspect.signature` is the declared names.
- `ollama.chat` is the parameter `backend`. Its sampling options (temperature, `num_predict`, stop sequences) are folded into the flag `expectJson` that selects them. `_SYSTEM_PROMPT` and the model name are constructor parameters.
- `json.loads` is the parameter `parse`. JSON numbers are integers: floats are not modelled.
- A JSON object keeps duplicate keys in order, and lookup takes the first; Python keeps the last. Plans with duplicate keys are not covered.
- `str.lower` maps ASCII letters and the Kelvin sign; other Unicode case mappings are not modelled. The Kelvin sign is kept because it can turn a first segment into the alias "desktop".
- `repr` of strings escapes ASCII control characters only. Python also escapes non-printable non-ASCII characters.
- Steps are values held in `TaskPlan.steps`. The engine replaces a step where the source mutates it in place. No other reference to a step exists in the core, so aliasing is not modelled.
- `PathResolver.Resolve` leaves out the operating system's folder paths, `os.path.expanduser` and `pathlib` joining. A result is the base it starts from plus the text appended. Whether a text is absolute is the parameter `isAbsolute`.
- `ExcelTools.Tabulate` reports an exception by its type only (`ValueError`, `AttributeError`), not by its message.
- The dict and list branches of `create_word_document` (atlas.py:1281-1300) are not part of this model; only text content is classified.
- The "pyautogui unavailable" and "python-docx not installed" early returns are environment checks and are left out.
- `ResponseParser.PlanEntries` covers only dicts: a truthy list or string holding "steps" is not a plan here (see the findings).
- `Engine.ApplyFix`, `Engine.VerificationNote` and `Tools.Dispatch` are the corrected behaviours, not the raising paths. `ApplyFixAsWritten`, `VerificationNoteAsWritten` and `ExecuteAsWritten` model the raising paths.
- `Engine.ExecutionEngine.Run` is proved against `RunSpec` through a ghost `Env` bound to the engine's collaborators. The engine object itself holds no `Env`.

## Findings

`ToolManager.execute` catches every exception raised inside its `try` and reports it as a failed `ToolResult` (atlas.py:1365-1375), so a failing tool never ends a run. A reply the engine cannot use is evidently meant to fall back the same way. At four places the code lets an exception escape `run` or `parse_plan` instead:

| source | as written | input that shows it | evidently intended | confidence | as-written member | corrected member |
|---|---|---|---|---|---|---|
| atlas.py:1522-1523 | `"params" in fix_data` on a truthy number raises `TypeError` out of `run` | fix reply `7` | an unusable fix reply keeps the parameters | not executed | `Engine.ApplyFixAsWritten`, `Engine.NumberFixReplyRaises` | `Engine.ApplyFix` |
| atlas.py:1441-1457 | `"steps" not in data` on a truthy number raises; a list or string containing "steps" reaches `data.get` and raises | plan reply `42` | a reply that is not a plan is not a plan | not executed | `ResponseParser.CheckPlanAsWritten`, `ResponseParser.NumberReplyRaises` | `ResponseParser.PlanEntries` |
| atlas.py:1361 | `self.registry.get(tool_name)` outside the `try` raises `TypeError` for a list or dict name | a step with `"tool": ["a"]` | an unknown tool is reported as a failed step | not executed | `Tools.ExecuteAsWritten`, `Tools.ListToolNameRaises` | `Tools.Dispatch` |
| atlas.py:1552 | `ver.get` on a truthy non-dict raises `AttributeError` after the steps ran | verification reply `[1]` | the note falls back to the raw reply | not executed | `Engine.VerificationNoteAsWritten`, `Engine.ListVerificationReplyRaises` | `Engine.VerificationNote` |
