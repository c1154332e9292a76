/**
 * `OllamaEngine` (atlas.py:391-461): the bounded conversation kept with the
 * language model, and the three prompts the agent sends through it.
 *
 * The server is the parameter `backend`: it sees the messages sent, whether
 * a JSON answer is expected (which selects the sampling options of
 * atlas.py:416-427), and how many requests came before, and it either
 * replies or cannot be reached.
 */
module Ollama {
  import opened Text
  import opened Json

  datatype Role = System | User | Assistant

  datatype Message = Message(role: Role, content: string)

  datatype BackendReply = Replied(content: string) | Unreachable(detail: string)

  type Backend = (seq<Message>, bool, nat) -> BackendReply

  /** `self.max_history`. */
  const MaxHistory: nat := 12

  /** `history[-max_history:]` when the history is longer than that. */
  function Window(h: seq<Message>): (r: seq<Message>)
    ensures |r| == if |h| > MaxHistory then MaxHistory else |h|
    ensures r == h[|h| - |r|..]
  {
    if |h| > MaxHistory then h[|h| - MaxHistory..] else h
  }

  /** The state `chat` changes, and its answer. */
  datatype Turn = Turn(history: seq<Message>, reply: string)

  /** The messages of one request: the system prompt, then the kept history. */
  function Request(systemPrompt: string, kept: seq<Message>): seq<Message> {
    [Message(System, systemPrompt)] + kept
  }

  const ErrorPrefix: string := "OLLAMA_ERROR: "

  /** `OllamaEngine.chat` as a function of the history and the request count. */
  function ChatStep(backend: Backend, systemPrompt: string, history: seq<Message>, sent: nat,
                    message: string, expectJson: bool): Turn
  {
    var kept := Window(history + [Message(User, message)]);
    match backend(Request(systemPrompt, kept), expectJson, sent)
    case Replied(content) => Turn(kept + [Message(Assistant, content)], content)
    case Unreachable(detail) => Turn(kept, ErrorPrefix + detail)
  }

  /** Whatever the history before, at most `max_history + 1` messages are kept
      after a turn: the window is cut before the reply is added. */
  lemma ChatBoundsHistory(backend: Backend, systemPrompt: string, history: seq<Message>, sent: nat,
                          message: string, expectJson: bool)
    ensures |ChatStep(backend, systemPrompt, history, sent, message, expectJson).history| <= MaxHistory + 1
  {
  }

  /** A turn keeps the newest messages: the new history is a suffix of the old
      history with the user message, followed by the reply when the server
      answered; when it did not, the answer is the error text and nothing of
      the server's is kept. */
  lemma ChatKeepsNewest(backend: Backend, systemPrompt: string, history: seq<Message>, sent: nat,
                        message: string, expectJson: bool)
    ensures var t := ChatStep(backend, systemPrompt, history, sent, message, expectJson);
      var full := history + [Message(User, message)];
      match backend(Request(systemPrompt, Window(full)), expectJson, sent)
      case Replied(c) =>
        && t.reply == c
        && |t.history| >= 2 && t.history[|t.history| - 1] == Message(Assistant, c)
        && t.history[|t.history| - 2] == Message(User, message)
        && t.history[..|t.history| - 1] == full[|full| - (|t.history| - 1)..]
      case Unreachable(d) =>
        && t.reply == ErrorPrefix + d
        && t.history != [] && t.history[|t.history| - 1] == Message(User, message)
        && t.history == full[|full| - |t.history|..]
  {
    var full := history + [Message(User, message)];
    var kept := Window(full);
    assert kept[|kept| - 1] == full[|full| - 1];
  }

  /** Every request starts with the system prompt and ends with the message
      being sent, and carries at most `max_history` messages of history. */
  lemma RequestShape(systemPrompt: string, history: seq<Message>, message: string)
    ensures var q := Request(systemPrompt, Window(history + [Message(User, message)]));
      && 2 <= |q| <= MaxHistory + 1
      && q[0] == Message(System, systemPrompt)
      && q[|q| - 1] == Message(User, message)
  {
    var full := history + [Message(User, message)];
    assert Window(full)[|Window(full)| - 1] == full[|full| - 1];
  }

  /** The window keeps a short history whole. */
  lemma ShortHistoryKept(h: seq<Message>)
    requires |h| <= MaxHistory
    ensures Window(h) == h
  {
  }

  /** `plan_task`'s prompt. */
  function PlanPrompt(request: string): string {
    "Task: \"" + request + "\"\nRespond ONLY with the JSON plan. No explanation."
  }

  /** `"; ".join(results)[:400]`. */
  function Summary(results: seq<string>): (r: string)
    ensures |r| == if |Join("; ", results)| <= 400 then |Join("; ", results)| else 400
    ensures r <= Join("; ", results)
  {
    Take(Join("; ", results), 400)
  }

  /** `verify_result`'s prompt; the task is the plan's "plan" value, formatted with `str`. */
  function VerifyPrompt(task: Json, results: seq<string>): string {
    "Task: \"" + PyStr(task) + "\"\nResults: " + Summary(results) + "\n"
    + "Respond ONLY JSON: {\"success\":true/false,\"note\":\"brief\"}"
  }

  /** `fix_params`'s prompt: the tool name with `str`, the parameters with `json.dumps`. */
  function FixPrompt(tool: Json, error: string, params: Json): string {
    "Tool " + PyStr(tool) + " failed: " + error + "\n"
    + "Params: " + Dumps(params) + "\n"
    + "Fix and respond ONLY JSON: {\"params\":{...}}"
  }

  /** The plan prompt opens with the request, after an opening quote. */
  lemma PlanPromptQuotes(request: string)
    ensures var r := PlanPrompt(request);
      && |r| > |request| + 7 && r[..7] == "Task: \"" && r[7..7 + |request|] == request
  {
    var r := PlanPrompt(request);
    var head := "Task: \"" + request;
    var tail := "\"\nRespond ONLY with the JSON plan. No explanation.";
    assert r == head + tail;
    assert r[7..7 + |request|] == head[7..] == request;
  }

  /** The verification prompt carries the task and the truncated summary of the results. */
  lemma VerifyPromptCarries(task: Json, results: seq<string>)
    ensures Contains(VerifyPrompt(task, results), PyStr(task))
    ensures Contains(VerifyPrompt(task, results), Summary(results))
  {
    var t := PyStr(task);
    var m := Summary(results);
    var p1 := "\"\nResults: ";
    var p2 := "\n";
    var p3 := "Respond ONLY JSON: {\"success\":true/false,\"note\":\"brief\"}";
    assert VerifyPrompt(task, results) == "Task: \"" + t + p1 + m + p2 + p3;
    ContainsEnd("Task: \"", t);
    ContainsExtend("Task: \"" + t, p1, t);
    ContainsExtend("Task: \"" + t + p1, m, t);
    ContainsExtend("Task: \"" + t + p1 + m, p2, t);
    ContainsExtend("Task: \"" + t + p1 + m + p2, p3, t);
    ContainsEnd("Task: \"" + t + p1, m);
    ContainsExtend("Task: \"" + t + p1 + m, p2, m);
    ContainsExtend("Task: \"" + t + p1 + m + p2, p3, m);
  }

  /** The fix prompt carries the tool name, the error and the dumped parameters. */
  lemma FixPromptCarries(tool: Json, error: string, params: Json)
    ensures Contains(FixPrompt(tool, error, params), PyStr(tool))
    ensures Contains(FixPrompt(tool, error, params), error)
    ensures Contains(FixPrompt(tool, error, params), Dumps(params))
  {
    var t := PyStr(tool);
    var d := Dumps(params);
    var a := "Tool " + t;
    var b := a + " failed: " + error;
    var c := b + "\n" + "Params: " + d;
    var p3 := "\n";
    var p4 := "Fix and respond ONLY JSON: {\"params\":{...}}";
    assert FixPrompt(tool, error, params) == c + p3 + p4;
    ContainsEnd("Tool ", t);
    ContainsExtend(a, " failed: ", t);
    ContainsExtend(a + " failed: ", error, t);
    ContainsEnd(a + " failed: ", error);
    CarriedToEnd(b, d, t);
    CarriedToEnd(b, d, error);
    ContainsEnd(b + "\n" + "Params: ", d);
    ContainsExtend(c, p3, d);
    ContainsExtend(c + p3, p4, d);
  }

  /** What the fix prompt holds before its parameters it still holds at its end. */
  lemma CarriedToEnd(b: string, d: string, pat: string)
    requires Contains(b, pat)
    ensures Contains(b + "\n" + "Params: " + d + "\n" + "Fix and respond ONLY JSON: {\"params\":{...}}", pat)
  {
    ContainsExtend(b, "\n", pat);
    ContainsExtend(b + "\n", "Params: ", pat);
    ContainsExtend(b + "\n" + "Params: ", d, pat);
    ContainsExtend(b + "\n" + "Params: " + d, "\n", pat);
    ContainsExtend(b + "\n" + "Params: " + d + "\n", "Fix and respond ONLY JSON: {\"params\":{...}}", pat);
  }

  /** `OllamaEngine`. `sent` counts the requests made, which the server may
      depend on. */
  class OllamaEngine {
    const modelName: string
    const systemPrompt: string
    const backend: Backend
    var history: seq<Message>
    var sent: nat

    constructor(modelName: string, systemPrompt: string, backend: Backend)
      ensures this.modelName == modelName && this.systemPrompt == systemPrompt
      ensures this.backend == backend
      ensures history == [] && sent == 0
    {
      this.modelName := modelName;
      this.systemPrompt := systemPrompt;
      this.backend := backend;
      history := [];
      sent := 0;
    }

    method Chat(message: string, expectJson: bool) returns (reply: string)
      modifies this
      ensures Turn(history, reply) == ChatStep(backend, systemPrompt, old(history), old(sent), message, expectJson)
      ensures sent == old(sent) + 1
      ensures |history| <= MaxHistory + 1
    {
      history := history + [Message(User, message)];
      if |history| > MaxHistory {
        history := history[|history| - MaxHistory..];
      }
      var messages := [Message(System, systemPrompt)] + history;
      var answer := backend(messages, expectJson, sent);
      sent := sent + 1;
      match answer
      case Replied(content) =>
        history := history + [Message(Assistant, content)];
        reply := content;
      case Unreachable(detail) =>
        reply := ErrorPrefix + detail;
    }

    method PlanTask(request: string) returns (reply: string)
      modifies this
      ensures Turn(history, reply) == ChatStep(backend, systemPrompt, old(history), old(sent), PlanPrompt(request), true)
      ensures sent == old(sent) + 1
    {
      reply := Chat(PlanPrompt(request), true);
    }

    method VerifyResult(task: Json, results: seq<string>) returns (reply: string)
      modifies this
      ensures Turn(history, reply) == ChatStep(backend, systemPrompt, old(history), old(sent), VerifyPrompt(task, results), true)
      ensures sent == old(sent) + 1
    {
      reply := Chat(VerifyPrompt(task, results), true);
    }

    method FixParams(tool: Json, error: string, params: Json) returns (reply: string)
      modifies this
      ensures Turn(history, reply) == ChatStep(backend, systemPrompt, old(history), old(sent), FixPrompt(tool, error, params), true)
      ensures sent == old(sent) + 1
    {
      reply := Chat(FixPrompt(tool, error, params), true);
    }

    method Reset()
      modifies this
      ensures history == [] && sent == old(sent)
    {
      history := [];
    }
  }
}
