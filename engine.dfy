/**
 * `ExecutionEngine.run` (atlas.py:1472-1564): every step of a plan is tried
 * up to `max_retries + 1` times; after a failure that is not the last, the
 * language model is asked for corrected parameters; the plan's status is
 * then aggregated and the model is asked to verify the outcome.
 *
 * `RunSpec` is the run as a function of the plan and of what the rest of the
 * system is in at its start; `ExecutionEngine.Run` is the loop of the source
 * proved equal to it, and the lemmas state what the source promises about it.
 */
module Engine {
  import opened Options
  import opened Text
  import opened Json
  import opened Tasks
  import opened Tools
  import opened Ollama
  import opened ResponseParser

  /** The collaborators `run` calls, each as a function of the state it
      sees: `tools.execute` at a given call count, `llm.fix_params` and
      `llm.verify_result` on a given conversation and request count, and
      `ResponseParser.extract_json`. `Wired` binds them to the model's own
      definitions; the lemmas below hold for any binding. */
  datatype Env = Env(
    execute: (Json, Json, nat) -> ToolResult,
    fixParams: (seq<Message>, nat, Json, string, Json) -> Turn,
    verifyResult: (seq<Message>, nat, Json, seq<string>) -> Turn,
    extract: string -> Option<Json>)

  function Wired(registry: Registry, backend: Backend, systemPrompt: string, parse: Parser): Env {
    Env(
      (toolName: Json, params: Json, calls: nat) => Dispatch(registry, toolName, params, calls),
      (history: seq<Message>, sent: nat, tool: Json, error: string, params: Json) =>
        ChatStep(backend, systemPrompt, history, sent, FixPrompt(tool, error, params), true),
      (history: seq<Message>, sent: nat, task: Json, results: seq<string>) =>
        ChatStep(backend, systemPrompt, history, sent, VerifyPrompt(task, results), true),
      text => Extract(text, parse))
  }

  /** `env` answers as the given registry, server and parser do. */
  ghost predicate Binds(env: Env, registry: Registry, backend: Backend, systemPrompt: string, parse: Parser) {
    && (forall n, p, c {:trigger Dispatch(registry, n, p, c)} ::
          env.execute(n, p, c) == Dispatch(registry, n, p, c))
    && (forall h, k, t, e, p {:trigger ChatStep(backend, systemPrompt, h, k, FixPrompt(t, e, p), true)} ::
          env.fixParams(h, k, t, e, p) == ChatStep(backend, systemPrompt, h, k, FixPrompt(t, e, p), true))
    && (forall h, k, t, r {:trigger ChatStep(backend, systemPrompt, h, k, VerifyPrompt(t, r), true)} ::
          env.verifyResult(h, k, t, r) == ChatStep(backend, systemPrompt, h, k, VerifyPrompt(t, r), true))
    && (forall x {:trigger Extract(x, parse)} :: env.extract(x) == Extract(x, parse))
  }

  /** The model's own definitions answer as themselves. */
  lemma WiredBinds(registry: Registry, backend: Backend, systemPrompt: string, parse: Parser)
    ensures Binds(Wired(registry, backend, systemPrompt, parse), registry, backend, systemPrompt, parse)
  {
  }

  /** What a run changes outside the plan: the conversation, the number of
      requests sent to the server, the number of tool calls made. */
  datatype World = World(history: seq<Message>, sent: nat, calls: nat)

  datatype Progress = Progress(step: TaskStep, world: World)

  // ---------------------------------------------------------------------
  // The parameter fix (atlas.py:1522-1523)
  // ---------------------------------------------------------------------

  /** What `if fix_data and "params" in fix_data: step.parameters =
      fix_data["params"]` does as written. */
  datatype FixOutcome = Keep | Replace(params: Json) | FixRaises

  /** The source's test on the fix reply. `"params" in fix_data` is a key
      test on a dict, a membership test on a list, a substring test on a
      string, and raises `TypeError` on a number or boolean; a list holding
      "params" or a string containing it then raises at the indexing. */
  function ApplyFixAsWritten(fix: Option<Json>): (r: FixOutcome)
    ensures fix.None? || !Truthy(fix.value) ==> r == Keep
    ensures r.Replace? ==>
      fix.Some? && fix.value.JObj? && HasKey(fix.value.fields, "params") && r.params == Get(fix.value.fields, "params").value
    ensures fix.Some? && fix.value.JObj? && HasKey(fix.value.fields, "params") ==> r.Replace?
    ensures r.FixRaises? ==> fix.Some? && Truthy(fix.value) && !fix.value.JObj?
    ensures fix.Some? && Truthy(fix.value) && (fix.value.JNum? || fix.value.JBool?) ==> r == FixRaises
  {
    match fix
    case None => Keep
    case Some(v) =>
      if !Truthy(v) then Keep
      else match v
        case JObj(fs) => if HasKey(fs, "params") then Replace(Get(fs, "params").value) else Keep
        case JArr(xs) => if JStr("params") in xs then FixRaises else Keep
        case JStr(s) => if Contains(s, "params") then FixRaises else Keep
        case _ => FixRaises
  }

  /** The parameters after a fix reply: replaced, not merged, by the reply's
      "params" when the reply is a dict holding that key, and kept otherwise. */
  function ApplyFix(fix: Option<Json>, params: Json): (r: Json)
    ensures r != params ==> fix.Some? && fix.value.JObj? && HasKey(fix.value.fields, "params")
    ensures fix.Some? && fix.value.JObj? && HasKey(fix.value.fields, "params") ==> r == Get(fix.value.fields, "params").value
    ensures ApplyFixAsWritten(fix) == Keep ==> r == params
    ensures ApplyFixAsWritten(fix).Replace? ==> r == ApplyFixAsWritten(fix).params
  {
    match fix
    case Some(JObj(fs)) => if HasKey(fs, "params") then Get(fs, "params").value else params
    case _ => params
  }

  /** A bare number as the fix reply makes the source raise out of `run`;
      the corrected fix keeps the parameters. */
  lemma NumberFixReplyRaises(parse: Parser, params: Json)
    requires parse("7") == Some(JNum(7))
    ensures ApplyFixAsWritten(Extract("7", parse)) == FixRaises
    ensures ApplyFix(Extract("7", parse), params) == params
  {
  }

  // ---------------------------------------------------------------------
  // One step (atlas.py:1488-1534)
  // ---------------------------------------------------------------------

  /** The attempts loop from attempt `a` on: `for attempt in range(max_retries + 1)`. */
  function Attempts(env: Env, s: TaskStep, a: int, w: World): (r: Progress)
    ensures r.step.stepNumber == s.stepNumber && r.step.description == s.description
    ensures r.step.toolName == s.toolName && r.step.maxRetries == s.maxRetries
    ensures w.calls <= r.world.calls && w.sent <= r.world.sent
    decreases s.maxRetries + 1 - a
  {
    if a > s.maxRetries then Progress(s, w)
    else
      var res := env.execute(s.toolName, s.parameters, w.calls);
      var w1 := w.(calls := w.calls + 1);
      if res.success then
        Progress(s.(status := Completed, result := Some(res.message)), w1)
      else if a < s.maxRetries then
        var r := Retry(env, s, res.message, w1);
        Attempts(env, r.step, a + 1, r.world)
      else
        Progress(s.(status := Failed, error := Some(res.message)), w1)
  }

  /** After a failed attempt that is not the last: count the retry, ask for
      corrected parameters and take them when the reply holds them. */
  function Retry(env: Env, s: TaskStep, message: string, w: World): (r: Progress)
    ensures r.step == s.(retryCount := s.retryCount + 1, status := Retrying, parameters := r.step.parameters)
    ensures r.world.sent == w.sent + 1 && r.world.calls == w.calls
  {
    var s1 := s.(retryCount := s.retryCount + 1, status := Retrying);
    var t := env.fixParams(w.history, w.sent, s1.toolName, message, s1.parameters);
    var fix := env.extract(t.reply);
    Progress(s1.(parameters := ApplyFix(fix, s1.parameters)), World(t.history, w.sent + 1, w.calls))
  }

  /** One attempt of the loop, given what the tool answered. */
  lemma AttemptsOnce(env: Env, s: TaskStep, a: int, w: World, res: ToolResult)
    requires 0 <= a <= s.maxRetries
    requires res == env.execute(s.toolName, s.parameters, w.calls)
    ensures var w1 := w.(calls := w.calls + 1);
      && (res.success ==> Attempts(env, s, a, w) == Progress(s.(status := Completed, result := Some(res.message)), w1))
      && (!res.success && a < s.maxRetries ==>
            var r := Retry(env, s, res.message, w1);
            Attempts(env, s, a, w) == Attempts(env, r.step, a + 1, r.world))
      && (!res.success && a == s.maxRetries ==>
            var f := s.(status := Failed, error := Some(res.message));
            Attempts(env, s, a, w) == Progress(f, w1) == Attempts(env, f, a + 1, w1))
  {
  }

  /** A step as `run` executes it: marked running, then attempted. */
  function RunStep(env: Env, s: TaskStep, w: World): Progress {
    Attempts(env, s.(status := InProgress), 0, w)
  }

  /** With at least one attempt left, the loop ends in a terminal status:
      completed with the tool's message as result, or failed with the last
      message as error; the other of the two is left as it was. */
  lemma {:induction false} AttemptsEndTerminal(env: Env, s: TaskStep, a: int, w: World)
    requires 0 <= a <= s.maxRetries
    ensures var r := Attempts(env, s, a, w);
      && IsTerminal(r.step.status)
      && (r.step.status == Completed ==> r.step.result.Some? && r.step.error == s.error)
      && (r.step.status == Failed ==> r.step.error.Some? && r.step.result == s.result)
    decreases s.maxRetries - a
  {
    var res := env.execute(s.toolName, s.parameters, w.calls);
    if !res.success && a < s.maxRetries {
      var r := Retry(env, s, res.message, w.(calls := w.calls + 1));
      AttemptsEndTerminal(env, r.step, a + 1, r.world);
    }
  }

  /** Counting: every failed attempt that is not the last adds one to
      `retry_count` and sends exactly one fix request; every attempt calls
      the tool once; so a step with attempts left makes `retry_count + 1`
      calls, and at most `max_retries` retries happen. */
  lemma {:induction false} AttemptsCounts(env: Env, s: TaskStep, a: int, w: World)
    requires 0 <= a <= s.maxRetries
    ensures var r := Attempts(env, s, a, w);
      && s.retryCount <= r.step.retryCount <= s.retryCount + (s.maxRetries - a)
      && r.world.sent - w.sent == r.step.retryCount - s.retryCount
      && r.world.calls - w.calls == r.step.retryCount - s.retryCount + 1
      && (r.step.status == Failed ==> r.step.retryCount == s.retryCount + (s.maxRetries - a))
    decreases s.maxRetries - a
  {
    var res := env.execute(s.toolName, s.parameters, w.calls);
    if !res.success && a < s.maxRetries {
      var r := Retry(env, s, res.message, w.(calls := w.calls + 1));
      AttemptsCounts(env, r.step, a + 1, r.world);
    }
  }

  /** A step whose first attempt succeeds is executed once: completed, its
      result the tool's message, nothing else of it changed, and no request
      sent to the server. */
  lemma SucceedsFirstTime(env: Env, s: TaskStep, w: World)
    requires s.maxRetries >= 0
    requires env.execute(s.toolName, s.parameters, w.calls).success
    ensures RunStep(env, s, w) ==
      Progress(s.(status := Completed, result := Some(env.execute(s.toolName, s.parameters, w.calls).message)),
               w.(calls := w.calls + 1))
  {
  }

  /** A tool that fails for every parameter and at every call is executed
      `max_retries + 1` times from attempt 0: the step fails with
      `retry_count` raised by `max_retries`, `max_retries` fix requests are
      sent, and the error is the message of the last call. */
  lemma {:induction false} AlwaysFails(env: Env, s: TaskStep, a: int, w: World)
    requires 0 <= a <= s.maxRetries
    requires forall p, c :: !env.execute(s.toolName, p, c).success
    ensures var r := Attempts(env, s, a, w);
      && r.step.status == Failed
      && r.step.retryCount == s.retryCount + (s.maxRetries - a)
      && r.world.calls == w.calls + (s.maxRetries - a) + 1
      && r.world.sent == w.sent + (s.maxRetries - a)
      && r.step.error == Some(env.execute(s.toolName, r.step.parameters, r.world.calls - 1).message)
    decreases s.maxRetries - a
  {
    var res := env.execute(s.toolName, s.parameters, w.calls);
    if a < s.maxRetries {
      var r := Retry(env, s, res.message, w.(calls := w.calls + 1));
      AlwaysFails(env, r.step, a + 1, r.world);
    }
  }

  /** A step naming a tool the registry does not hold fails on every attempt
      with "Unknown tool: <name>". */
  lemma UnknownToolStep(registry: Registry, backend: Backend, systemPrompt: string, parse: Parser,
                        s: TaskStep, name: string, w: World)
    requires s.toolName == JStr(name) && name !in registry && s.maxRetries >= 0
    ensures var r := RunStep(Wired(registry, backend, systemPrompt, parse), s, w);
      && r.step.status == Failed
      && r.step.retryCount == s.retryCount + s.maxRetries
      && r.world.calls == w.calls + s.maxRetries + 1
      && r.step.error == Some("Unknown tool: " + name)
  {
    var env := Wired(registry, backend, systemPrompt, parse);
    forall p, c ensures !env.execute(s.toolName, p, c).success {
      UnknownToolFails(registry, name, p, c);
    }
    AlwaysFails(env, s.(status := InProgress), 0, w);
    var r := RunStep(env, s, w);
    UnknownToolFails(registry, name, r.step.parameters, r.world.calls - 1);
  }

  /** With a negative `max_retries` the loop body never runs: the step stays
      marked as running, with neither result nor error. */
  lemma NoAttemptsWhenNegative(env: Env, s: TaskStep, w: World)
    requires s.maxRetries < 0
    ensures RunStep(env, s, w) == Progress(s.(status := InProgress), w)
  {
  }

  // ---------------------------------------------------------------------
  // All steps, the log, the aggregate and the verification
  // ---------------------------------------------------------------------

  /** `step.result or step.error` as an f-string renders it: an empty or
      missing result gives way to the error, and a missing error is "None". */
  function OutcomeText(s: TaskStep): string {
    if s.result.Some? && s.result.value != [] then s.result.value
    else if s.error.Some? then s.error.value
    else "None"
  }

  /** The outcome shown is the step's result or error, the result winning
      unless it is missing or empty. */
  lemma OutcomeTextSpec(s: TaskStep)
    ensures var r := OutcomeText(s);
      && (r == "None" || (s.result.Some? && r == s.result.value) || (s.error.Some? && r == s.error.value))
      && (s.result.Some? && s.result.value != [] ==> r == s.result.value)
      && ((s.result.None? || s.result.value == []) && s.error.Some? ==> r == s.error.value)
      && ((s.result.None? || s.result.value == []) && s.error.None? ==> r == "None")
  {
  }

  /** `f"Step {step.step_number} ({step.tool_name}): {step.result or step.error}"`. */
  function LogLine(s: TaskStep): string {
    "Step " + PyStr(s.stepNumber) + " (" + PyStr(s.toolName) + "): " + OutcomeText(s)
  }

  /** A log line names its step and ends with the step's outcome. */
  lemma LogLineShape(s: TaskStep)
    ensures "Step " <= LogLine(s)
    ensures var r := LogLine(s); |OutcomeText(s)| < |r| && r[|r| - |OutcomeText(s)|..] == OutcomeText(s)
  {
    var head := "Step " + PyStr(s.stepNumber) + " (" + PyStr(s.toolName) + "): ";
    assert LogLine(s) == "Step " + (PyStr(s.stepNumber) + " (" + PyStr(s.toolName) + "): " + OutcomeText(s));
    assert LogLine(s) == head + OutcomeText(s);
  }

  datatype StepsOutcome = StepsOutcome(steps: seq<TaskStep>, world: World, log: seq<string>)

  /** The steps run in order, each from the world the previous one left. */
  function RunSteps(env: Env, steps: seq<TaskStep>, w: World): (r: StepsOutcome)
    ensures |r.steps| == |steps| && |r.log| == |steps|
  {
    if steps == [] then StepsOutcome([], w, [])
    else
      var p := RunSteps(env, steps[..|steps| - 1], w);
      var q := RunStep(env, steps[|steps| - 1], p.world);
      StepsOutcome(p.steps + [q.step], q.world, p.log + [LogLine(q.step)])
  }

  /** Step `k` ends as the step run from the world the first `k` steps left,
      and the log's line `k` describes it. */
  lemma {:induction false} RunStepsAt(env: Env, steps: seq<TaskStep>, w: World, k: nat)
    requires k < |steps|
    ensures var r := RunSteps(env, steps, w);
      && r.steps[k] == RunStep(env, steps[k], RunSteps(env, steps[..k], w).world).step
      && r.log[k] == LogLine(r.steps[k])
    decreases |steps|
  {
    var n := |steps|;
    var init := steps[..n - 1];
    var p := RunSteps(env, init, w);
    var q := RunStep(env, steps[n - 1], p.world);
    assert RunSteps(env, steps, w) == StepsOutcome(p.steps + [q.step], q.world, p.log + [LogLine(q.step)]);
    if k < n - 1 {
      RunStepsAt(env, init, w, k);
      assert init[..k] == steps[..k] && init[k] == steps[k];
    } else {
      assert init == steps[..k];
    }
  }

  /** The steps of a longer plan begin with the outcome of its first steps. */
  lemma {:induction false} RunStepsPrefix(env: Env, steps: seq<TaskStep>, w: World, i: nat)
    requires i < |steps|
    ensures var p := RunSteps(env, steps[..i], w);
      var q := RunStep(env, steps[i], p.world);
      RunSteps(env, steps[..i + 1], w) == StepsOutcome(p.steps + [q.step], q.world, p.log + [LogLine(q.step)])
  {
    assert steps[..i + 1][..i] == steps[..i];
    assert steps[..i + 1][i] == steps[i];
  }

  /** Replacing the first step not yet run by its end state extends the
      finished prefix by one and leaves the rest as it was. */
  lemma ReplaceNext(done: seq<TaskStep>, steps: seq<TaskStep>, i: nat, s: TaskStep)
    requires i < |done| == |steps| && done[i..] == steps[i..]
    ensures done[i] == steps[i]
    ensures done[i := s][..i + 1] == done[..i] + [s]
    ensures done[i := s][i + 1..] == steps[i + 1..]
  {
    assert done[i] == done[i..][0];
  }

  /** When every step allows at least one attempt, every step ends completed
      or failed, and each keeps its number, tool and retry limit. */
  lemma AllStepsTerminal(env: Env, steps: seq<TaskStep>, w: World)
    requires forall k :: 0 <= k < |steps| ==> steps[k].maxRetries >= 0
    ensures var r := RunSteps(env, steps, w);
      forall k :: 0 <= k < |steps| ==>
        && IsTerminal(r.steps[k].status)
        && r.steps[k].stepNumber == steps[k].stepNumber
        && r.steps[k].toolName == steps[k].toolName
        && r.steps[k].maxRetries == steps[k].maxRetries
  {
    var r := RunSteps(env, steps, w);
    forall k | 0 <= k < |steps|
      ensures IsTerminal(r.steps[k].status)
      ensures r.steps[k].stepNumber == steps[k].stepNumber
      ensures r.steps[k].toolName == steps[k].toolName
      ensures r.steps[k].maxRetries == steps[k].maxRetries
    {
      RunStepsAt(env, steps, w, k);
      var wk := RunSteps(env, steps[..k], w).world;
      AttemptsEndTerminal(env, steps[k].(status := InProgress), 0, wk);
    }
  }

  /** A step that starts afresh (no retries, no result, no error) and allows
      an attempt ends with at most `max_retries` retries and exactly one of
      result and error set. */
  lemma FreshStepsEnd(env: Env, steps: seq<TaskStep>, w: World)
    requires forall k :: 0 <= k < |steps| ==> steps[k].maxRetries >= 0
    ensures var r := RunSteps(env, steps, w);
      forall k :: 0 <= k < |steps| && Fresh(steps[k]) ==>
        && r.steps[k].retryCount <= r.steps[k].maxRetries
        && (r.steps[k].result.Some? <==> r.steps[k].error.None?)
  {
    var r := RunSteps(env, steps, w);
    forall k | 0 <= k < |steps| && Fresh(steps[k])
      ensures r.steps[k].retryCount <= r.steps[k].maxRetries
      ensures r.steps[k].result.Some? <==> r.steps[k].error.None?
    {
      RunStepsAt(env, steps, w, k);
      var wk := RunSteps(env, steps[..k], w).world;
      AttemptsEndTerminal(env, steps[k].(status := InProgress), 0, wk);
      AttemptsCounts(env, steps[k].(status := InProgress), 0, wk);
    }
  }

  predicate Fresh(s: TaskStep) {
    s.retryCount == 0 && s.result.None? && s.error.None?
  }

  function CountCompleted(steps: seq<TaskStep>): (n: nat)
    ensures n <= |steps|
  {
    if steps == [] then 0
    else CountCompleted(steps[..|steps| - 1]) + (if steps[|steps| - 1].status == Completed then 1 else 0)
  }

  /** The count is the number of positions holding a completed step. */
  lemma {:induction false} CountCompletedIsSize(steps: seq<TaskStep>)
    ensures CountCompleted(steps) == |set k | 0 <= k < |steps| && steps[k].status == Completed|
  {
    if steps != [] {
      var init := steps[..|steps| - 1];
      CountCompletedIsSize(init);
      var all := set k | 0 <= k < |steps| && steps[k].status == Completed;
      var front := set k | 0 <= k < |init| && init[k].status == Completed;
      assert forall k :: 0 <= k < |init| ==> init[k] == steps[k];
      if steps[|steps| - 1].status == Completed {
        assert all == front + {|init|};
      } else {
        assert all == front;
      }
    }
  }

  /** The count of completed steps is positive exactly when some step completed. */
  lemma {:induction false} CountCompletedPositive(steps: seq<TaskStep>)
    ensures CountCompleted(steps) > 0 <==> exists k :: 0 <= k < |steps| && steps[k].status == Completed
  {
    if steps != [] {
      var init := steps[..|steps| - 1];
      CountCompletedPositive(init);
      if exists k :: 0 <= k < |init| && init[k].status == Completed {
        var k :| 0 <= k < |init| && init[k].status == Completed;
        assert steps[k] == init[k];
      }
      if exists k :: 0 <= k < |steps| && steps[k].status == Completed {
        var k :| 0 <= k < |steps| && steps[k].status == Completed;
        if k < |init| { assert init[k] == steps[k]; }
      }
    }
  }

  /** `COMPLETED if n_ok > 0 else FAILED`: a plan is completed exactly when
      some step completed; in particular a plan without steps fails. */
  function Aggregate(steps: seq<TaskStep>): (r: TaskStatus)
    ensures r == Completed <==> exists k :: 0 <= k < |steps| && steps[k].status == Completed
    ensures r == Completed || r == Failed
    ensures steps == [] ==> r == Failed
  {
    CountCompletedPositive(steps);
    if CountCompleted(steps) > 0 then Completed else Failed
  }

  /** `ver.get("note", "") if ver else ver_raw[:200]` as written: a reply
      that parses to a truthy value other than a dict has no `.get` and the
      `AttributeError` escapes `run` (None here). */
  function VerificationNoteAsWritten(ver: Option<Json>, raw: string): (r: Option<Json>)
    ensures r.None? <==> ver.Some? && Truthy(ver.value) && !ver.value.JObj?
    ensures ver.None? || !Truthy(ver.value) ==> r == Some(JStr(Take(raw, 200)))
    ensures ver.Some? && Truthy(ver.value) && ver.value.JObj? ==>
      r == Some(if HasKey(ver.value.fields, "note") then Get(ver.value.fields, "note").value else JStr(""))
  {
    match ver
    case Some(v) =>
      if !Truthy(v) then Some(JStr(Take(raw, 200)))
      else if v.JObj? then Some(GetOr(v.fields, "note", JStr("")))
      else None
    case None => Some(JStr(Take(raw, 200)))
  }

  /** The note shown after verification: the dict's "note", or else the
      start of the raw reply. */
  function VerificationNote(ver: Option<Json>, raw: string): (note: Json)
    ensures VerificationNoteAsWritten(ver, raw).Some? ==> note == VerificationNoteAsWritten(ver, raw).value
    ensures !(ver.Some? && ver.value.JObj? && Truthy(ver.value)) ==> note == JStr(Take(raw, 200))
  {
    match ver
    case Some(v) => if Truthy(v) && v.JObj? then GetOr(v.fields, "note", JStr("")) else JStr(Take(raw, 200))
    case None => JStr(Take(raw, 200))
  }

  /** A verification reply that is a JSON list makes the source raise after
      the plan has run; the corrected note is the raw reply. */
  lemma ListVerificationReplyRaises(parse: Parser)
    requires parse("[1]") == Some(JArr([JNum(1)]))
    ensures VerificationNoteAsWritten(Extract("[1]", parse), "[1]").None?
    ensures VerificationNote(Extract("[1]", parse), "[1]") == JStr("[1]")
  {
  }

  datatype RunOutcome = RunOutcome(steps: seq<TaskStep>, status: TaskStatus, world: World, log: seq<string>, note: Json)

  /** `run` as a whole, for a plan with the given request and steps. */
  function RunSpec(env: Env, request: Json, steps: seq<TaskStep>, w: World): RunOutcome {
    var p := RunSteps(env, steps, w);
    var t := env.verifyResult(p.world.history, p.world.sent, request, p.log);
    RunOutcome(p.steps, Aggregate(p.steps), World(t.history, p.world.sent + 1, p.world.calls), p.log,
               VerificationNote(env.extract(t.reply), t.reply))
  }

  lemma RunSpecUnfold(env: Env, request: Json, steps: seq<TaskStep>, w: World)
    ensures var p := RunSteps(env, steps, w);
      var t := env.verifyResult(p.world.history, p.world.sent, request, p.log);
      RunSpec(env, request, steps, w) ==
        RunOutcome(p.steps, Aggregate(p.steps), World(t.history, p.world.sent + 1, p.world.calls), p.log,
                   VerificationNote(env.extract(t.reply), t.reply))
  {
  }

  lemma StatusIsAggregate(steps: seq<TaskStep>, n: nat)
    requires n == CountCompleted(steps)
    ensures (if n > 0 then Completed else Failed) == Aggregate(steps)
  {
  }

  /** What a run promises: one log line per step, in order, each describing
      its step's end state; every step ends completed or failed when it
      allows an attempt; the plan is completed exactly when a step is; and
      exactly one verification request follows the steps. */
  lemma RunSpecProperties(env: Env, request: Json, steps: seq<TaskStep>, w: World)
    requires forall k :: 0 <= k < |steps| ==> steps[k].maxRetries >= 0
    ensures var r := RunSpec(env, request, steps, w);
      && |r.steps| == |steps| && |r.log| == |steps|
      && (forall k :: 0 <= k < |steps| ==> r.log[k] == LogLine(r.steps[k]))
      && (forall k :: 0 <= k < |steps| ==> IsTerminal(r.steps[k].status))
      && (r.status == Completed <==> exists k :: 0 <= k < |steps| && r.steps[k].status == Completed)
      && (steps == [] ==> r.status == Failed && r.world.sent == w.sent + 1 && r.world.calls == w.calls)
      && (forall k :: 0 <= k < |steps| && Fresh(steps[k]) ==>
            && r.steps[k].retryCount <= r.steps[k].maxRetries
            && (r.steps[k].result.Some? <==> r.steps[k].error.None?))
  {
    var p := RunSteps(env, steps, w);
    AllStepsTerminal(env, steps, w);
    FreshStepsEnd(env, steps, w);
    forall k | 0 <= k < |steps| ensures p.log[k] == LogLine(p.steps[k]) {
      RunStepsAt(env, steps, w, k);
    }
  }

  // ---------------------------------------------------------------------
  // The engine object
  // ---------------------------------------------------------------------

  class ExecutionEngine {
    const tools: ToolManager
    const llm: OllamaEngine

    constructor(tools: ToolManager, llm: OllamaEngine)
      ensures this.tools == tools && this.llm == llm
    {
      this.tools := tools;
      this.llm := llm;
    }

    /** `env` answers as this engine's tool manager, model and parser do. */
    ghost predicate Drives(env: Env, parse: Parser) {
      Binds(env, tools.registry, llm.backend, llm.systemPrompt, parse)
    }

    ghost function Now(): World
      reads tools, llm
    {
      World(llm.history, llm.sent, tools.calls)
    }

    /** One call of the step's tool through the manager (atlas.py:1498). */
    method Attempt(step: TaskStep, ghost env: Env, ghost parse: Parser) returns (result: ToolResult)
      requires Drives(env, parse)
      modifies tools
      ensures result == env.execute(step.toolName, step.parameters, old(tools.calls))
      ensures Now() == old(Now()).(calls := old(tools.calls) + 1)
    {
      result := tools.Execute(step.toolName, step.parameters);
    }

    /** A failed attempt that is not the last (atlas.py:1510-1529). */
    method RetryStep(step: TaskStep, message: string, ghost env: Env, parse: Parser) returns (next: TaskStep)
      requires Drives(env, parse)
      modifies llm
      ensures Progress(next, Now()) == Retry(env, step, message, old(Now()))
    {
      next := step.(retryCount := step.retryCount + 1, status := Retrying);
      var fixResp := llm.FixParams(next.toolName, message, next.parameters);
      var fixData := ExtractJson(fixResp, parse);
      next := next.(parameters := ApplyFix(fixData, next.parameters));
    }

    /** The attempts loop of `run` for one step (atlas.py:1488-1534). */
    method RunOneStep(s: TaskStep, ghost env: Env, parse: Parser) returns (step: TaskStep)
      requires Drives(env, parse)
      modifies tools, llm
      ensures Progress(step, Now()) == RunStep(env, s, old(Now()))
    {
      step := s.(status := InProgress);
      var attempt := 0;
      while attempt < step.maxRetries + 1
        invariant 0 <= attempt && step.maxRetries == s.maxRetries
        invariant Attempts(env, step, attempt, Now()) == RunStep(env, s, old(Now()))
        decreases step.maxRetries + 1 - attempt
      {
        var succeeded;
        step, succeeded := AttemptOnce(step, attempt, env, parse);
        if succeeded {
          break;
        }
        attempt := attempt + 1;
      }
    }

    /** One pass of the attempts loop: call the tool, then complete the
        step, retry it with a fix request, or fail it on the last attempt. */
    method AttemptOnce(step: TaskStep, attempt: int, ghost env: Env, parse: Parser) returns (next: TaskStep, succeeded: bool)
      requires Drives(env, parse) && 0 <= attempt <= step.maxRetries
      modifies tools, llm
      ensures next.maxRetries == step.maxRetries
      ensures succeeded ==> Progress(next, Now()) == Attempts(env, step, attempt, old(Now()))
      ensures !succeeded ==> Attempts(env, next, attempt + 1, Now()) == Attempts(env, step, attempt, old(Now()))
    {
      ghost var w := Now();
      var result := Attempt(step, env, parse);
      AttemptsOnce(env, step, attempt, w, result);
      succeeded := result.success;
      if result.success {
        next := step.(status := Completed, result := Some(result.message));
      } else if attempt < step.maxRetries {
        next := RetryStep(step, result.message, env, parse);
      } else {
        next := step.(status := Failed, error := Some(result.message));
      }
    }

    /** `ExecutionEngine.run`. It returns the step log it sent for
        verification and the note it shows; the plan is updated in place. */
    method Run(plan: TaskPlan, ghost env: Env, parse: Parser) returns (log: seq<string>, note: Json)
      requires Drives(env, parse)
      modifies plan, tools, llm
      ensures var r := RunSpec(env, old(plan.originalRequest), old(plan.steps), old(Now()));
        && plan.steps == r.steps && plan.status == r.status && log == r.log && note == r.note
        && Now() == r.world
      ensures plan.taskId == old(plan.taskId) && plan.originalRequest == old(plan.originalRequest)
    {
      ghost var request, steps0, w0 := plan.originalRequest, plan.steps, Now();
      plan.status := InProgress;
      log := RunAll(plan, env, parse);
      ghost var p := RunSteps(env, steps0, w0);
      assert plan.steps == p.steps && log == p.log && Now() == p.world;
      var n := CountCompleted(plan.steps);
      plan.status := if n > 0 then Completed else Failed;
      StatusIsAggregate(plan.steps, n);
      note := Verify(plan.originalRequest, log, env, parse);
      RunSpecUnfold(env, request, steps0, w0);
    }

    /** The loop over the plan's steps (atlas.py:1487-1539): each step is
        run in order and replaced in the plan by its end state. */
    method RunAll(plan: TaskPlan, ghost env: Env, parse: Parser) returns (log: seq<string>)
      requires Drives(env, parse)
      modifies plan, tools, llm
      ensures var p := RunSteps(env, old(plan.steps), old(Now()));
        && plan.steps == p.steps && log == p.log && Now() == p.world
      ensures plan.taskId == old(plan.taskId) && plan.originalRequest == old(plan.originalRequest)
      ensures plan.status == old(plan.status)
    {
      ghost var steps0 := plan.steps;
      ghost var w0 := Now();
      log := [];
      var i := 0;
      while i < |plan.steps|
        invariant 0 <= i <= |plan.steps| == |steps0|
        invariant plan.taskId == old(plan.taskId) && plan.originalRequest == old(plan.originalRequest)
        invariant plan.status == old(plan.status)
        invariant plan.steps[i..] == steps0[i..]
        invariant RunSteps(env, steps0[..i], w0) == StepsOutcome(plan.steps[..i], Now(), log)
      {
        var step := RunOneStep(plan.steps[i], env, parse);
        RunStepsPrefix(env, steps0, w0, i);
        ReplaceNext(plan.steps, steps0, i, step);
        plan.steps := plan.steps[i := step];
        log := log + [LogLine(step)];
        i := i + 1;
      }
      assert steps0[..i] == steps0;
      assert plan.steps[..i] == plan.steps;
    }

    /** The verification request after the steps (atlas.py:1550-1552). */
    method Verify(request: Json, log: seq<string>, ghost env: Env, parse: Parser) returns (note: Json)
      requires Drives(env, parse)
      modifies llm
      ensures var t := env.verifyResult(old(llm.history), old(llm.sent), request, log);
        && Now() == World(t.history, old(llm.sent) + 1, tools.calls)
        && note == VerificationNote(env.extract(t.reply), t.reply)
    {
      var verRaw := llm.VerifyResult(request, log);
      var ver := ExtractJson(verRaw, parse);
      note := VerificationNote(ver, verRaw);
    }
  }
}
