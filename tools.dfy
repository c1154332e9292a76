/**
 * `ToolResult` (atlas.py:233-237) and `ToolManager.execute`
 * (atlas.py:1360-1375): looking a tool up by name and calling it with the
 * plan's parameters, first by keyword, then positionally.
 *
 * A tool's body is outside this model: a tool is the names its signature
 * declares and a function from the call's arguments to what the call does.
 * The function also receives the number of calls made through the manager
 * before this one, so the same call may succeed on a later attempt.
 */
module Tools {
  import opened Options
  import opened Text
  import opened Json

  datatype ToolResult = ToolResult(success: bool, message: string, data: Json, filesCreated: seq<string>)

  /** `ToolResult(False, message)`. */
  function Failure(message: string): ToolResult {
    ToolResult(false, message, JNull, [])
  }

  /** The arguments of a call: `func(**kwargs)` or `func(*args)`. */
  datatype Binding = Keywords(args: seq<(string, Json)>) | Positional(values: seq<Json>)

  /** A `TypeError` (which includes a call whose arguments do not bind) is
      told apart from every other exception. */
  datatype ErrorKind = TypeError | OtherError

  datatype CallOutcome = Returned(result: ToolResult) | Raised(kind: ErrorKind, detail: string)

  datatype Tool = Tool(parameters: seq<string>, invoke: (Binding, nat) -> CallOutcome)

  type Registry = map<string, Tool>

  /** `{k: v for k, v in params.items() if k in sig.parameters}`. */
  function KeywordArgs(fields: seq<(string, Json)>, names: seq<string>): (r: seq<(string, Json)>)
    ensures |r| <= |fields|
    ensures forall p :: p in r <==> p in fields && p.0 in names
  {
    if fields == [] then []
    else (if fields[0].0 in names then [fields[0]] else []) + KeywordArgs(fields[1..], names)
  }

  /** When every given name is declared, the keyword call passes all of them, in order. */
  lemma {:induction false} KeywordArgsAllDeclared(fields: seq<(string, Json)>, names: seq<string>)
    requires forall k :: 0 <= k < |fields| ==> fields[k].0 in names
    ensures KeywordArgs(fields, names) == fields
  {
    if fields != [] {
      KeywordArgsAllDeclared(fields[1..], names);
      assert fields == [fields[0]] + fields[1..];
    }
  }

  /** The filter keeps the order of the parameters: it works item by item. */
  lemma {:induction false} KeywordArgsConcat(a: seq<(string, Json)>, b: seq<(string, Json)>, names: seq<string>)
    ensures KeywordArgs(a + b, names) == KeywordArgs(a, names) + KeywordArgs(b, names)
  {
    if a != [] {
      assert (a + b)[0] == a[0];
      assert (a + b)[1..] == a[1..] + b;
      KeywordArgsConcat(a[1..], b, names);
    } else {
      assert a + b == b;
    }
  }

  /** The first binding tried: the declared subset, or every parameter when
      none of them is declared. */
  function FirstBinding(tool: Tool, fields: seq<(string, Json)>): Binding {
    var valid := KeywordArgs(fields, tool.parameters);
    Keywords(if valid != [] then valid else fields)
  }

  /** The two tiers of atlas.py:1365-1375 for a known tool and dict parameters. */
  function Call(tool: Tool, name: string, fields: seq<(string, Json)>, clock: nat): ToolResult {
    match tool.invoke(FirstBinding(tool, fields), clock)
    case Returned(r) => r
    case Raised(OtherError, detail) => Failure(name + " failed: " + detail)
    case Raised(TypeError, _) =>
      match tool.invoke(Positional(Values(fields)), clock)
      case Returned(r) => r
      case Raised(_, detail) => Failure("Param error for " + name + ": " + detail)
  }

  /** `params.items()` on a value that is not a dict raises `AttributeError`,
      which the `except Exception` branch reports. */
  function NoItemsMessage(name: string, params: Json): string {
    name + " failed: '" + TypeName(params) + "' object has no attribute 'items'"
  }

  /** `ToolManager.execute` with `calls` earlier calls. A name that is not a
      string finds no tool (see `ExecuteAsWritten` for what the source does
      with a list or dict as the name). */
  function Dispatch(registry: Registry, toolName: Json, params: Json, clock: nat): (r: ToolResult)
    ensures r.success ==> toolName.JStr? && toolName.s in registry && params.JObj?
    ensures !(toolName.JStr? && toolName.s in registry && params.JObj?) ==> ManagerFailure(r, toolName)
  {
    match toolName
    case JStr(n) =>
      if n !in registry then Failure("Unknown tool: " + n)
      else if params.JObj? then Call(registry[n], n, params.fields, clock)
      else Failure(NoItemsMessage(n, params))
    case _ => Failure("Unknown tool: " + PyStr(toolName))
  }

  /** A result the manager writes itself rather than one a tool returned. */
  predicate ManagerFailure(r: ToolResult, toolName: Json) {
    && !r.success && r.data == JNull && r.filesCreated == []
    && (|| r.message == "Unknown tool: " + PyStr(toolName)
        || (toolName.JStr? && (
              || Prefix(toolName.s + " failed: ", r.message)
              || Prefix("Param error for " + toolName.s + ": ", r.message))))
  }

  predicate Prefix(p: string, s: string) {
    p <= s
  }

  /** A call of a known tool returns what the tool returned for one of the
      two bindings, or a failure naming the tool. */
  lemma CallOutcomes(tool: Tool, name: string, fields: seq<(string, Json)>, clock: nat)
    ensures var r := Call(tool, name, fields, clock);
      || (exists b :: tool.invoke(b, clock) == Returned(r))
      || (!r.success && r.data == JNull && r.filesCreated == []
          && (Prefix(name + " failed: ", r.message) || Prefix("Param error for " + name + ": ", r.message)))
  {
    var r := Call(tool, name, fields, clock);
    var b1 := FirstBinding(tool, fields);
    var b2 := Positional(Values(fields));
    match tool.invoke(b1, clock)
    case Returned(x) =>
      assert tool.invoke(b1, clock) == Returned(r);
    case Raised(OtherError, detail) =>
      assert r.message == (name + " failed: ") + detail;
    case Raised(TypeError, _) =>
      match tool.invoke(b2, clock)
      case Returned(x) =>
        assert tool.invoke(b2, clock) == Returned(r);
      case Raised(_, detail) =>
        assert r.message == ("Param error for " + name + ": ") + detail;
  }

  /** Every result of `execute` is either what the tool itself returned for
      one of the two bindings, or a failure the manager writes that names
      the tool; a success always comes from the tool. */
  lemma DispatchOutcome(registry: Registry, toolName: Json, params: Json, clock: nat)
    ensures var r := Dispatch(registry, toolName, params, clock);
      || ManagerFailure(r, toolName)
      || (toolName.JStr? && toolName.s in registry && params.JObj?
          && exists b :: registry[toolName.s].invoke(b, clock) == Returned(r))
  {
    if toolName.JStr? && toolName.s in registry && params.JObj? {
      CallOutcomes(registry[toolName.s], toolName.s, params.fields, clock);
    }
  }

  /** A success always comes from a tool the registry holds, called with dict parameters. */
  lemma SuccessComesFromTool(registry: Registry, toolName: Json, params: Json, clock: nat)
    requires Dispatch(registry, toolName, params, clock).success
    ensures toolName.JStr? && toolName.s in registry && params.JObj?
    ensures exists b :: registry[toolName.s].invoke(b, clock) == Returned(Dispatch(registry, toolName, params, clock))
  {
    DispatchOutcome(registry, toolName, params, clock);
  }

  /** A name the registry does not hold fails with "Unknown tool", whatever the parameters. */
  lemma UnknownToolFails(registry: Registry, name: string, params: Json, clock: nat)
    requires name !in registry
    ensures var r := Dispatch(registry, JStr(name), params, clock);
      !r.success && r.message == "Unknown tool: " + name
  {
  }

  /** A tool whose keyword call returns is called exactly once, with the declared subset. */
  lemma KeywordCallWins(registry: Registry, name: string, fields: seq<(string, Json)>, clock: nat)
    requires name in registry
    requires registry[name].invoke(FirstBinding(registry[name], fields), clock).Returned?
    ensures Dispatch(registry, JStr(name), JObj(fields), clock)
         == registry[name].invoke(FirstBinding(registry[name], fields), clock).result
  {
  }

  /** When the keyword call raises `TypeError`, the values are passed
      positionally, in the order the plan gave them. */
  lemma PositionalFallback(registry: Registry, name: string, fields: seq<(string, Json)>, clock: nat)
    requires name in registry
    requires registry[name].invoke(FirstBinding(registry[name], fields), clock).Raised?
    requires registry[name].invoke(FirstBinding(registry[name], fields), clock).kind == TypeError
    requires registry[name].invoke(Positional(Values(fields)), clock).Returned?
    ensures var r := Dispatch(registry, JStr(name), JObj(fields), clock);
      r == registry[name].invoke(Positional(Values(fields)), clock).result
  {
  }

  /** What atlas.py:1361 does before the `try`: `self.registry.get(tool_name)`
      hashes the name, so a list or dict as the name raises `TypeError` out
      of `execute` (None here). */
  function ExecuteAsWritten(registry: Registry, toolName: Json, params: Json, clock: nat): (r: Option<ToolResult>)
    ensures !toolName.JArr? && !toolName.JObj? ==> r == Some(Dispatch(registry, toolName, params, clock))
    ensures toolName.JArr? || toolName.JObj? ==> r.None?
  {
    if toolName.JArr? || toolName.JObj? then None
    else Some(Dispatch(registry, toolName, params, clock))
  }

  /** A plan step whose "tool" is a list makes `execute` raise, escaping
      the run; the corrected dispatch reports an unknown tool. */
  lemma ListToolNameRaises(registry: Registry, params: Json, clock: nat)
    ensures ExecuteAsWritten(registry, JArr([JStr("a")]), params, clock).None?
    ensures var r := Dispatch(registry, JArr([JStr("a")]), params, clock);
      !r.success && Prefix("Unknown tool: ", r.message)
  {
  }

  /** `ToolManager`. `calls` counts the calls made through it: the
      position of each call in the run, which a tool may depend on. */
  class ToolManager {
    const registry: Registry
    var calls: nat

    constructor(registry: Registry)
      ensures this.registry == registry && calls == 0
    {
      this.registry := registry;
      calls := 0;
    }

    method Execute(toolName: Json, params: Json) returns (r: ToolResult)
      modifies this
      ensures r == Dispatch(registry, toolName, params, old(calls))
      ensures calls == old(calls) + 1
    {
      r := Dispatch(registry, toolName, params, calls);
      calls := calls + 1;
    }
  }
}
