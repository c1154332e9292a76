/**
 * JSON values as `json.loads` returns them (RFC 8259 values read into
 * Python objects), with the few Python operations the core applies to them:
 * truthiness, dictionary lookup, `str()` and `json.dumps`.
 * An object keeps its members in insertion order, as a Python dict does.
 */
module Json {
  import opened Options
  import opened Text

  datatype Json =
    | JNull
    | JBool(b: bool)
    | JNum(n: int)
    | JStr(s: string)
    | JArr(items: seq<Json>)
    | JObj(fields: seq<(string, Json)>)

  /** `json.loads` as the core uses it: a value, or `None` where it raises. */
  type Parser = string -> Option<Json>

  /** Python's `bool(v)`. */
  predicate Truthy(j: Json) {
    match j
    case JNull => false
    case JBool(b) => b
    case JNum(n) => n != 0
    case JStr(s) => s != []
    case JArr(xs) => xs != []
    case JObj(fs) => fs != []
  }

  predicate HasKey(fields: seq<(string, Json)>, key: string) {
    exists k :: 0 <= k < |fields| && fields[k].0 == key
  }

  /** `d[key]`: the value stored under `key`, `None` when there is none. */
  function Get(fields: seq<(string, Json)>, key: string): (r: Option<Json>)
    ensures r.Some? <==> HasKey(fields, key)
    ensures r.Some? ==> (key, r.value) in fields
  {
    if fields == [] then None
    else if fields[0].0 == key then Some(fields[0].1)
    else
      var r := Get(fields[1..], key);
      assert HasKey(fields, key) ==> fields[0].0 == key || HasKey(fields[1..], key) by {
        if HasKey(fields, key) {
          var k :| 0 <= k < |fields| && fields[k].0 == key;
          if k > 0 { assert fields[1..][k - 1].0 == key; }
        }
      }
      assert HasKey(fields[1..], key) ==> HasKey(fields, key) by {
        if HasKey(fields[1..], key) {
          var k :| 0 <= k < |fields[1..]| && fields[1..][k].0 == key;
          assert fields[k + 1].0 == key;
        }
      }
      r
  }

  /** `d.get(key, default)`. */
  function GetOr(fields: seq<(string, Json)>, key: string, default: Json): Json {
    match Get(fields, key)
    case Some(v) => v
    case None => default
  }

  /** `list(d.keys())`. */
  function Keys(fields: seq<(string, Json)>): (r: seq<string>)
    ensures |r| == |fields| && forall k :: 0 <= k < |fields| ==> r[k] == fields[k].0
  {
    seq(|fields|, k requires 0 <= k < |fields| => fields[k].0)
  }

  /** `list(d.values())`, in insertion order. */
  function Values(fields: seq<(string, Json)>): (r: seq<Json>)
    ensures |r| == |fields| && forall k :: 0 <= k < |fields| ==> r[k] == fields[k].1
  {
    seq(|fields|, k requires 0 <= k < |fields| => fields[k].1)
  }

  /** The name Python gives the type of the value, as in its error messages. */
  function TypeName(j: Json): string {
    match j
    case JNull => "NoneType"
    case JBool(_) => "bool"
    case JNum(_) => "int"
    case JStr(_) => "str"
    case JArr(_) => "list"
    case JObj(_) => "dict"
  }

  function HexDigit(d: nat): char
    requires d < 16
  {
    "0123456789abcdef"[d]
  }

  /** Python's `repr` of a string: single quotes unless the text holds a single
      quote and no double quote; backslash, the quote, tab, newline, carriage
      return and the other ASCII control characters escaped. */
  function ReprString(s: string): string {
    var q := if '\'' in s && '"' !in s then '"' else '\'';
    [q] + ReprChars(s, q) + [q]
  }

  function ReprChars(s: string, q: char): string {
    if s == [] then []
    else
      var c := s[0];
      var e :=
        if c == '\\' then "\\\\"
        else if c == q then ['\\', q]
        else if c == '\t' then "\\t"
        else if c == '\n' then "\\n"
        else if c == '\r' then "\\r"
        else if c < ' ' || c == '\U{7f}' then ['\\', 'x', HexDigit(c as nat / 16), HexDigit(c as nat % 16)]
        else [c];
      e + ReprChars(s[1..], q)
  }

  /** Python's `repr(v)` of the object `json.loads` built. */
  function Repr(j: Json): string
    decreases j
  {
    match j
    case JNull => "None"
    case JBool(b) => if b then "True" else "False"
    case JNum(n) => IntToString(n)
    case JStr(s) => ReprString(s)
    case JArr(xs) =>
      "[" + Join(", ", seq(|xs|, k requires 0 <= k < |xs| => Repr(xs[k]))) + "]"
    case JObj(fs) =>
      "{" + Join(", ", seq(|fs|, k requires 0 <= k < |fs| => ReprString(fs[k].0) + ": " + Repr(fs[k].1))) + "}"
  }

  /** Python's `str(v)`, which is what an f-string shows. */
  function PyStr(j: Json): string {
    if j.JStr? then j.s else Repr(j)
  }

  /** The escape `json.dumps(..., ensure_ascii=False)` writes for one character. */
  function EscapeChar(c: char): string {
    if c == '"' then "\\\""
    else if c == '\\' then "\\\\"
    else if c == '\n' then "\\n"
    else if c == '\r' then "\\r"
    else if c == '\t' then "\\t"
    else if c == '\U{8}' then "\\b"
    else if c == '\U{c}' then "\\f"
    else if c < ' ' then ['\\', 'u', '0', '0', HexDigit(c as nat / 16), HexDigit(c as nat % 16)]
    else [c]
  }

  function EscapeString(s: string): string {
    if s == [] then [] else EscapeChar(s[0]) + EscapeString(s[1..])
  }

  function Quote(s: string): (r: string)
    ensures |r| >= 2 && r[0] == '"' && r[|r| - 1] == '"'
  {
    "\"" + EscapeString(s) + "\""
  }

  /** `json.dumps(v, ensure_ascii=False)` with its default separators. */
  function Dumps(j: Json): (r: string)
    decreases j
  {
    match j
    case JNull => "null"
    case JBool(b) => if b then "true" else "false"
    case JNum(n) => IntToString(n)
    case JStr(s) => Quote(s)
    case JArr(xs) =>
      "[" + Join(", ", seq(|xs|, k requires 0 <= k < |xs| => Dumps(xs[k]))) + "]"
    case JObj(fs) =>
      "{" + Join(", ", seq(|fs|, k requires 0 <= k < |fs| => Quote(fs[k].0) + ": " + Dumps(fs[k].1))) + "}"
  }

  /** A serialised value neither starts nor ends with whitespace, and does not
      end with a backtick: embedded in a fence it is delimited exactly. */
  lemma DumpsEdges(j: Json)
    ensures Dumps(j) != []
    ensures !IsSpace(Dumps(j)[0])
    ensures !IsSpace(Dumps(j)[|Dumps(j)| - 1]) && Dumps(j)[|Dumps(j)| - 1] != '`'
  {
    match j
    case JNum(n) => NumberEdges(n);
    case JArr(xs) => ArrayEdges(xs);
    case JObj(fs) => ObjectEdges(fs);
    case JStr(x) =>
    case JNull =>
    case JBool(b) =>
  }

  lemma ArrayEdges(xs: seq<Json>)
    ensures var d := Dumps(JArr(xs)); d != [] && d[0] == '[' && d[|d| - 1] == ']'
  {
    WrapEdges('[', Join(", ", seq(|xs|, k requires 0 <= k < |xs| => Dumps(xs[k]))), ']');
  }

  lemma ObjectEdges(fs: seq<(string, Json)>)
    ensures var d := Dumps(JObj(fs)); d != [] && d[0] == '{' && d[|d| - 1] == '}'
  {
    WrapEdges('{', Join(", ", seq(|fs|, k requires 0 <= k < |fs| => Quote(fs[k].0) + ": " + Dumps(fs[k].1))), '}');
  }

  lemma NumberEdges(n: int)
    ensures var d := IntToString(n); d != [] && (d[0] == '-' || '0' <= d[0] <= '9') && '0' <= d[|d| - 1] <= '9'
  {
    var d := if n < 0 then NatToString(-n) else NatToString(n);
    assert '0' <= d[|d| - 1] <= '9' && '0' <= d[0] <= '9';
    if n < 0 {
      assert IntToString(n) == "-" + d;
    }
  }

  lemma WrapEdges(a: char, m: string, b: char)
    ensures var w := [a] + m + [b]; w[0] == a && w[|w| - 1] == b
  {
  }
}
