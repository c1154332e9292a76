/**
 * `ResponseParser` (atlas.py:1385-1457): recovering a JSON value from the
 * oracle's free text by five fallback stages, and turning a plan reply into
 * a `TaskPlan`. `json.loads` is the parameter `parse`; the two regular
 * expressions and the substitution of the later stages are written out with
 * Python's `re` semantics.
 */
module ResponseParser {
  import opened Options
  import opened Text
  import opened Json
  import opened Tasks

  const Fence: string := "```"
  const JsonFence: string := "```json"

  // ---------------------------------------------------------------------
  // Stages 2 and 3: fenced blocks
  // ---------------------------------------------------------------------

  /** Group 1 of `re.search(opener + r"\s*(.*?)\s*```", text, re.DOTALL)`,
      searching from `from`. At an opener the greedy `\s*` takes the whole
      whitespace run and the lazy group ends at the first fence after it,
      less the whitespace before that fence; an opener with no fence after
      it does not match and the search moves one character on. */
  function FenceBody(text: string, opener: string, from: nat): (r: Option<string>)
    requires opener != []
    ensures r.Some? ==> !Contains(r.value, Fence)
    ensures r.Some? && r.value != [] ==> !IsSpace(r.value[0]) && !IsSpace(r.value[|r.value| - 1])
    decreases |text| - from
  {
    match IndexOf(text, opener, from)
    case None => None
    case Some(i) =>
      match BodyAfterOpener(text, i + |opener|)
      case Some(body) => Some(body)
      case None => FenceBody(text, opener, i + 1)
  }

  /** The match attempt at an opener ending at `k`: the greedy `\s*`, then
      the lazy group up to the next fence. */
  function BodyAfterOpener(text: string, k: nat): (r: Option<string>)
    requires k <= |text|
    ensures r.Some? ==> !Contains(r.value, Fence)
    ensures r.Some? && r.value != [] ==> !IsSpace(r.value[0]) && !IsSpace(r.value[|r.value| - 1])
  {
    ClosedBody(text, SkipSpace(text, k))
  }

  /** The lazy group and the trailing `\s*` of the search, from `s0`: the text
      up to the first fence after it, less the whitespace before that fence. */
  function ClosedBody(text: string, s0: nat): (r: Option<string>)
    requires s0 <= |text|
    ensures r.Some? ==> !Contains(r.value, Fence)
    ensures r.Some? && s0 < |text| && !IsSpace(text[s0]) && r.value != [] ==> !IsSpace(r.value[0])
    ensures r.Some? && r.value != [] ==> !IsSpace(r.value[|r.value| - 1])
  {
    match IndexOf(text, Fence, s0)
    case Some(q) =>
      FirstFenceEndsBody(text, s0, q);
      Some(TrimEnd(text[s0..q]))
    case None => None
  }

  /** Text that ends before the first fence after `s0` holds no fence. */
  lemma FirstFenceEndsBody(text: string, s0: nat, q: nat)
    requires s0 <= q <= |text|
    requires forall j :: s0 <= j < q ==> !MatchAt(text, Fence, j)
    ensures !Contains(TrimEnd(text[s0..q]), Fence)
  {
    var b := TrimEnd(text[s0..q]);
    assert forall i :: 0 <= i < |b| ==> b[i] == text[s0 + i];
    if Contains(b, Fence) {
      var j := IndexOf(b, Fence, 0).value;
      assert text[s0 + j..s0 + j + 3] == b[j..j + 3];
      assert MatchAt(text, Fence, s0 + j);
      assert false;
    }
  }

  /** `q` is the first fence at or after `s0`. */
  ghost predicate FirstFence(text: string, s0: nat, q: nat) {
    s0 <= q && MatchAt(text, Fence, q) && forall j :: s0 <= j < q ==> !MatchAt(text, Fence, j)
  }

  /** No fence follows the opener at `i` and the whitespace after it. */
  predicate Unclosed(text: string, opener: string, i: nat)
    requires MatchAt(text, opener, i)
  {
    IndexOf(text, Fence, SkipSpace(text, i + |opener|)).None?
  }

  /** `body` is what the search captures at the opener at `i`: the text
      after the opener and the whitespace that follows it, up to the
      whitespace before the first fence at `q`. */
  ghost predicate CaptureAt(text: string, opener: string, i: nat, q: nat, body: string) {
    && MatchAt(text, opener, i)
    && FirstFence(text, SkipSpace(text, i + |opener|), q)
    && body == TrimEnd(text[SkipSpace(text, i + |opener|)..q])
  }

  /** The search fails exactly when no opener at or after `from` is followed
      by a fence. When it succeeds, the capture is the text after an opener
      and the whitespace after it, up to the whitespace before the first
      fence that follows, and every earlier opener is followed by no fence. */
  lemma {:induction false} FenceBodySpec(text: string, opener: string, from: nat)
    requires opener != []
    ensures FenceBody(text, opener, from).None? <==>
      forall i :: from <= i && MatchAt(text, opener, i) ==> Unclosed(text, opener, i)
    ensures FenceBody(text, opener, from).Some? ==>
      exists i: nat, q: nat :: && from <= i && CaptureAt(text, opener, i, q, FenceBody(text, opener, from).value)
                               && forall j :: from <= j < i && MatchAt(text, opener, j) ==> Unclosed(text, opener, j)
    decreases |text| - from
  {
    match IndexOf(text, opener, from)
    case None =>
    case Some(i) =>
      if Unclosed(text, opener, i) {
        FenceBodySkip(text, opener, from, i);
        FenceBodySpec(text, opener, i + 1);
        var r := FenceBody(text, opener, from);
        if r.Some? {
          var i1: nat, q1: nat :| && i + 1 <= i1 && CaptureAt(text, opener, i1, q1, r.value)
                                  && forall j :: i + 1 <= j < i1 && MatchAt(text, opener, j) ==> Unclosed(text, opener, j);
          assert from <= i1 && CaptureAt(text, opener, i1, q1, r.value);
        }
      } else {
        FenceBodyFound(text, opener, from, i);
      }
  }

  /** At the first opener with no fence after it, the search moves on. */
  lemma FenceBodySkip(text: string, opener: string, from: nat, i: nat)
    requires opener != [] && IndexOf(text, opener, from) == Some(i) && Unclosed(text, opener, i)
    ensures FenceBody(text, opener, from) == FenceBody(text, opener, i + 1)
    ensures forall j :: from <= j <= i && MatchAt(text, opener, j) ==> Unclosed(text, opener, j)
  {
    assert BodyAfterOpener(text, i + |opener|) == ClosedBody(text, SkipSpace(text, i + |opener|));
    forall j | from <= j <= i && MatchAt(text, opener, j) ensures Unclosed(text, opener, j) {
      assert j == i;
    }
  }

  /** At the first opener with a fence after it, the search captures there. */
  lemma FenceBodyFound(text: string, opener: string, from: nat, i: nat)
    requires opener != [] && IndexOf(text, opener, from) == Some(i) && !Unclosed(text, opener, i)
    ensures FenceBody(text, opener, from).Some?
    ensures CaptureAt(text, opener, i, IndexOf(text, Fence, SkipSpace(text, i + |opener|)).value,
                      FenceBody(text, opener, from).value)
    ensures forall j :: from <= j < i ==> !MatchAt(text, opener, j)
  {
    assert FenceBody(text, opener, from) == BodyAfterOpener(text, i + |opener|);
    CaptureOfClosed(text, opener, i);
  }

  /** The capture at an opener that a fence follows. */
  lemma CaptureOfClosed(text: string, opener: string, i: nat)
    requires MatchAt(text, opener, i) && !Unclosed(text, opener, i)
    ensures BodyAfterOpener(text, i + |opener|).Some?
    ensures CaptureAt(text, opener, i, IndexOf(text, Fence, SkipSpace(text, i + |opener|)).value,
                      BodyAfterOpener(text, i + |opener|).value)
  {
    var s0 := SkipSpace(text, i + |opener|);
    var q := IndexOf(text, Fence, s0).value;
    assert ClosedBody(text, s0) == Some(TrimEnd(text[s0..q]));
    assert FirstFence(text, s0, q);
  }

  /** `json.loads(m.group(1))` when the search matched. */
  function FencedParse(text: string, opener: string, parse: Parser): Option<Json>
    requires opener != []
  {
    match FenceBody(text, opener, 0)
    case None => None
    case Some(body) => parse(body)
  }

  // ---------------------------------------------------------------------
  // Stage 4: balanced braces
  // ---------------------------------------------------------------------

  function Delta(c: char): int {
    if c == '{' then 1 else if c == '}' then -1 else 0
  }

  /** The scanner's `depth` after reading `s`: opening minus closing braces. */
  function Depth(s: string): int {
    if s == [] then 0 else Depth(s[..|s| - 1]) + Delta(s[|s| - 1])
  }

  /** `text[s..e]` is a brace span opened at depth 0 that closes back to depth 0
      at `e` and stays above depth 0 in between: the spans the scan tries. */
  ghost predicate IsCandidate(text: string, s: int, e: int) {
    && 0 <= s < e < |text|
    && text[s] == '{' && text[e] == '}'
    && Depth(text[..s]) == 0
    && Depth(text[..e + 1]) == 0
    && forall k :: s < k <= e ==> Depth(text[..k]) > 0
  }

  /** The candidate closing at `e` parses, and every candidate closing earlier does not. */
  ghost predicate FirstParsedCandidate(text: string, parse: Parser, s: int, e: int) {
    && IsCandidate(text, s, e)
    && parse(text[s..e + 1]).Some?
    && forall s', e' :: IsCandidate(text, s', e') && e' < e ==> parse(text[s'..e' + 1]).None?
  }

  /** The brace scan from position `i` with the scanner's `depth` and `start`. */
  function ScanFrom(text: string, parse: Parser, i: nat, depth: int, start: int): Option<Json>
    requires i <= |text| && -1 <= start < i
    decreases |text| - i
  {
    if i == |text| then None
    else if text[i] == '{' then
      ScanFrom(text, parse, i + 1, depth + 1, if depth == 0 then i else start)
    else if text[i] == '}' then
      if depth - 1 == 0 && start >= 0 then
        match parse(text[start..i + 1])
        case Some(j) => Some(j)
        case None => ScanFrom(text, parse, i + 1, 0, -1)
      else ScanFrom(text, parse, i + 1, depth - 1, start)
    else ScanFrom(text, parse, i + 1, depth, start)
  }

  function BraceScan(text: string, parse: Parser): Option<Json> {
    ScanFrom(text, parse, 0, 0, -1)
  }

  lemma DepthStep(text: string, i: nat)
    requires i < |text|
    ensures Depth(text[..i + 1]) == Depth(text[..i]) + Delta(text[i])
  {
    assert text[..i + 1][..i] == text[..i];
  }

  /** The scan's state after `i` characters, when every candidate closing
      before `i` failed to parse. */
  ghost predicate ScanState(text: string, parse: Parser, i: nat, depth: int, start: int) {
    && i <= |text| && -1 <= start < i
    && depth == Depth(text[..i])
    && (start >= 0 <==> depth > 0)
    && (start >= 0 ==>
          text[start] == '{' && Depth(text[..start]) == 0
          && forall k :: start < k <= i ==> Depth(text[..k]) > 0)
    && forall s, e :: IsCandidate(text, s, e) && e < i ==> parse(text[s..e + 1]).None?
  }

  /** At a closing brace the only candidate that can end there is the one
      opened at `start`. */
  lemma OnlyCandidateAt(text: string, parse: Parser, i: nat, depth: int, start: int, s: int)
    requires ScanState(text, parse, i, depth, start) && i < |text|
    requires IsCandidate(text, s, i)
    ensures text[i] == '}' && depth == 1 && start == s
  {
    DepthStep(text, i);
    assert Depth(text[..i]) > 0;
  }

  /** Reading an opening brace keeps the scan's state. */
  lemma OpenStep(text: string, parse: Parser, i: nat, depth: int, start: int)
    requires ScanState(text, parse, i, depth, start) && i < |text| && text[i] == '{'
    ensures ScanState(text, parse, i + 1, depth + 1, if depth == 0 then i else start)
  {
    DepthStep(text, i);
    forall s, e | IsCandidate(text, s, e) && e < i + 1 ensures parse(text[s..e + 1]).None? {
      if e == i { OnlyCandidateAt(text, parse, i, depth, start, s); }
    }
  }

  /** Reading a brace that closes a span makes that span a candidate. */
  lemma CloseIsCandidate(text: string, parse: Parser, i: nat, depth: int, start: int)
    requires ScanState(text, parse, i, depth, start) && i < |text|
    requires text[i] == '}' && depth - 1 == 0 && start >= 0
    ensures IsCandidate(text, start, i)
  {
    DepthStep(text, i);
  }

  /** A closing span that does not parse is skipped and the scan starts afresh. */
  lemma CloseFailStep(text: string, parse: Parser, i: nat, depth: int, start: int)
    requires ScanState(text, parse, i, depth, start) && i < |text|
    requires text[i] == '}' && depth - 1 == 0 && start >= 0
    requires parse(text[start..i + 1]).None?
    ensures ScanState(text, parse, i + 1, 0, -1)
  {
    DepthStep(text, i);
    forall s, e | IsCandidate(text, s, e) && e < i + 1 ensures parse(text[s..e + 1]).None? {
      if e == i { OnlyCandidateAt(text, parse, i, depth, start, s); }
    }
  }

  /** Any other character keeps the scan's state. */
  lemma PlainStep(text: string, parse: Parser, i: nat, depth: int, start: int)
    requires ScanState(text, parse, i, depth, start) && i < |text| && text[i] != '{'
    requires !(text[i] == '}' && depth - 1 == 0 && start >= 0)
    ensures ScanState(text, parse, i + 1, if text[i] == '}' then depth - 1 else depth, start)
  {
    DepthStep(text, i);
    forall s, e | IsCandidate(text, s, e) && e < i + 1 ensures parse(text[s..e + 1]).None? {
      if e == i { OnlyCandidateAt(text, parse, i, depth, start, s); }
    }
  }

  /** The brace scan returns the first candidate span that parses, and
      nothing when none does. */
  lemma {:induction false} ScanFromSpec(text: string, parse: Parser, i: nat, depth: int, start: int)
    requires ScanState(text, parse, i, depth, start)
    ensures var r := ScanFrom(text, parse, i, depth, start);
      && (r.Some? ==> exists s, e :: FirstParsedCandidate(text, parse, s, e) && r == parse(text[s..e + 1]))
      && (r.None? ==> forall s, e :: IsCandidate(text, s, e) ==> parse(text[s..e + 1]).None?)
    decreases |text| - i
  {
    if i == |text| {
      forall s, e | IsCandidate(text, s, e) ensures parse(text[s..e + 1]).None? {
      }
    } else if text[i] == '{' {
      OpenStep(text, parse, i, depth, start);
      ScanFromSpec(text, parse, i + 1, depth + 1, if depth == 0 then i else start);
    } else if text[i] == '}' && depth - 1 == 0 && start >= 0 {
      CloseIsCandidate(text, parse, i, depth, start);
      if parse(text[start..i + 1]).Some? {
        assert FirstParsedCandidate(text, parse, start, i);
      } else {
        CloseFailStep(text, parse, i, depth, start);
        ScanFromSpec(text, parse, i + 1, 0, -1);
      }
    } else {
      PlainStep(text, parse, i, depth, start);
      ScanFromSpec(text, parse, i + 1, if text[i] == '}' then depth - 1 else depth, start);
    }
  }

  /** Stage 4 as a whole: the first `{...}` span opened and closed at depth 0
      that parses; spans that fail to parse are skipped. */
  lemma BraceScanSpec(text: string, parse: Parser)
    ensures BraceScan(text, parse).Some? ==>
      exists s, e :: FirstParsedCandidate(text, parse, s, e) && BraceScan(text, parse) == parse(text[s..e + 1])
    ensures BraceScan(text, parse).None? <==>
      forall s, e :: IsCandidate(text, s, e) ==> parse(text[s..e + 1]).None?
  {
    ScanFromSpec(text, parse, 0, 0, -1);
  }

  // ---------------------------------------------------------------------
  // Stage 5: cleanup
  // ---------------------------------------------------------------------

  /** `re.sub(r",\s*([\]}])", r"\1", s)`: a comma, the whitespace after it,
      and a closing bracket become the bracket; scanning resumes after it. */
  function DropCommas(s: string): (r: string)
    ensures |r| <= |s|
    decreases |s|
  {
    if s == [] then []
    else if s[0] == ',' then
      var k := SkipSpace(s, 1);
      if k < |s| && (s[k] == ']' || s[k] == '}') then [s[k]] + DropCommas(s[k + 1..])
      else [s[0]] + DropCommas(s[1..])
    else [s[0]] + DropCommas(s[1..])
  }

  /** The characters that are neither commas nor whitespace. */
  function Significant(s: string): string {
    if s == [] then []
    else (if s[0] == ',' || IsSpace(s[0]) then [] else [s[0]]) + Significant(s[1..])
  }

  lemma {:induction false} SignificantSkips(s: string, k: nat)
    requires 1 <= k <= |s| && s[0] == ',' && AllSpace(s[1..k])
    ensures Significant(s) == Significant(s[k..])
    decreases k
  {
    if k > 1 {
      var t := [','] + s[2..];
      assert t[1..k - 1] == s[2..k];
      SignificantSkips(t, k - 1);
      assert t[k - 1..] == s[k..];
      assert Significant(s) == Significant(s[1..]);
      assert IsSpace(s[1..][0]) && s[1..][1..] == s[2..];
      assert Significant(s[1..]) == Significant(s[2..]);
      assert t[0] == ',' && t[1..] == s[2..];
      assert Significant(t) == Significant(s[2..]);
    }
  }

  /** The cleanup removes only commas and whitespace: everything else is kept, in order. */
  lemma {:induction false} DropCommasKeepsSignificant(s: string)
    ensures Significant(DropCommas(s)) == Significant(s)
    decreases |s|
  {
    if s != [] {
      if s[0] == ',' {
        var k := SkipSpace(s, 1);
        if k < |s| && (s[k] == ']' || s[k] == '}') {
          DropCommasKeepsSignificant(s[k + 1..]);
          SignificantSkips(s, k);
          assert s[k..] == [s[k]] + s[k + 1..];
        } else {
          DropCommasKeepsSignificant(s[1..]);
        }
      } else {
        DropCommasKeepsSignificant(s[1..]);
      }
    }
  }

  /** Text without commas passes the substitution unchanged. */
  lemma {:induction false} DropCommasNoComma(s: string)
    requires ',' !in s
    ensures DropCommas(s) == s
    decreases |s|
  {
    if s != [] {
      assert s == [s[0]] + s[1..];
      DropCommasNoComma(s[1..]);
    }
  }

  /** A comma, the whitespace after it and a closing bracket become the
      bracket alone, and the rest of the text is cleaned after it. */
  lemma DropCommasTrailing(ws: string, c: char, t: string)
    requires AllSpace(ws) && (c == ']' || c == '}')
    ensures DropCommas([','] + ws + [c] + t) == [c] + DropCommas(t)
  {
    var s := [','] + ws + [c] + t;
    var k := 1 + |ws|;
    assert s[1..k] == ws && s[k] == c;
    SkipSpaceTo(s, 1, k);
    assert s[k + 1..] == t;
  }

  /** Making every `'` a `"` does not touch commas or whitespace. */
  lemma {:induction false} SignificantReplace(s: string)
    ensures Significant(ReplaceChar(s, '\'', '"')) == ReplaceChar(Significant(s), '\'', '"')
    decreases |s|
  {
    if s != [] {
      SignificantReplace(s[1..]);
      var r := ReplaceChar(s, '\'', '"');
      assert r[1..] == ReplaceChar(s[1..], '\'', '"');
      var head := if s[0] == ',' || IsSpace(s[0]) then [] else [s[0]];
      assert Significant(s) == head + Significant(s[1..]);
      assert ReplaceChar(head + Significant(s[1..]), '\'', '"')
          == ReplaceChar(head, '\'', '"') + ReplaceChar(Significant(s[1..]), '\'', '"');
    }
  }

  /** Stage 5's text: trailing commas dropped, then every `'` made a `"`.
      Apart from commas and whitespace, the cleaned text is the original with
      each `'` turned into `"`. */
  function Cleanup(text: string): (r: string)
    ensures '\'' !in r && |r| <= |text|
    ensures Significant(r) == ReplaceChar(Significant(text), '\'', '"')
  {
    DropCommasKeepsSignificant(text);
    SignificantReplace(DropCommas(text));
    ReplaceChar(DropCommas(text), '\'', '"')
  }

  // ---------------------------------------------------------------------
  // extract_json
  // ---------------------------------------------------------------------

  /** The value of the first stage that parses, in the order of atlas.py:1390-1437. */
  function Extract(text: string, parse: Parser): Option<Json> {
    if parse(text).Some? then parse(text)
    else if FencedParse(text, JsonFence, parse).Some? then FencedParse(text, JsonFence, parse)
    else if FencedParse(text, Fence, parse).Some? then FencedParse(text, Fence, parse)
    else if BraceScan(text, parse).Some? then BraceScan(text, parse)
    else parse(Cleanup(text))
  }

  /** `ResponseParser.extract_json`: the brace stage is the scanning loop of the source. */
  method ExtractJson(text: string, parse: Parser) returns (r: Option<Json>)
    ensures r == Extract(text, parse)
  {
    r := parse(text);
    if r.Some? { return; }
    r := FencedParse(text, JsonFence, parse);
    if r.Some? { return; }
    r := FencedParse(text, Fence, parse);
    if r.Some? { return; }

    var depth := 0;
    var start := -1;
    var i := 0;
    while i < |text|
      invariant 0 <= i <= |text| && -1 <= start < i
      invariant ScanFrom(text, parse, i, depth, start) == BraceScan(text, parse)
    {
      var ch := text[i];
      if ch == '{' {
        if depth == 0 {
          start := i;
        }
        depth := depth + 1;
      } else if ch == '}' {
        depth := depth - 1;
        if depth == 0 && start >= 0 {
          r := parse(text[start..i + 1]);
          if r.Some? { return; }
          start := -1;
        }
      }
      i := i + 1;
    }

    r := parse(Cleanup(text));
  }

  /** When the first three stages fail, the result is the first brace
      candidate that parses, or else the cleaned-up text's parse. */
  lemma ExtractFallsToBraces(text: string, parse: Parser)
    requires parse(text).None?
    requires FencedParse(text, JsonFence, parse).None? && FencedParse(text, Fence, parse).None?
    ensures (exists s, e :: IsCandidate(text, s, e) && parse(text[s..e + 1]).Some?) ==>
      exists s, e :: FirstParsedCandidate(text, parse, s, e) && Extract(text, parse) == parse(text[s..e + 1])
    ensures (forall s, e :: IsCandidate(text, s, e) ==> parse(text[s..e + 1]).None?) ==>
      Extract(text, parse) == parse(Cleanup(text))
  {
    BraceScanSpec(text, parse);
  }

  // ---------------------------------------------------------------------
  // Worked cases of extract_json
  // ---------------------------------------------------------------------

  predicate BraceFree(s: string) {
    '{' !in s && '}' !in s
  }

  /** Characters other than braces leave the scanner's state alone. */
  lemma {:induction false} ScanSkipsPlain(text: string, parse: Parser, i: nat, k: nat, depth: int, start: int)
    requires i <= k <= |text| && -1 <= start < i
    requires forall j :: i <= j < k ==> text[j] != '{' && text[j] != '}'
    ensures ScanFrom(text, parse, i, depth, start) == ScanFrom(text, parse, k, depth, start)
    decreases k - i
  {
    if i < k {
      ScanSkipsPlain(text, parse, i + 1, k, depth, start);
    }
  }

  /** The text between an object's outer braces: its braces balance and no
      prefix closes more than it opened, so nested objects are allowed. */
  predicate BalancedBody(x: string) {
    Depth(x) == 0 && forall k :: 0 <= k <= |x| ==> Depth(x[..k]) >= 0
  }

  lemma {:induction false} DepthConcat(a: string, b: string)
    ensures Depth(a + b) == Depth(a) + Depth(b)
    decreases |b|
  {
    if b == [] {
      assert a + b == a;
    } else {
      assert (a + b)[..|a + b| - 1] == a + b[..|b| - 1];
      DepthConcat(a, b[..|b| - 1]);
    }
  }

  /** One character inside an open span that does not close it. */
  lemma ScanInsideStep(text: string, parse: Parser, i: nat, depth: int, start: int)
    requires i < |text| && 0 <= start < i && depth > 0 && depth + Delta(text[i]) > 0
    ensures ScanFrom(text, parse, i, depth, start) == ScanFrom(text, parse, i + 1, depth + Delta(text[i]), start)
  {
  }

  lemma DepthFront(text: string, i: nat, j: nat)
    requires i < j <= |text|
    ensures Depth(text[i..j]) == Delta(text[i]) + Depth(text[i + 1..j])
  {
    assert text[i..j] == [text[i]] + text[i + 1..j];
    DepthConcat([text[i]], text[i + 1..j]);
    assert [text[i]] == [] + [text[i]];
  }

  /** Inside an open span whose depth stays above zero, the scan only counts
      braces: it neither tries a span nor moves its start. */
  lemma {:induction false} ScanInside(text: string, parse: Parser, i: nat, k: nat, depth: int, start: int)
    requires i <= k <= |text| && 0 <= start < i && depth > 0
    requires forall j :: i < j <= k ==> depth + Depth(text[i..j]) > 0
    ensures ScanFrom(text, parse, i, depth, start) == ScanFrom(text, parse, k, depth + Depth(text[i..k]), start)
    decreases k - i
  {
    if i == k {
      assert text[i..k] == [];
    } else {
      var i1 := i + 1;
      var d := depth + Delta(text[i]);
      DepthFront(text, i, i1);
      assert text[i1..i1] == [];
      ScanInsideStep(text, parse, i, depth, start);
      forall j | i1 < j <= k ensures d + Depth(text[i1..j]) > 0 {
        DepthFront(text, i, j);
      }
      ScanInside(text, parse, i1, k, d, start);
      DepthFront(text, i, k);
    }
  }

  /** Scanning the balanced body of the object opened at `start` brings the
      scan to the object's closing brace at depth one. */
  lemma ScanBody(text: string, parse: Parser, i: nat, x: string, start: int)
    requires i + |x| <= |text| && 0 <= start < i
    requires text[i..i + |x|] == x && BalancedBody(x)
    ensures ScanFrom(text, parse, i, 1, start) == ScanFrom(text, parse, i + |x|, 1, start)
  {
    forall j | i < j <= i + |x| ensures 1 + Depth(text[i..j]) > 0 {
      assert text[i..j] == x[..j - i];
    }
    ScanInside(text, parse, i, i + |x|, 1, start);
  }

  /** Of two sibling objects where the first does not parse, the scan returns
      the second; both may hold nested objects. */
  lemma SkipsUnparsableSibling(x: string, sep: string, y: string, parse: Parser)
    requires BalancedBody(x) && BraceFree(sep) && BalancedBody(y)
    requires parse("{" + x + "}").None? && parse("{" + y + "}").Some?
    ensures BraceScan("{" + x + "}" + sep + "{" + y + "}", parse) == parse("{" + y + "}")
  {
    var t := "{" + x + "}" + sep + "{" + y + "}";
    var a := |x| + 2;
    var b := a + |sep|;
    SiblingLayout(x, sep, y);
    ScanOpens(t, parse, 0);
    ScanBody(t, parse, 1, x, 0);
    ScanCloses(t, parse, a - 1, 0);
    ScanSkipsPlain(t, parse, a, b, 0, -1);
    ScanOpens(t, parse, b);
    ScanBody(t, parse, b + 1, y, b);
    ScanCloses(t, parse, |t| - 1, b);
  }

  /** A `{` read at depth zero opens a span there. */
  lemma ScanOpens(text: string, parse: Parser, i: nat)
    requires i < |text| && text[i] == '{'
    ensures ScanFrom(text, parse, i, 0, -1) == ScanFrom(text, parse, i + 1, 1, i)
  {
  }

  /** A `}` read at depth one tries the span from `start`. */
  lemma ScanCloses(text: string, parse: Parser, i: nat, start: nat)
    requires start < i < |text| && text[i] == '}'
    ensures ScanFrom(text, parse, i, 1, start) ==
      match parse(text[start..i + 1])
      case Some(j) => Some(j)
      case None => ScanFrom(text, parse, i + 1, 0, -1)
  {
  }

  /** Where the pieces of two sibling objects sit in their concatenation. */
  lemma SiblingLayout(x: string, sep: string, y: string)
    ensures var t := "{" + x + "}" + sep + "{" + y + "}";
      var a := |x| + 2;
      var b := a + |sep|;
      && |t| == b + |y| + 2
      && t[0] == '{' && t[a - 1] == '}' && t[b] == '{' && t[|t| - 1] == '}'
      && t[1..a - 1] == x && t[0..a] == "{" + x + "}"
      && (forall j :: a <= j < b ==> t[j] == sep[j - a])
      && t[b + 1..|t| - 1] == y && t[b..|t|] == "{" + y + "}"
  {
    var t := "{" + x + "}" + sep + "{" + y + "}";
    var a := |x| + 2;
    var b := a + |sep|;
    assert t[1..a - 1] == x;
    assert t[0..a] == "{" + x + "}";
    assert t[b + 1..|t| - 1] == y;
    assert t[b..|t|] == "{" + y + "}";
  }

  /** The quirk of atlas.py:1414-1427: a stray `}` before an object takes the
      depth below zero, so the object's `{` no longer opens a span. */
  lemma StrayCloserHidesObject(x: string, parse: Parser)
    requires BraceFree(x)
    ensures BraceScan("{" + x + "}", parse) == parse("{" + x + "}")
    ensures BraceScan("}" + "{" + x + "}", parse) == None
  {
    var t := "{" + x + "}";
    assert forall j :: 1 <= j < |t| - 1 ==> t[j] == x[j - 1];
    ScanSkipsPlain(t, parse, 1, |t| - 1, 1, 0);
    assert t[0..|t|] == t;
    var u := "}" + "{" + x + "}";
    assert u[0] == '}' && u[1] == '{' && u[|u| - 1] == '}';
    assert forall j :: 2 <= j < |u| - 1 ==> u[j] == x[j - 2];
    assert ScanFrom(u, parse, 0, 0, -1) == ScanFrom(u, parse, 1, -1, -1);
    assert ScanFrom(u, parse, 1, -1, -1) == ScanFrom(u, parse, 2, 0, -1);
    ScanSkipsPlain(u, parse, 2, |u| - 1, 0, -1);
    assert ScanFrom(u, parse, |u| - 1, 0, -1) == ScanFrom(u, parse, |u|, -1, -1);
  }

  lemma FirstMatch(s: string, pat: string, from: nat, q: nat)
    requires from <= q && MatchAt(s, pat, q)
    requires forall j :: from <= j < q ==> !MatchAt(s, pat, j)
    ensures IndexOf(s, pat, from) == Some(q)
  {
  }

  /** A text without backticks has no fenced block. */
  lemma NoBacktickNoFence(text: string, opener: string)
    requires opener != [] && opener[0] == '`' && '`' !in text
    ensures FenceBody(text, opener, 0) == None
  {
  }

  /** After prose without backticks, the first opener is the one that follows it. */
  lemma OpenerAfterProse(text: string, p: nat, opener: string)
    requires p <= |text| && '`' !in text[..p]
    requires opener != [] && opener[0] == '`' && MatchAt(text, opener, p)
    ensures IndexOf(text, opener, 0) == Some(p)
  {
    forall k | 0 <= k < p ensures !MatchAt(text, opener, k) {
      assert text[k] == text[..p][k];
    }
    FirstMatch(text, opener, 0, p);
  }

  /** A body without a fence, then a newline and a fence: the first fence
      after the body's start is that one. */
  lemma ClosingFenceAfterBody(text: string, s0: nat, q: nat, d: string)
    requires q == s0 + |d| + 1 && q + 3 <= |text|
    requires text[s0..q - 1] == d && text[q - 1] == '\n'
    requires text[q..q + 3] == Fence
    requires !Contains(d, Fence)
    ensures IndexOf(text, Fence, s0) == Some(q)
  {
    assert forall i :: 0 <= i < |d| ==> d[i] == text[s0 + i];
    forall k | s0 <= k < q ensures !MatchAt(text, Fence, k) {
      if k + 3 <= q - 1 {
        if MatchAt(text, Fence, k) {
          assert d[k - s0..k - s0 + 3] == text[k..k + 3];
          ContainsIff(d, Fence);
          assert MatchAt(d, Fence, k - s0);
        }
      } else if k + 3 <= |text| {
        assert text[k..k + 3][q - 1 - k] == text[q - 1];
      }
    }
    FirstMatch(text, Fence, s0, q);
  }

  /** The match of the fenced-block search once its three positions are known. */
  lemma FenceBodyAt(text: string, opener: string, from: nat, i: nat, body: string)
    requires opener != [] && i + |opener| <= |text|
    requires IndexOf(text, opener, from) == Some(i)
    requires BodyAfterOpener(text, i + |opener|) == Some(body)
    ensures FenceBody(text, opener, from) == Some(body)
  {
  }

  lemma ClosedBodyAt(text: string, s0: nat, q: nat, body: string)
    requires s0 <= q <= |text|
    requires IndexOf(text, Fence, s0) == Some(q)
    requires TrimEnd(text[s0..q]) == body
    ensures ClosedBody(text, s0) == Some(body)
  {
  }

  /** The positions of a reply made of prose, an opener, a newline, a body,
      a newline and a closing fence. */
  lemma FencedLayout(pre: string, d: string, post: string, text: string)
    requires text == pre + JsonFence + "\n" + d + "\n" + Fence + post
    ensures JsonFence <= text[|pre|..]
    ensures text[..|pre|] == pre
    ensures text[|pre| + 7] == '\n'
    ensures text[|pre| + 8..|pre| + 8 + |d|] == d
    ensures text[|pre| + 8 + |d|] == '\n'
    ensures text[|pre| + 9 + |d|..|pre| + 12 + |d|] == Fence
    ensures MatchAt(text, JsonFence, |pre|)
  {
  }

  /** One newline before a non-space character is skipped. */
  lemma SkipOneNewline(text: string, i: nat)
    requires i + 1 < |text| && text[i] == '\n' && !IsSpace(text[i + 1])
    ensures SkipSpace(text, i) == i + 1
  {
  }

  /** A trimmed body followed by one newline trims back to the body. */
  lemma TrimNewline(text: string, s0: nat, q: nat, d: string)
    requires q == s0 + |d| + 1 && q <= |text|
    requires text[s0..q - 1] == d && text[q - 1] == '\n'
    requires d != [] && !IsSpace(d[|d| - 1])
    ensures TrimEnd(text[s0..q]) == d
  {
    assert text[s0..q] == d + "\n";
    assert (d + "\n")[..|d|] == d;
  }

  /** The fenced-block search on a reply laid out as prose without
      backticks, "```json", a newline, a trimmed body without a fence, a
      newline and a fence. */
  lemma FenceBodyOfLayout(text: string, p: nat, s0: nat, q: nat, d: string)
    requires s0 == p + 8 && q == s0 + |d| + 1 && q + 3 <= |text|
    requires '`' !in text[..p] && MatchAt(text, JsonFence, p) && text[s0 - 1] == '\n'
    requires text[s0..q - 1] == d && text[q - 1] == '\n'
    requires text[q..q + 3] == Fence
    requires d != [] && !IsSpace(d[0]) && !IsSpace(d[|d| - 1])
    requires !Contains(d, Fence)
    ensures FenceBody(text, JsonFence, 0) == Some(d)
  {
    OpenerAfterProse(text, p, JsonFence);
    assert text[s0] == text[s0..q - 1][0];
    SkipOneNewline(text, s0 - 1);
    assert BodyAfterOpener(text, s0 - 1) == ClosedBody(text, s0);
    ClosingFenceAfterBody(text, s0, q, d);
    TrimNewline(text, s0, q, d);
    ClosedBodyAt(text, s0, q, d);
    FenceBodyAt(text, JsonFence, 0, p, d);
  }

  /** A trimmed body without a fence inside, fenced with "```json" after
      prose without backticks, is captured exactly. */
  lemma FenceBodyOfBlock(pre: string, d: string, post: string)
    requires '`' !in pre
    requires d != [] && !IsSpace(d[0]) && !IsSpace(d[|d| - 1])
    requires !Contains(d, Fence)
    ensures FenceBody(pre + JsonFence + "\n" + d + "\n" + Fence + post, JsonFence, 0) == Some(d)
  {
    var text := pre + JsonFence + "\n" + d + "\n" + Fence + post;
    FencedLayout(pre, d, post, text);
    FenceBodyOfLayout(text, |pre|, |pre| + 8, |pre| + 9 + |d|, d);
  }

  /** A value serialised by `json.dumps` and put in a block fenced with
      "```json", after prose without backticks, comes back unchanged, given
      that the whole reply does not parse and the serialisation parses back. */
  lemma FencedJsonRoundTrip(pre: string, j: Json, post: string, parse: Parser)
    requires '`' !in pre
    requires !Contains(Dumps(j), Fence)
    requires parse(Dumps(j)) == Some(j)
    requires parse(pre + JsonFence + "\n" + Dumps(j) + "\n" + Fence + post).None?
    ensures Extract(pre + JsonFence + "\n" + Dumps(j) + "\n" + Fence + post, parse) == Some(j)
  {
    DumpsEdges(j);
    FenceBodyOfBlock(pre, Dumps(j), post);
  }

  // ---------------------------------------------------------------------
  // parse_plan
  // ---------------------------------------------------------------------

  /** The plan object and the dicts its "steps" list holds. */
  datatype PlanData = PlanData(fields: seq<(string, Json)>, entries: seq<seq<(string, Json)>>)

  /** What atlas.py:1441-1457 does with the extracted value: no plan, a plan,
      or an exception escaping `parse_plan`. */
  datatype PlanCheck = NotAPlan | Accepted(data: PlanData) | Raises

  /** The items `for sd in data["steps"]` visits, provided each is a dict (has
      `.get`): a list's elements; a dict's keys and a string's characters are
      strings, so only an empty dict or string passes; other values are not
      iterable. */
  function StepEntries(v: Json): Option<seq<seq<(string, Json)>>> {
    match v
    case JArr(xs) =>
      if forall k :: 0 <= k < |xs| ==> xs[k].JObj? then
        Some(seq(|xs|, k requires 0 <= k < |xs| => if xs[k].JObj? then xs[k].fields else []))
      else None
    case JObj(fs) => if fs == [] then Some([]) else None
    case JStr(s) => if s == [] then Some([]) else None
    case _ => None
  }

  /** The checks of atlas.py:1441-1457 as written. `"steps" in data` raises on
      a truthy number or boolean; on a string or list that contains "steps",
      `data.get` raises; so do steps that are not dicts. */
  function CheckPlanAsWritten(data: Option<Json>): (r: PlanCheck)
    ensures data.None? || !Truthy(data.value) ==> r == NotAPlan
    ensures r.Accepted? ==>
      && data == Some(JObj(r.data.fields)) && HasKey(r.data.fields, "steps")
      && StepEntries(Get(r.data.fields, "steps").value) == Some(r.data.entries)
    ensures data.Some? && data.value.JObj? && HasKey(data.value.fields, "steps") && Truthy(data.value) ==>
      (r.Accepted? <==> StepEntries(Get(data.value.fields, "steps").value).Some?)
    ensures r.Raises? ==>
      && data.Some? && Truthy(data.value)
      && (data.value.JObj? ==> HasKey(data.value.fields, "steps") && StepEntries(Get(data.value.fields, "steps").value).None?)
    ensures data.Some? && Truthy(data.value) && (data.value.JNum? || data.value.JBool?) ==> r == Raises
  {
    match data
    case None => NotAPlan
    case Some(d) =>
      if !Truthy(d) then NotAPlan
      else match d
        case JObj(fs) =>
          if !HasKey(fs, "steps") then NotAPlan
          else (
            match StepEntries(Get(fs, "steps").value)
            case Some(entries) => Accepted(PlanData(fs, entries))
            case None => Raises)
        case JArr(xs) => if JStr("steps") in xs then Raises else NotAPlan
        case JStr(s) => if Contains(s, "steps") then Raises else NotAPlan
        case _ => Raises
  }

  /** The plan check with its exceptions read as "not a plan": a reply that
      cannot be a plan is shown as a conversational reply. */
  function PlanEntries(data: Option<Json>): (r: Option<PlanData>)
    ensures data.None? || !Truthy(data.value) ==> r.None?
    ensures r.Some? ==> data == Some(JObj(r.value.fields)) && HasKey(r.value.fields, "steps")
    ensures data.Some? && data.value.JObj? && !HasKey(data.value.fields, "steps") ==> r.None?
    ensures data.Some? && data.value.JObj? && HasKey(data.value.fields, "steps")
            && Get(data.value.fields, "steps").value.JArr?
            && (forall x :: x in Get(data.value.fields, "steps").value.items ==> x.JObj?)
            ==> r.Some? && |r.value.entries| == |Get(data.value.fields, "steps").value.items|
    ensures CheckPlanAsWritten(data).Accepted? ==> r == Some(CheckPlanAsWritten(data).data)
    ensures !CheckPlanAsWritten(data).Accepted? ==> r.None?
  {
    match CheckPlanAsWritten(data)
    case Accepted(p) => Some(p)
    case _ => None
  }

  /** A reply that is just a number makes `parse_plan` raise, where a
      conversational reply was meant; the corrected check rejects it. */
  lemma NumberReplyRaises(parse: Parser)
    requires parse("42") == Some(JNum(42))
    ensures CheckPlanAsWritten(Extract("42", parse)) == Raises
    ensures PlanEntries(Extract("42", parse)) == None
  {
  }

  /** One `TaskStep` per entry: `step` defaults to the position plus one,
      `description` and `tool` to "", `params` to {}. */
  function StepFromEntry(sd: seq<(string, Json)>, position: nat): TaskStep {
    NewStep(GetOr(sd, "step", JNum(position + 1)), GetOr(sd, "description", JStr("")),
            GetOr(sd, "tool", JStr("")), GetOr(sd, "params", JObj([])))
  }

  function PlanSteps(entries: seq<seq<(string, Json)>>): (r: seq<TaskStep>)
    ensures |r| == |entries|
    ensures forall k :: 0 <= k < |r| ==>
      && r[k].status == Pending && r[k].retryCount == 0 && r[k].maxRetries == DefaultMaxRetries
      && r[k].result == None && r[k].error == None
      && r[k].stepNumber == (if HasKey(entries[k], "step") then Get(entries[k], "step").value else JNum(k + 1))
      && r[k].description == (if HasKey(entries[k], "description") then Get(entries[k], "description").value else JStr(""))
      && r[k].toolName == (if HasKey(entries[k], "tool") then Get(entries[k], "tool").value else JStr(""))
      && r[k].parameters == (if HasKey(entries[k], "params") then Get(entries[k], "params").value else JObj([]))
  {
    seq(|entries|, k requires 0 <= k < |entries| => StepFromEntry(entries[k], k))
  }

  /** `ResponseParser.parse_plan`. The md5-of-the-clock task id is the parameter `taskId`. */
  method ParsePlan(llmResponse: string, parse: Parser, taskId: string) returns (plan: Option<TaskPlan>)
    ensures var checked := PlanEntries(Extract(llmResponse, parse));
      && (plan.None? <==> checked.None?)
      && (plan.Some? ==>
            && fresh(plan.value)
            && plan.value.taskId == taskId
            && plan.value.originalRequest == GetOr(checked.value.fields, "plan", JStr(""))
            && plan.value.steps == PlanSteps(checked.value.entries)
            && plan.value.status == Pending)
  {
    var data := ExtractJson(llmResponse, parse);
    var checked := PlanEntries(data);
    if checked.None? {
      return None;
    }
    var entries := checked.value.entries;
    var p := new TaskPlan(taskId, GetOr(checked.value.fields, "plan", JStr("")));
    var k := 0;
    while k < |entries|
      invariant 0 <= k <= |entries|
      invariant p.steps == PlanSteps(entries[..k])
      invariant p.taskId == taskId && p.status == Pending
      invariant p.originalRequest == GetOr(checked.value.fields, "plan", JStr(""))
    {
      p.steps := p.steps + [StepFromEntry(entries[k], |p.steps|)];
      k := k + 1;
      assert PlanSteps(entries[..k]) == PlanSteps(entries[..k - 1]) + [StepFromEntry(entries[k - 1], k - 1)];
    }
    assert entries[..k] == entries;
    plan := Some(p);
  }
}
