/**
 * The key list `AutomationTools.hotkey` presses (atlas.py:1169): the
 * combination is split at `+` and `,`, and each key is stripped of
 * surrounding whitespace. Pressing the keys (pyautogui) is outside this
 * model.
 */
module AutomationTools {
  import opened Text

  /** `[k.strip() for k in keys.replace("+", ",").split(",")]`. */
  function SplitKeys(keys: string): (parts: seq<string>)
    ensures |parts| == Count(ReplaceChar(keys, '+', ','), ',') + 1
    ensures forall k :: 0 <= k < |parts| ==> '+' !in parts[k] && ',' !in parts[k]
    ensures forall k :: 0 <= k < |parts| ==> parts[k] == [] || (!IsSpace(parts[k][0]) && !IsSpace(parts[k][|parts[k]| - 1]))
  {
    var joined := ReplaceChar(keys, '+', ',');
    assert '+' !in joined by {
      assert forall k :: 0 <= k < |joined| ==> joined[k] != '+';
    }
    StripEach(Split(joined, ','))
  }

  /** Each piece stripped of surrounding whitespace. */
  function StripEach(pieces: seq<string>): (r: seq<string>)
    ensures |r| == |pieces|
    ensures forall k :: 0 <= k < |pieces| ==> r[k] == Strip(pieces[k])
  {
    if pieces == [] then [] else [Strip(pieces[0])] + StripEach(pieces[1..])
  }

  lemma {:induction false} StripEachConcat(x: seq<string>, y: seq<string>)
    ensures StripEach(x + y) == StripEach(x) + StripEach(y)
  {
    if x == [] {
      assert x + y == y;
    } else {
      assert (x + y)[1..] == x[1..] + y;
      StripEachConcat(x[1..], y);
    }
  }

  /** Replacing `+` by `,` in two parts around a separator gives the replaced
      parts around a `,`. */
  lemma ReplaceAroundSeparator(a: string, sep: char, b: string)
    requires sep == '+' || sep == ','
    ensures ReplaceChar(a + [sep] + b, '+', ',') == ReplaceChar(a, '+', ',') + [','] + ReplaceChar(b, '+', ',')
  {
  }

  /** Without whitespace in the combination, the keys joined with `+` give
      the combination back, with every `,` written as `+`: nothing is lost
      or reordered. */
  lemma {:induction false} SplitKeysRoundTrip(keys: string)
    requires forall k :: 0 <= k < |keys| ==> !IsSpace(keys[k])
    ensures Join("+", SplitKeys(keys)) == ReplaceChar(keys, ',', '+')
  {
    var joined := ReplaceChar(keys, '+', ',');
    var pieces := Split(joined, ',');
    assert forall i :: 0 <= i < |joined| ==> !IsSpace(joined[i]);
    forall k | 0 <= k < |pieces|
      ensures Strip(pieces[k]) == pieces[k]
    {
      var p := pieces[k];
      if p != [] {
        assert p[0] in p && p[|p| - 1] in p;
        assert p[0] in joined && p[|p| - 1] in joined;
      }
      StripTrimmed(p);
    }
    assert SplitKeys(keys) == pieces;
    JoinSplitReplace(joined, ',', '+');
  }

  /** A combination without separators is one key: the whole text, stripped. */
  lemma SplitKeysOne(keys: string)
    requires '+' !in keys && ',' !in keys
    ensures SplitKeys(keys) == [Strip(keys)]
  {
    var joined := ReplaceChar(keys, '+', ',');
    assert joined == keys;
    SplitNoSep(keys, ',');
  }

  /** The keys are read left to right: the keys of two parts joined by a
      separator are the keys of the first part followed by those of the second. */
  lemma SplitKeysConcat(a: string, sep: char, b: string)
    requires sep == '+' || sep == ','
    ensures SplitKeys(a + [sep] + b) == SplitKeys(a) + SplitKeys(b)
  {
    var ra, rb := ReplaceChar(a, '+', ','), ReplaceChar(b, '+', ',');
    ReplaceAroundSeparator(a, sep, b);
    SplitConcat(ra, rb, ',');
    StripEachConcat(Split(ra, ','), Split(rb, ','));
  }
}
