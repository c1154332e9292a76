/**
 * The first half of `ExcelTools.create_excel` (atlas.py:619-665): the
 * `data` a plan gives is turned into a header row and data rows, whatever
 * its shape. Writing the workbook (openpyxl) is outside this model.
 *
 * The shapes, tried in order:
 *  - a dict with "headers" and "rows": taken as they are;
 *  - a dict of lists: one column per key, padded with "" to the longest;
 *  - a dict of dicts: a "Category" column, then every inner key;
 *  - any other dict: "Category" and "Value" columns;
 *  - a list of dicts: one column per key of the first;
 *  - a list of lists: the first is the header row;
 *  - any other list: numbered rows;
 *  - anything else: one "Data" cell.
 */
module ExcelTools {
  import opened Options
  import opened Text
  import opened Json

  /** The outcome of the normalisation: the table, the "Could not parse
      data" failure when the headers are empty, or the exception that the
      tool's `except` turns into an "Error: ..." result. */
  datatype Table = Tabulated(headers: Json, rows: Json) | CouldNotParse | Raises(exception: string)

  /** `if not headers: return ToolResult(False, "Could not parse data")`. */
  function Checked(headers: Json, rows: Json): (t: Table)
    ensures t.Tabulated? <==> Truthy(headers)
    ensures t.Tabulated? ==> t.headers == headers && t.rows == rows
    ensures !t.Raises?
  {
    if Truthy(headers) then Tabulated(headers, rows) else CouldNotParse
  }

  predicate AllLists(vs: seq<Json>) {
    forall k :: 0 <= k < |vs| ==> vs[k].JArr?
  }

  predicate AllDicts(vs: seq<Json>) {
    forall k :: 0 <= k < |vs| ==> vs[k].JObj?
  }

  /** `len(v)` of a list. */
  function Len(v: Json): nat {
    if v.JArr? then |v.items| else 0
  }

  /** `max(len(v) for v in values)`. */
  function MaxLen(vs: seq<Json>): (m: nat)
    requires vs != []
    ensures forall k :: 0 <= k < |vs| ==> Len(vs[k]) <= m
    ensures exists k :: 0 <= k < |vs| && Len(vs[k]) == m
  {
    if |vs| == 1 then Len(vs[0])
    else
      var m := MaxLen(vs[..|vs| - 1]);
      assert forall k :: 0 <= k < |vs| - 1 ==> vs[..|vs| - 1][k] == vs[k];
      if Len(vs[|vs| - 1]) > m then Len(vs[|vs| - 1]) else m
  }

  /** `data[h][i] if i < len(data[h]) else ""`. */
  function Cell(column: Json, i: nat): Json {
    if column.JArr? && i < |column.items| then column.items[i] else JStr("")
  }

  /** Row `i` of a dict of columns. */
  function ColumnsRow(fields: seq<(string, Json)>, i: nat): Json {
    JArr(seq(|fields|, j requires 0 <= j < |fields| => Cell(fields[j].1, i)))
  }

  function Names(keys: seq<string>): (r: seq<Json>)
    ensures |r| == |keys| && forall j :: 0 <= j < |keys| ==> r[j] == JStr(keys[j])
  {
    seq(|keys|, j requires 0 <= j < |keys| => JStr(keys[j]))
  }

  /** `for k in v: if k not in sub_keys: sub_keys.append(k)`. */
  function AddKeys(acc: seq<string>, keys: seq<string>): (r: seq<string>)
    ensures acc <= r
  {
    if keys == [] then acc
    else
      var a := AddKeys(acc, keys[..|keys| - 1]);
      if keys[|keys| - 1] in a then a else a + [keys[|keys| - 1]]
  }

  /** The inner keys of a dict of dicts, in order of first appearance. */
  function SubKeys(vs: seq<Json>): seq<string>
    requires AllDicts(vs)
  {
    if vs == [] then []
    else AddKeys(SubKeys(vs[..|vs| - 1]), Keys(vs[|vs| - 1].fields))
  }

  /** One row of a dict of dicts: its key, then its value under every inner key. */
  function CategoryRow(key: string, sub: Json, subKeys: seq<string>): Json
    requires sub.JObj?
  {
    JArr([JStr(key)] + seq(|subKeys|, j requires 0 <= j < |subKeys| => GetOr(sub.fields, subKeys[j], JStr(""))))
  }

  /** One row of a list of dicts: the record's value under every header. */
  function RecordRow(record: Json, headers: seq<string>): Json
    requires record.JObj?
  {
    JArr(seq(|headers|, j requires 0 <= j < |headers| => GetOr(record.fields, headers[j], JStr(""))))
  }

  /** `it.get` is called on every record when there is at least one header;
      a record that is not a dict has no `get`. */
  predicate RecordsReadable(xs: seq<Json>, headers: seq<string>) {
    headers == [] || AllDicts(xs)
  }

  /** The normalisation, as a function of `data`. */
  function Tabulate(data: Json): Table {
    match data
    case JObj(fs) =>
      var vs := Values(fs);
      if HasKey(fs, "headers") && HasKey(fs, "rows") then
        Checked(Get(fs, "headers").value, Get(fs, "rows").value)
      else if AllLists(vs) then
        if vs == [] then Raises("ValueError")
        else
          Checked(JArr(Names(Keys(fs))), JArr(seq(MaxLen(vs), i requires 0 <= i => ColumnsRow(fs, i))))
      else if AllDicts(vs) then
        var sub := SubKeys(vs);
        Checked(JArr([JStr("Category")] + Names(sub)),
                JArr(seq(|fs|, i requires 0 <= i < |fs| => CategoryRow(fs[i].0, vs[i], sub))))
      else
        Checked(JArr([JStr("Category"), JStr("Value")]),
                JArr(seq(|fs|, i requires 0 <= i < |fs| => JArr([JStr(fs[i].0), fs[i].1]))))
    case JArr(xs) =>
      if xs != [] && xs[0].JObj? then
        var hs := Keys(xs[0].fields);
        if !RecordsReadable(xs, hs) then Raises("AttributeError")
        else if hs == [] then CouldNotParse
        else Checked(JArr(Names(hs)), JArr(seq(|xs|, i requires 0 <= i < |xs| => RecordRow(xs[i], hs))))
      else if xs != [] && xs[0].JArr? then
        Checked(JArr(seq(|xs[0].items|, j requires 0 <= j < |xs[0].items| => JStr(PyStr(xs[0].items[j])))),
                JArr(xs[1..]))
      else
        Checked(JArr([JStr("#"), JStr("Value")]),
                JArr(seq(|xs|, i requires 0 <= i < |xs| => JArr([JNum(i + 1), xs[i]]))))
    case _ =>
      Checked(JArr([JStr("Data")]), JArr([JArr([JStr(PyStr(data))])]))
  }

  /** The normalisation as the source performs it, appending row by row
      where it loops. */
  method Normalise(data: Json) returns (t: Table)
    ensures t == Tabulate(data)
  {
    match data {
      case JObj(fs) =>
        var vs := Values(fs);
        if HasKey(fs, "headers") && HasKey(fs, "rows") {
          t := Checked(Get(fs, "headers").value, Get(fs, "rows").value);
        } else if AllLists(vs) {
          if vs == [] {
            t := Raises("ValueError");
          } else {
            var maxLen := MaxLen(vs);
            var rows: seq<Json> := [];
            for i := 0 to maxLen
              invariant rows == seq(i, r requires 0 <= r => ColumnsRow(fs, r))
            {
              rows := rows + [ColumnsRow(fs, i)];
            }
            t := Checked(JArr(Names(Keys(fs))), JArr(rows));
          }
        } else if AllDicts(vs) {
          var sub := CollectSubKeys(vs);
          var rows: seq<Json> := [];
          for i := 0 to |fs|
            invariant rows == seq(i, r requires 0 <= r < i => CategoryRow(fs[r].0, vs[r], sub))
          {
            rows := rows + [CategoryRow(fs[i].0, vs[i], sub)];
          }
          t := Checked(JArr([JStr("Category")] + Names(sub)), JArr(rows));
        } else {
          t := Checked(JArr([JStr("Category"), JStr("Value")]),
                       JArr(seq(|fs|, i requires 0 <= i < |fs| => JArr([JStr(fs[i].0), fs[i].1]))));
        }
      case JArr(xs) =>
        if xs != [] && xs[0].JObj? {
          var hs := Keys(xs[0].fields);
          if !RecordsReadable(xs, hs) {
            t := Raises("AttributeError");
          } else if hs == [] {
            t := CouldNotParse;
          } else {
            t := Checked(JArr(Names(hs)), JArr(seq(|xs|, i requires 0 <= i < |xs| => RecordRow(xs[i], hs))));
          }
        } else if xs != [] && xs[0].JArr? {
          var first := xs[0].items;
          t := Checked(JArr(seq(|first|, j requires 0 <= j < |first| => JStr(PyStr(first[j])))), JArr(xs[1..]));
        } else {
          t := Checked(JArr([JStr("#"), JStr("Value")]),
                       JArr(seq(|xs|, i requires 0 <= i < |xs| => JArr([JNum(i + 1), xs[i]]))));
        }
      case _ =>
        t := Checked(JArr([JStr("Data")]), JArr([JArr([JStr(PyStr(data))])]));
    }
  }

  /** The nested loops that collect `sub_keys`. */
  method CollectSubKeys(vs: seq<Json>) returns (subKeys: seq<string>)
    requires AllDicts(vs)
    ensures subKeys == SubKeys(vs)
  {
    subKeys := [];
    for a := 0 to |vs|
      invariant subKeys == SubKeys(vs[..a])
    {
      var keys := Keys(vs[a].fields);
      ghost var before := subKeys;
      for b := 0 to |keys|
        invariant subKeys == AddKeys(before, keys[..b])
      {
        assert keys[..b + 1][..b] == keys[..b];
        if keys[b] !in subKeys {
          subKeys := subKeys + [keys[b]];
        }
      }
      assert keys[..|keys|] == keys;
      assert vs[..a + 1][..a] == vs[..a];
    }
    assert vs[..|vs|] == vs;
  }

  predicate Distinct(keys: seq<string>) {
    forall i, j :: 0 <= i < j < |keys| ==> keys[i] != keys[j]
  }

  /** Adding keys keeps them distinct and loses none. */
  lemma {:induction false} AddKeysSpec(acc: seq<string>, keys: seq<string>)
    requires Distinct(acc)
    ensures Distinct(AddKeys(acc, keys))
    ensures forall k :: k in AddKeys(acc, keys) <==> k in acc || k in keys
  {
    if keys != [] {
      var init := keys[..|keys| - 1];
      AddKeysSpec(acc, init);
      assert keys == init + [keys[|keys| - 1]];
    }
  }

  /** The "Category" table has one column per inner key: every key of every
      inner dict, each once. */
  lemma {:induction false} SubKeysSpec(vs: seq<Json>)
    requires AllDicts(vs)
    ensures Distinct(SubKeys(vs))
    ensures forall k :: k in SubKeys(vs) <==> exists a :: 0 <= a < |vs| && HasKey(vs[a].fields, k)
  {
    if vs != [] {
      var init := vs[..|vs| - 1];
      var last := vs[|vs| - 1];
      SubKeysSpec(init);
      AddKeysSpec(SubKeys(init), Keys(last.fields));
      forall k
        ensures k in SubKeys(vs) <==> exists a :: 0 <= a < |vs| && HasKey(vs[a].fields, k)
      {
        if k in Keys(last.fields) {
          var j :| 0 <= j < |Keys(last.fields)| && Keys(last.fields)[j] == k;
          assert HasKey(vs[|vs| - 1].fields, k);
        }
        if HasKey(last.fields, k) {
          var j :| 0 <= j < |last.fields| && last.fields[j].0 == k;
          assert Keys(last.fields)[j] == k;
        }
        if exists a :: 0 <= a < |vs| && HasKey(vs[a].fields, k) {
          var a :| 0 <= a < |vs| && HasKey(vs[a].fields, k);
          if a < |init| { assert init[a] == vs[a]; }
        }
        if exists a :: 0 <= a < |init| && HasKey(init[a].fields, k) {
          var a :| 0 <= a < |init| && HasKey(init[a].fields, k);
          assert vs[a] == init[a];
        }
      }
    }
  }

  /** A dict of lists reads back column by column: column `j` holds the
      `j`-th list, padded with "" up to the longest, which fixes the number
      of rows. */
  lemma ColumnsReadBack(fs: seq<(string, Json)>)
    requires fs != [] && AllLists(Values(fs))
    requires !(HasKey(fs, "headers") && HasKey(fs, "rows"))
    ensures var t := Tabulate(JObj(fs));
      && t.Tabulated? && t.headers == JArr(Names(Keys(fs))) && t.rows.JArr?
      && (exists j :: 0 <= j < |fs| && |fs[j].1.items| == |t.rows.items|)
      && (forall j :: 0 <= j < |fs| ==> |fs[j].1.items| <= |t.rows.items|)
      && (forall i :: 0 <= i < |t.rows.items| ==> t.rows.items[i].JArr? && |t.rows.items[i].items| == |fs|)
      && (forall i, j :: 0 <= i < |t.rows.items| && 0 <= j < |fs| ==>
            t.rows.items[i].items[j] == if i < |fs[j].1.items| then fs[j].1.items[i] else JStr(""))
  {
    var vs := Values(fs);
    var m := MaxLen(vs);
    assert forall j :: 0 <= j < |fs| ==> Len(vs[j]) == |fs[j].1.items|;
  }

  /** `d.get(key, "")` on a dict with distinct keys finds the value at the key's position. */
  lemma {:induction false} GetAtPosition(fields: seq<(string, Json)>, j: nat)
    requires j < |fields| && Distinct(Keys(fields))
    ensures GetOr(fields, fields[j].0, JStr("")) == fields[j].1
  {
    if j > 0 {
      assert Keys(fields[1..]) == Keys(fields)[1..];
      GetAtPosition(fields[1..], j - 1);
      assert Keys(fields)[0] != Keys(fields)[j];
    }
  }

  /** With distinct keys, the first record of a list of dicts reads back as
      its own values, in order, under the headers it gave. */
  lemma FirstRecordReadsBack(xs: seq<Json>)
    requires xs != [] && xs[0].JObj? && xs[0].fields != [] && AllDicts(xs)
    requires Distinct(Keys(xs[0].fields))
    ensures var t := Tabulate(JArr(xs));
      && t.Tabulated? && t.headers == JArr(Names(Keys(xs[0].fields)))
      && t.rows.JArr? && |t.rows.items| == |xs|
      && t.rows.items[0] == JArr(Values(xs[0].fields))
  {
    var fs := xs[0].fields;
    var hs := Keys(fs);
    forall j | 0 <= j < |hs|
      ensures GetOr(fs, hs[j], JStr("")) == fs[j].1
    {
      GetAtPosition(fs, j);
    }
    assert RecordRow(xs[0], hs) == JArr(Values(fs));
  }

  /** The normalisation raises on exactly two shapes: an empty dict (`max`
      of nothing) and a list of dicts with a first record holding keys and
      a later item that is not a dict. */
  lemma RaisesIff(data: Json)
    ensures Tabulate(data).Raises? <==>
      || data == JObj([])
      || (data.JArr? && data.items != [] && data.items[0].JObj? && data.items[0].fields != []
          && exists i :: 0 <= i < |data.items| && !data.items[i].JObj?)
  {
    if data == JObj([]) {
      assert Values([]) == [];
    }
  }

  /** A bare value becomes a one-cell table, its text under "Data". */
  lemma ScalarTable(s: string)
    ensures Tabulate(JStr(s)) == Tabulated(JArr([JStr("Data")]), JArr([JArr([JStr(s)])]))
  {
  }
}
