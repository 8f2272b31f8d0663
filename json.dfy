/** The Python values `json.loads` produces and `json.dumps` consumes, as far as
    the host inspects them: truthiness, `dict.get` and `str()`. */
module JsonValues {
  import opened Wrappers
  import PyText

  /** A decoded JSON document. Objects keep their keys in insertion order, as a
      Python `dict` does; numbers are integers. */
  datatype Json =
    | JNull
    | JBool(b: bool)
    | JInt(i: int)
    | JString(s: string)
    | JArray(items: seq<Json>)
    | JObject(fields: seq<(string, Json)>)

  /** What UTF-8 decoding followed by `json.loads` makes of a payload; the
      details are the texts of the two exceptions the host catches. */
  datatype Decoded =
    | Parsed(value: Json)
    | BadUtf8(detail: string)
    | BadJson(detail: string)

  /** `d.get(key)`: the value bound to `key`, the last binding winning. */
  function Get(fields: seq<(string, Json)>, key: string): (r: Option<Json>)
    ensures r.None? <==> forall i :: 0 <= i < |fields| ==> fields[i].0 != key
    ensures r.Some? ==> exists i :: 0 <= i < |fields| && fields[i] == (key, r.value)
                                    && forall j :: i < j < |fields| ==> fields[j].0 != key
  {
    if fields == [] then None
    else if fields[|fields| - 1].0 == key then Some(fields[|fields| - 1].1)
    else Get(fields[..|fields| - 1], key)
  }

  /** Python's `bool(v)`: `None`, `False`, `0`, and empty strings, lists and
      dicts are false; everything else is true. */
  predicate Truthy(v: Json) {
    match v
    case JNull => false
    case JBool(b) => b
    case JInt(i) => i != 0
    case JString(s) => s != ""
    case JArray(items) => items != []
    case JObject(fields) => fields != []
  }

  /** The falsy values are exactly `None`, `False`, `0`, `""`, `[]` and `{}`. */
  lemma FalsyValues(v: Json)
    ensures !Truthy(v) <==> v in {JNull, JBool(false), JInt(0), JString(""), JArray([]), JObject([])}
  {
  }

  /** `bool(d.get(key))`, with a missing key read as `None`. */
  predicate HasTruthy(v: Option<Json>) {
    v.Some? && Truthy(v.value)
  }

  /** Python's `str(v)`: a string is itself, anything else its `repr`. */
  function PyStr(v: Json): (r: string)
    ensures v.JString? ==> r == v.s
    ensures v == JNull ==> r == "None"
    ensures v.JBool? ==> r == if v.b then "True" else "False"
    ensures v.JInt? ==> r == PyText.IntToDecimal(v.i)
    ensures v.JArray? ==> |r| >= 2 && r[0] == '[' && r[|r| - 1] == ']'
    ensures v.JObject? ==> |r| >= 2 && r[0] == '{' && r[|r| - 1] == '}'
  {
    if v.JString? then v.s else PyRepr(v)
  }

  /** Python's `repr(v)`, with strings always in single quotes. */
  function PyRepr(v: Json): (r: string)
    ensures |r| >= 1
    ensures v.JString? ==> r == "'" + v.s + "'"
    ensures v.JArray? ==> |r| >= 2 && r[0] == '[' && r[|r| - 1] == ']'
    ensures v.JObject? ==> |r| >= 2 && r[0] == '{' && r[|r| - 1] == '}'
    decreases v, 2, 0
  {
    match v
    case JNull => "None"
    case JBool(b) => if b then "True" else "False"
    case JInt(i) => PyText.IntToDecimal(i)
    case JString(s) => "'" + s + "'"
    case JArray(items) => "[" + ReprItems(v, items) + "]"
    case JObject(fields) => "{" + ReprFields(v, fields) + "}"
  }

  function ReprItems(ghost parent: Json, items: seq<Json>): string
    requires forall x :: x in items ==> x < parent
    decreases parent, 1, |items|
  {
    if items == [] then ""
    else
      assert items[0] in items;
      if |items| == 1 then PyRepr(items[0])
      else
        assert forall x :: x in items[1..] ==> x in items;
        PyRepr(items[0]) + ", " + ReprItems(parent, items[1..])
  }

  function ReprFields(ghost parent: Json, fields: seq<(string, Json)>): string
    requires forall f :: f in fields ==> f.1 < parent
    decreases parent, 1, |fields|
  {
    if fields == [] then ""
    else
      var entry := "'" + fields[0].0 + "': " + PyRepr(fields[0].1);
      if |fields| == 1 then entry
      else
        assert forall f :: f in fields[1..] ==> f in fields;
        entry + ", " + ReprFields(parent, fields[1..])
  }

  /** The `repr` of each item of a list, in order. */
  function ItemReprs(items: seq<Json>): (rs: seq<string>)
    ensures |rs| == |items|
  {
    seq(|items|, i requires 0 <= i < |items| => PyRepr(items[i]))
  }

  /** The `'key': repr(value)` entry of each binding of a dictionary, in order. */
  function FieldReprs(fields: seq<(string, Json)>): (rs: seq<string>)
    ensures |rs| == |fields|
  {
    seq(|fields|, i requires 0 <= i < |fields| => "'" + fields[i].0 + "': " + PyRepr(fields[i].1))
  }

  lemma {:induction false} ReprItemsJoined(parent: Json, items: seq<Json>)
    requires forall x :: x in items ==> x < parent
    ensures ReprItems(parent, items) == PyText.Join(", ", ItemReprs(items))
    decreases |items|
  {
    if |items| > 1 {
      assert forall x :: x in items[1..] ==> x in items;
      ReprItemsJoined(parent, items[1..]);
      assert ItemReprs(items) == [PyRepr(items[0])] + ItemReprs(items[1..]);
      PyText.JoinCons(", ", PyRepr(items[0]), ItemReprs(items[1..]));
    }
  }

  lemma {:induction false} ReprFieldsJoined(parent: Json, fields: seq<(string, Json)>)
    requires forall f :: f in fields ==> f.1 < parent
    ensures ReprFields(parent, fields) == PyText.Join(", ", FieldReprs(fields))
    decreases |fields|
  {
    if |fields| > 1 {
      assert forall f :: f in fields[1..] ==> f in fields;
      ReprFieldsJoined(parent, fields[1..]);
      assert FieldReprs(fields) == [FieldReprs(fields)[0]] + FieldReprs(fields[1..]);
      PyText.JoinCons(", ", FieldReprs(fields)[0], FieldReprs(fields[1..]));
    }
  }

  /** `str()` and `repr` of a list print its items' `repr`s joined by ", " in
      brackets; of a dictionary, its `'key': repr(value)` entries joined by ", "
      in braces. */
  lemma ContainerText(v: Json)
    ensures v.JArray? ==>
              PyStr(v) == PyRepr(v) == "[" + PyText.Join(", ", ItemReprs(v.items)) + "]"
    ensures v.JObject? ==>
              PyStr(v) == PyRepr(v) == "{" + PyText.Join(", ", FieldReprs(v.fields)) + "}"
  {
    match v
    case JArray(items) => ReprItemsJoined(v, items);
    case JObject(fields) => ReprFieldsJoined(v, fields);
    case _ =>
  }
}
