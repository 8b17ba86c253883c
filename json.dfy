/**
 * A loosely-typed JavaScript value as `JSON.parse` produces it, with the parts
 * of JavaScript's semantics the model relies on: truthiness, `String(x)`,
 * property lookup and `typeof x === "object"`.
 */
module JsonValue {
  import opened Wrappers
  import opened Text

  datatype Json =
    | JNull
    | JBool(b: bool)
    | JNum(n: real)
    | JStr(s: string)
    | JArr(items: seq<Json>)
    | JObj(fields: seq<(string, Json)>)

  /** JavaScript truthiness: `null`, `false`, `0` and `""` are falsy. */
  predicate Truthy(v: Json) {
    match v
    case JNull => false
    case JBool(b) => b
    case JNum(n) => n != 0.0
    case JStr(s) => s != []
    case _ => true
  }

  /** `typeof v === "object" && v !== null`: arrays count as objects. */
  predicate IsObjectLike(v: Json) {
    v.JArr? || v.JObj?
  }

  /** `v[key]`, where `undefined` is `None`; a repeated key keeps its last value, as `JSON.parse` does. */
  function Get(v: Json, key: string): (r: Option<Json>)
    ensures r.Some? ==> v.JObj? && exists i :: 0 <= i < |v.fields| && v.fields[i] == (key, r.value)
    ensures v.JObj? && r.None? ==> forall i :: 0 <= i < |v.fields| ==> v.fields[i].0 != key
  {
    if v.JObj? then Lookup(v.fields, key) else None
  }

  function Lookup(fields: seq<(string, Json)>, key: string): (r: Option<Json>)
    ensures r.Some? ==> exists i :: 0 <= i < |fields| && fields[i] == (key, r.value)
    ensures r.None? ==> forall i :: 0 <= i < |fields| ==> fields[i].0 != key
  {
    if fields == [] then None
    else if fields[|fields| - 1].0 == key then Some(fields[|fields| - 1].1)
    else Lookup(fields[..|fields| - 1], key)
  }

  /** `a ?? b` on a property lookup: a missing or null left side gives the right side. */
  function Coalesce(a: Option<Json>, b: Option<Json>): Option<Json> {
    if a.Some? && !a.value.JNull? then a else b
  }

  /** JavaScript's `String(v)`. */
  function ToString(v: Json): string
    decreases v, 0
  {
    match v
    case JNull => "null"
    case JBool(b) => if b then "true" else "false"
    case JNum(n) => NumberText(n)
    case JStr(s) => s
    case JArr(items) => Join(seq(|items|, i requires 0 <= i < |items| => ItemString(items[i])), ",")
    case JObj(_) => "[object Object]"
  }

  /** An array element inside `String(array)`: `null` prints as nothing. */
  function ItemString(v: Json): string
    decreases v, 1
  {
    if v.JNull? then "" else ToString(v)
  }

  /** A hexadecimal digit as `JSON.stringify` writes it, in lower case. */
  function HexDigit(d: nat): (c: char)
    requires d < 16
    ensures IsDigit(c) || 'a' <= c <= 'f'
  {
    if d < 10 then DigitChar(d) else ('a' as int + d - 10) as char
  }

  /** One character of a string literal: quote, backslash and control characters are escaped. */
  function EscapeChar(c: char): (r: string)
    ensures |r| >= 1
    ensures r == [c] <==> c != '"' && c != '\\' && c as int >= 0x20
  {
    if c == '"' then "\\\""
    else if c == '\\' then "\\\\"
    else if c == '\n' then "\\n"
    else if c == '\r' then "\\r"
    else if c == '\t' then "\\t"
    else if c as int == 8 then "\\b"
    else if c as int == 12 then "\\f"
    else if c as int < 0x20 then "\\u00" + [HexDigit(c as int / 16), HexDigit(c as int % 16)]
    else [c]
  }

  /** A string as a JSON string literal. */
  function Quote(s: string): (r: string)
    ensures |r| >= |s| + 2 && r[0] == '"' && r[|r| - 1] == '"'
  {
    "\"" + Escaped(s) + "\""
  }

  function Escaped(s: string): (r: string)
    ensures |r| >= |s|
  {
    if s == [] then [] else EscapeChar(s[0]) + Escaped(s[1..])
  }

  /** `JSON.stringify(v)` with no indentation, keys in their stored order. */
  function Stringify(v: Json): string {
    match v
    case JNull => "null"
    case JBool(b) => if b then "true" else "false"
    case JNum(n) => NumberText(n)
    case JStr(s) => Quote(s)
    case JArr(items) => "[" + Join(seq(|items|, i requires 0 <= i < |items| => Stringify(items[i])), ",") + "]"
    case JObj(fields) =>
      "{" + Join(seq(|fields|, i requires 0 <= i < |fields| => Quote(fields[i].0) + ":" + Stringify(fields[i].1)), ",") + "}"
  }

  /** The JSON form of a list of strings. */
  function Strings(ss: seq<string>): (r: Json)
    ensures r.JArr? && |r.items| == |ss|
    ensures forall i :: 0 <= i < |ss| ==> r.items[i] == JStr(ss[i])
  {
    JArr(seq(|ss|, i requires 0 <= i < |ss| => JStr(ss[i])))
  }

  /** Property lookup on a two-field object literal. */
  lemma GetOfPair(k1: string, v1: Json, k2: string, v2: Json, key: string)
    ensures Get(JObj([(k1, v1), (k2, v2)]), key) == if key == k2 then Some(v2) else if key == k1 then Some(v1) else None
  {
    var fields := [(k1, v1), (k2, v2)];
    assert fields[..1] == [(k1, v1)];
    assert fields[..1][..0] == [];
    assert Lookup(fields, key) == if key == k2 then Some(v2) else Lookup(fields[..1], key);
    assert Lookup(fields[..1], key) == if key == k1 then Some(v1) else Lookup([], key);
  }

  /** No key occurs twice among an object's fields. */
  predicate UniqueKeys(fields: seq<(string, Json)>) {
    forall i, j :: 0 <= i < j < |fields| ==> fields[i].0 != fields[j].0
  }

  /** The position of `key` among the fields, or the number of fields when it is absent. */
  function KeyIndex(fields: seq<(string, Json)>, key: string): (i: nat)
    ensures i <= |fields|
    ensures i < |fields| ==> fields[i].0 == key
    ensures forall j :: 0 <= j < i ==> fields[j].0 != key
  {
    if fields == [] then 0 else if fields[0].0 == key then 0 else 1 + KeyIndex(fields[1..], key)
  }

  /**
   * `obj[key] = value`: an existing key keeps its position and takes the new
   * value; a new key is appended.
   */
  function SetField(fields: seq<(string, Json)>, key: string, value: Json): (r: seq<(string, Json)>)
    ensures UniqueKeys(fields) ==> UniqueKeys(r)
    ensures (forall i :: 0 <= i < |fields| ==> fields[i].0 != key) ==> r == fields + [(key, value)]
    ensures (exists i :: 0 <= i < |fields| && fields[i].0 == key) ==> |r| == |fields|
    ensures UniqueKeys(fields) ==> Lookup(r, key) == Some(value)
    ensures 1 <= |r| && |fields| <= |r| <= |fields| + 1
  {
    var i := KeyIndex(fields, key);
    if i < |fields| then
      var r := fields[i := (key, value)];
      assert UniqueKeys(fields) ==> UniqueKeys(r);
      assert UniqueKeys(fields) ==> Lookup(r, key) == Some(value) by {
        if UniqueKeys(fields) { LookupUnique(r, i); }
      }
      r
    else
      fields + [(key, value)]
  }

  /** In an object with distinct keys the lookup finds the one field with that key. */
  lemma LookupUnique(fields: seq<(string, Json)>, i: nat)
    requires UniqueKeys(fields) && i < |fields|
    ensures Lookup(fields, fields[i].0) == Some(fields[i].1)
  {
    var r := Lookup(fields, fields[i].0);
    if r.Some? {
      var j :| 0 <= j < |fields| && fields[j] == (fields[i].0, r.value);
      assert i == j;
    }
  }

  /** The lookup finds the last field with the key. */
  lemma {:induction false} LookupLast(fields: seq<(string, Json)>, key: string, i: nat)
    requires i < |fields| && fields[i].0 == key
    requires forall j :: i < j < |fields| ==> fields[j].0 != key
    ensures Lookup(fields, key) == Some(fields[i].1)
    decreases |fields|
  {
    if i < |fields| - 1 {
      var init := fields[..|fields| - 1];
      assert init[i] == fields[i];
      forall j | i < j < |init| ensures init[j].0 != key {
        assert init[j] == fields[j];
      }
      LookupLast(init, key, i);
    }
  }

  /** `Object.fromEntries(pairs)`: a repeated key keeps its first position and its last value. */
  function FromEntries(pairs: seq<(string, Json)>): (r: seq<(string, Json)>)
    ensures UniqueKeys(r)
    ensures |r| <= |pairs|
  {
    if pairs == [] then []
    else
      var init := FromEntries(pairs[..|pairs| - 1]);
      var r := SetField(init, pairs[|pairs| - 1].0, pairs[|pairs| - 1].1);
      assert |r| <= |init| + 1;
      r
  }

  /** With distinct keys, `Object.fromEntries` keeps every pair where it is. */
  lemma {:induction false} FromEntriesOfUnique(pairs: seq<(string, Json)>)
    requires UniqueKeys(pairs)
    ensures FromEntries(pairs) == pairs
  {
    if pairs != [] {
      var init := pairs[..|pairs| - 1];
      var last := pairs[|pairs| - 1];
      assert UniqueKeys(init) by {
        forall i, j | 0 <= i < j < |init| ensures init[i].0 != init[j].0 {
          assert init[i] == pairs[i] && init[j] == pairs[j];
        }
      }
      FromEntriesOfUnique(init);
      forall i | 0 <= i < |init| ensures init[i].0 != last.0 {
        assert init[i] == pairs[i];
      }
      assert init + [last] == pairs;
    }
  }
}
