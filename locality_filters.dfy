/**
 * The filter bar's query-parameter updates: a copy of the current parameters
 * is changed with `delete`/`set` and the page navigates to the result.
 */
module LocalityFilters {
  import opened Wrappers
  import opened Text
  import opened LocalityResults

  /** The entries with other keys, in their order. */
  function Without(entries: seq<(string, string)>, key: string): (r: seq<(string, string)>)
    ensures forall k :: 0 <= k < |r| ==> r[k].0 != key
    ensures forall e :: e in r <==> e in entries && e.0 != key
    ensures |r| <= |entries|
  {
    if entries == [] then []
    else
      var rest := Without(entries[1..], key);
      assert forall e :: e in entries <==> e == entries[0] || e in entries[1..];
      if entries[0].0 == key then rest else [entries[0]] + rest
  }

  /** Removing a key twice is removing it once, and removals commute. */
  lemma {:induction false} WithoutCommutes(entries: seq<(string, string)>, a: string, b: string)
    ensures Without(Without(entries, a), b) == Without(Without(entries, b), a)
  {
    if entries != [] {
      WithoutCommutes(entries[1..], a, b);
    }
  }

  /** The number of entries stored under `key`. */
  function CountKey(entries: seq<(string, string)>, key: string): nat {
    if entries == [] then 0 else (if entries[0].0 == key then 1 else 0) + CountKey(entries[1..], key)
  }

  /**
   * `URLSearchParams.set`: the first entry with the key takes the value and any
   * later ones are removed; without one, the pair is appended.
   */
  function SetEntry(entries: seq<(string, string)>, key: string, value: string): (r: seq<(string, string)>)
    ensures Without(r, key) == Without(entries, key)
    ensures CountKey(r, key) == 1
    ensures GetParam(r, key) == Some(value)
  {
    if entries == [] then [(key, value)]
    else if entries[0].0 == key then
      WithoutCount(entries[1..], key);
      WithoutIdempotent(entries[1..], key);
      [(key, value)] + Without(entries[1..], key)
    else
      [entries[0]] + SetEntry(entries[1..], key, value)
  }

  lemma {:induction false} WithoutCount(entries: seq<(string, string)>, key: string)
    ensures CountKey(Without(entries, key), key) == 0
  {
    if entries != [] {
      WithoutCount(entries[1..], key);
    }
  }

  lemma {:induction false} WithoutIdempotent(entries: seq<(string, string)>, key: string)
    ensures Without(Without(entries, key), key) == Without(entries, key)
  {
    if entries != [] {
      WithoutIdempotent(entries[1..], key);
    }
  }

  /** `params.toString()` with its encoding of keys and values left out: `k=v` pairs joined by `&`. */
  function QueryString(entries: seq<(string, string)>): (q: string)
    ensures q == [] <==> entries == []
  {
    if entries == [] then ""
    else if |entries| == 1 then entries[0].0 + "=" + entries[0].1
    else entries[0].0 + "=" + entries[0].1 + "&" + QueryString(entries[1..])
  }

  /** The navigation target: the bare path when no parameter is left. */
  function Target(pathname: string, entries: seq<(string, string)>): (url: string)
    ensures entries == [] ==> url == pathname
    ensures entries != [] ==> url == pathname + "?" + QueryString(entries)
  {
    var q := QueryString(entries);
    if q == "" then pathname else pathname + "?" + q
  }

  /** A filter control's new value: `null`, a flag or a string. */
  datatype ParamValue = NoValue | Flag(b: bool) | Text(s: string)

  /** The values that remove their key instead of setting it: `null`, `false` and "any". */
  predicate Clears(v: ParamValue) {
    v == NoValue || v == Flag(false) || v == Text("any")
  }

  /** The string a kept value is written as; `true` becomes "true". */
  function Written(v: ParamValue): string {
    match v
    case NoValue => ""
    case Flag(b) => if b then "true" else "false"
    case Text(s) => s
  }

  /** The keys the clear button removes. */
  const FilterKeys: seq<string> := ["budget", "wifi", "valet", "redeemable", "sort"]

  /** A mutable copy of the page's search parameters, as `new URLSearchParams(searchParams.toString())` makes it. */
  class ParamList {
    var entries: seq<(string, string)>

    constructor (current: seq<(string, string)>)
      ensures entries == current
    {
      entries := current;
    }

    /** `params.delete(key)`. */
    method Delete(key: string)
      modifies this
      ensures entries == Without(old(entries), key)
    {
      entries := Without(entries, key);
    }

    /** `params.set(key, value)`. */
    method Set(key: string, value: string)
      modifies this
      ensures entries == SetEntry(old(entries), key, value)
    {
      entries := SetEntry(entries, key, value);
    }
  }

  /**
   * `updateParam`: a clearing value deletes the key, any other value sets it;
   * every other key keeps its entries in their order.
   */
  method UpdateParam(pathname: string, current: seq<(string, string)>, key: string, value: ParamValue)
    returns (params: seq<(string, string)>, url: string)
    ensures Without(params, key) == Without(current, key)
    ensures Clears(value) ==> params == Without(current, key) && GetParam(params, key).None?
    ensures !Clears(value) ==> GetParam(params, key) == Some(Written(value)) && CountKey(params, key) == 1
    ensures url == Target(pathname, params)
  {
    var p := new ParamList(current);
    if Clears(value) {
      p.Delete(key);
      WithoutIdempotent(current, key);
    } else {
      p.Set(key, Written(value));
    }
    params := p.entries;
    url := Target(pathname, params);
  }

  /** The parameters the clear button keeps: all but the five filter keys. */
  function Cleared(entries: seq<(string, string)>, keys: seq<string>): (r: seq<(string, string)>)
    ensures forall e :: e in r <==> e in entries && e.0 !in keys
  {
    if keys == [] then entries else Without(Cleared(entries, keys[..|keys| - 1]), keys[|keys| - 1])
  }

  /**
   * `handleClear`: remove exactly the budget, wifi, valet, redeemable and sort
   * keys, keeping every other entry (the search text among them).
   */
  method HandleClear(pathname: string, current: seq<(string, string)>)
    returns (params: seq<(string, string)>, url: string)
    ensures params == Cleared(current, FilterKeys)
    ensures forall e :: e in params <==> e in current && e.0 !in FilterKeys
    ensures url == Target(pathname, params)
  {
    var p := new ParamList(current);
    for i := 0 to |FilterKeys|
      invariant p.entries == Cleared(current, FilterKeys[..i])
    {
      assert FilterKeys[..i + 1][..i] == FilterKeys[..i];
      p.Delete(FilterKeys[i]);
    }
    assert FilterKeys[..|FilterKeys|] == FilterKeys;
    params := p.entries;
    url := Target(pathname, params);
  }

  /** The clear button keeps the search text and every other parameter outside the five. */
  lemma ClearKeepsOthers(current: seq<(string, string)>, key: string)
    requires key !in FilterKeys
    ensures GetParam(Cleared(current, FilterKeys), key) == GetParam(current, key)
  {
    GetParamCleared(current, FilterKeys, key);
  }

  lemma {:induction false} GetParamCleared(entries: seq<(string, string)>, keys: seq<string>, other: string)
    requires other !in keys
    ensures GetParam(Cleared(entries, keys), other) == GetParam(entries, other)
    decreases |keys|
  {
    if keys != [] {
      var init := keys[..|keys| - 1];
      assert forall k :: k in init ==> k in keys;
      GetParamCleared(entries, init, other);
      GetParamWithout(Cleared(entries, init), keys[|keys| - 1], other);
    }
  }

  /** Deleting one key leaves the lookup of another unchanged. */
  lemma {:induction false} GetParamWithout(entries: seq<(string, string)>, key: string, other: string)
    requires key != other
    ensures GetParam(Without(entries, key), other) == GetParam(entries, other)
  {
    if entries != [] {
      var rest := Without(entries[1..], key);
      GetParamWithout(entries[1..], key, other);
      if entries[0].0 != key {
        assert Without(entries, key) == [entries[0]] + rest;
        assert ([entries[0]] + rest)[1..] == rest;
      }
    }
  }
}
