/**
 * The attribute value codec: `normaliseAttributeValue` turns a loosely-typed
 * value into a flat storage row with eight nullable slots, driven by the
 * declared data type, and `denormaliseAttributeValue` reads a row back by a
 * fixed priority.
 */
module ValueCodec {
  import opened Wrappers
  import opened Text
  import opened JsonValue

  /** The value columns of a `pub_attribute_values` row. */
  datatype Row = Row(
    booleanValue: Option<bool>,
    intValue: Option<int>,
    numericMin: Option<real>,
    numericMax: Option<real>,
    textValue: Option<string>,
    tagsValue: Option<seq<string>>,
    scheduleValue: Option<Json>,
    ratingValue: Option<real>)

  const EmptyRow := Row(None, None, None, None, None, None, None, None)

  /** The number of filled slots; the two range bounds together are one slot. */
  function FilledSlots(r: Row): nat {
    (if r.booleanValue.Some? then 1 else 0)
    + (if r.intValue.Some? then 1 else 0)
    + (if r.numericMin.Some? || r.numericMax.Some? then 1 else 0)
    + (if r.textValue.Some? then 1 else 0)
    + (if r.tagsValue.Some? then 1 else 0)
    + (if r.scheduleValue.Some? then 1 else 0)
    + (if r.ratingValue.Some? then 1 else 0)
  }

  /**
   * A well-formed row: exactly one slot is filled, and what it holds is what the
   * decoder reads as present (non-empty tags and text, an object for a schedule).
   */
  predicate IsNormalRow(r: Row) {
    FilledSlots(r) == 1
    && (r.tagsValue.Some? ==> |r.tagsValue.value| > 0 && forall k :: 0 <= k < |r.tagsValue.value| ==> r.tagsValue.value[k] != [] && IsTrimmed(r.tagsValue.value[k]))
    && (r.textValue.Some? ==> r.textValue.value != [] && IsTrimmed(r.textValue.value))
    && (r.scheduleValue.Some? ==> IsObjectLike(r.scheduleValue.value))
  }

  /** A range slot with only one bound. */
  predicate IsHalfOpen(r: Row) {
    r.numericMin.Some? != r.numericMax.Some?
  }

  // ---------------------------------------------------------------------------
  // Tags

  /** `map(item => item.trim()).filter(item => item.length > 0)`. */
  function CleanTags(ss: seq<string>): (r: seq<string>)
    ensures |r| <= |ss|
    ensures forall k :: 0 <= k < |r| ==> r[k] != [] && IsTrimmed(r[k])
  {
    if ss == [] then []
    else
      var t := Trim(ss[0]);
      TrimIsTrimmed(ss[0]);
      (if t != [] then [t] else []) + CleanTags(ss[1..])
  }

  /** Tags that are already trimmed and non-empty come through unchanged. */
  lemma {:induction false} CleanTagsOfClean(ss: seq<string>)
    requires forall k :: 0 <= k < |ss| ==> ss[k] != [] && IsTrimmed(ss[k])
    ensures CleanTags(ss) == ss
  {
    if ss != [] {
      TrimOfTrimmed(ss[0]);
      CleanTagsOfClean(ss[1..]);
    }
  }

  /** `String(item)` for every array element. */
  function ItemStrings(items: seq<Json>): (r: seq<string>)
    ensures |r| == |items| && forall k :: 0 <= k < |items| ==> r[k] == ToString(items[k])
  {
    seq(|items|, k requires 0 <= k < |items| => ToString(items[k]))
  }

  function TagRow(tags: seq<string>): (r: Option<Row>)
    requires forall k :: 0 <= k < |tags| ==> tags[k] != [] && IsTrimmed(tags[k])
    ensures r.Some? ==> IsNormalRow(r.value)
  {
    if tags == [] then None else Some(EmptyRow.(tagsValue := Some(tags)))
  }

  // ---------------------------------------------------------------------------
  // Normalising, one declared data type at a time

  const TrueWords: seq<string> := ["true", "yes", "y", "1"]
  const FalseWords: seq<string> := ["false", "no", "n", "0"]

  function NormaliseBoolean(value: Json): (r: Option<Row>)
    ensures r.Some? ==> IsNormalRow(r.value)
  {
    if value.JBool? then Some(EmptyRow.(booleanValue := Some(value.b)))
    else if value.JStr? && Lower(Trim(value.s)) in TrueWords then Some(EmptyRow.(booleanValue := Some(true)))
    else if value.JStr? && Lower(Trim(value.s)) in FalseWords then Some(EmptyRow.(booleanValue := Some(false)))
    else None
  }

  function NormaliseInteger(value: Json): (r: Option<Row>)
    ensures r.Some? ==> IsNormalRow(r.value)
  {
    if value.JNum? then Some(EmptyRow.(intValue := Some(JsRound(value.n))))
    else if value.JStr? && Trim(value.s) != [] && JsNumber(value.s).Some? then
      Some(EmptyRow.(intValue := Some(JsRound(JsNumber(value.s).value))))
    else None
  }

  /** `typeof raw === "number" ? Math.round(raw) : null`. */
  function RoundedBound(raw: Option<Json>): Option<real> {
    if raw.Some? && raw.value.JNum? then Some(JsRound(raw.value.n) as real) else None
  }

  /** `Number.isFinite(n) ? Math.round(n) : null`, with NaN as `None`. */
  function RoundedNumber(n: Option<real>): Option<real> {
    if n.Some? then Some(JsRound(n.value) as real) else None
  }

  function RangeRow(min: Option<real>, max: Option<real>): (r: Option<Row>)
    ensures r.Some? ==> IsNormalRow(r.value)
  {
    if min.Some? || max.Some? then Some(EmptyRow.(numericMin := min, numericMax := max)) else None
  }

  /** Object (min|from|start, max|to|end), then two-element array, then number, then "a-b" string. */
  function NormaliseRange(value: Json): (r: Option<Row>)
    ensures r.Some? ==> IsNormalRow(r.value)
  {
    var fromObject :=
      if IsObjectLike(value) then
        RangeRow(RoundedBound(Coalesce(Coalesce(Get(value, "min"), Get(value, "from")), Get(value, "start"))),
                 RoundedBound(Coalesce(Coalesce(Get(value, "max"), Get(value, "to")), Get(value, "end"))))
      else None;
    var fromArray :=
      if value.JArr? then
        RangeRow(RoundedBound(if |value.items| > 0 then Some(value.items[0]) else None),
                 RoundedBound(if |value.items| > 1 then Some(value.items[1]) else None))
      else None;
    if fromObject.Some? then fromObject
    else if fromArray.Some? then fromArray
    else if value.JNum? then
      var rounded := JsRound(value.n) as real;
      Some(EmptyRow.(numericMin := Some(rounded), numericMax := Some(rounded)))
    else if value.JStr? && '-' in value.s then
      var parts := Split(value.s, '-');
      JoinSplit(value.s, '-');
      var maybeMin := JsNumber(Trim(parts[0]));
      var maybeMax := if |parts| > 1 then JsNumber(Trim(parts[1])) else None;
      RangeRow(RoundedNumber(maybeMin), RoundedNumber(maybeMax))
    else None
  }

  function NormaliseRating(value: Json): (r: Option<Row>)
    ensures r.Some? ==> IsNormalRow(r.value)
  {
    if value.JNum? then Some(EmptyRow.(ratingValue := Some(value.n))) else None
  }

  function NormaliseTags(value: Json): (r: Option<Row>)
    ensures r.Some? ==> IsNormalRow(r.value)
  {
    if value.JArr? then TagRow(CleanTags(ItemStrings(value.items)))
    else if value.JStr? then TagRow(CleanTags(Split(value.s, ',')))
    else None
  }

  function NormaliseText(value: Json): (r: Option<Row>)
    ensures r.Some? ==> IsNormalRow(r.value)
  {
    TrimIsTrimmed(if value.JStr? then value.s else "");
    if value.JStr? && Trim(value.s) != [] then Some(EmptyRow.(textValue := Some(Trim(value.s)))) else None
  }

  function NormaliseSchedule(value: Json): (r: Option<Row>)
    ensures r.Some? ==> IsNormalRow(r.value)
  {
    if Truthy(value) && IsObjectLike(value) then Some(EmptyRow.(scheduleValue := Some(value))) else None
  }

  /** Type inference for an unknown or missing data type: boolean, number, array, object, string. */
  function NormaliseInferred(value: Json): (r: Option<Row>)
    ensures r.Some? ==> IsNormalRow(r.value)
  {
    TrimIsTrimmed(if value.JStr? then value.s else "");
    match value
    case JBool(b) => Some(EmptyRow.(booleanValue := Some(b)))
    case JNum(n) => Some(EmptyRow.(numericMin := Some(n), numericMax := Some(n)))
    case JArr(items) => TagRow(CleanTags(ItemStrings(items)))
    case JObj(_) => Some(EmptyRow.(scheduleValue := Some(value)))
    case JStr(s) => if Trim(s) != [] then Some(EmptyRow.(textValue := Some(Trim(s)))) else None
    case JNull => None
  }

  /** The data type names with a branch of their own. */
  predicate IsDeclaredTypeName(t: string) {
    t in ["boolean", "integer", "integer_range", "rating", "tag_set", "text", "schedule", "json"]
  }

  /** `normaliseAttributeValue(value, dataType)`: `None` is a rejected value. */
  function Normalise(value: Json, dataType: Option<string>): (r: Option<Row>)
    ensures r.Some? ==> IsNormalRow(r.value)
  {
    match dataType
    case Some("boolean") => NormaliseBoolean(value)
    case Some("integer") => NormaliseInteger(value)
    case Some("integer_range") => NormaliseRange(value)
    case Some("rating") => NormaliseRating(value)
    case Some("tag_set") => NormaliseTags(value)
    case Some("text") => NormaliseText(value)
    case Some("schedule") => NormaliseSchedule(value)
    case Some("json") => NormaliseSchedule(value)
    case _ => NormaliseInferred(value)
  }

  // ---------------------------------------------------------------------------
  // Decoding

  /**
   * `denormaliseAttributeValue` as written: boolean > rating > int > non-empty
   * tags > range > text > schedule. A range with both bounds becomes `{min, max}`;
   * a range with one bound becomes that bare number.
   */
  function Denormalise(r: Row): Json {
    if r.booleanValue.Some? then JBool(r.booleanValue.value)
    else if r.ratingValue.Some? then JNum(r.ratingValue.value)
    else if r.intValue.Some? then JNum(r.intValue.value as real)
    else if r.tagsValue.Some? && |r.tagsValue.value| > 0 then Strings(r.tagsValue.value)
    else if r.numericMin.Some? || r.numericMax.Some? then
      if r.numericMin.Some? && r.numericMax.Some? then
        JObj([("min", JNum(r.numericMin.value)), ("max", JNum(r.numericMax.value))])
      else JNum(r.numericMin.OrElse(r.numericMax).value)
    else if r.textValue.Some? && r.textValue.value != [] then JStr(r.textValue.value)
    else if r.scheduleValue.Some? && Truthy(r.scheduleValue.value) then r.scheduleValue.value
    else JNull
  }

  function BoundJson(b: Option<real>): Json {
    if b.Some? then JNum(b.value) else JNull
  }

  /**
   * The decoder with the range slot always read back as `{min, max}`, a missing
   * bound as `null`, so that a one-sided range survives re-normalisation.
   */
  function DenormaliseBounds(r: Row): (v: Json)
    ensures !IsHalfOpen(r) ==> v == Denormalise(r)
  {
    if r.booleanValue.Some? || r.ratingValue.Some? || r.intValue.Some?
       || (r.tagsValue.Some? && |r.tagsValue.value| > 0)
       || !(r.numericMin.Some? || r.numericMax.Some?)
    then Denormalise(r)
    else JObj([("min", BoundJson(r.numericMin)), ("max", BoundJson(r.numericMax))])
  }

  // ---------------------------------------------------------------------------
  // Properties

  /** A boolean, or a string that trims and lower-cases to one of the eight words, and nothing else. */
  lemma BooleanAccepts(value: Json)
    ensures Normalise(value, Some("boolean")).Some? <==>
      value.JBool? || (value.JStr? && (Lower(Trim(value.s)) in TrueWords || Lower(Trim(value.s)) in FalseWords))
    ensures Normalise(value, Some("boolean")).Some? ==>
      Normalise(value, Some("boolean")).value.booleanValue == Some((value.JBool? && value.b) || (value.JStr? && Lower(Trim(value.s)) in TrueWords))
  {
    if value.JStr? {
      WordsDisjoint(Lower(Trim(value.s)));
    }
  }

  lemma WordsDisjoint(w: string)
    ensures !(w in TrueWords && w in FalseWords)
  {
  }

  /** An integer attribute stores the rounded number, from a number or a non-blank numeric string. */
  lemma IntegerRounds(value: Json)
    ensures Normalise(value, Some("integer")).Some? <==> value.JNum? || (value.JStr? && Trim(value.s) != [] && JsNumber(value.s).Some?)
    ensures value.JNum? ==> Normalise(value, Some("integer")) == Some(EmptyRow.(intValue := Some(JsRound(value.n))))
  {
  }

  /** A rating keeps any number as it is, with no 1 to 5 check. */
  lemma RatingKeepsNumber(x: real)
    ensures Normalise(JNum(x), Some("rating")) == Some(EmptyRow.(ratingValue := Some(x)))
    ensures forall v: Json :: !v.JNum? ==> Normalise(v, Some("rating")).None?
  {
  }

  /** A text attribute needs a string that is not blank, and stores it trimmed. */
  lemma TextTrims(value: Json)
    ensures Normalise(value, Some("text")).Some? <==> value.JStr? && Trim(value.s) != []
    ensures Normalise(value, Some("text")).Some? ==> Normalise(value, Some("text")).value.textValue == Some(Trim(value.s))
  {
    assert Normalise(value, Some("text")) == NormaliseText(value);
  }

  /** A range is rejected exactly when neither bound resolves, and the bounds are whole numbers. */
  lemma RangeBoundsRounded(value: Json)
    ensures Normalise(value, Some("integer_range")).Some? ==>
      var r := Normalise(value, Some("integer_range")).value;
      (r.numericMin.Some? || r.numericMax.Some?)
      && (r.numericMin.Some? ==> IsWhole(r.numericMin.value))
      && (r.numericMax.Some? ==> IsWhole(r.numericMax.value))
  {
  }

  /** A range with two numeric properties in the object form keeps them rounded. */
  lemma RangeFromObject(a: real, b: real)
    ensures Normalise(JObj([("min", JNum(a)), ("max", JNum(b))]), Some("integer_range"))
      == Some(EmptyRow.(numericMin := Some(JsRound(a) as real), numericMax := Some(JsRound(b) as real)))
  {
    GetOfPair("min", JNum(a), "max", JNum(b), "min");
    GetOfPair("min", JNum(a), "max", JNum(b), "max");
  }

  /** The "from"/"to" and "start"/"end" spellings are read when "min"/"max" are missing. */
  lemma RangeAliases(a: real, b: real)
    ensures Normalise(JObj([("from", JNum(a)), ("end", JNum(b))]), Some("integer_range"))
      == Some(EmptyRow.(numericMin := Some(JsRound(a) as real), numericMax := Some(JsRound(b) as real)))
  {
    var o := JObj([("from", JNum(a)), ("end", JNum(b))]);
    GetOfPair("from", JNum(a), "end", JNum(b), "min");
    GetOfPair("from", JNum(a), "end", JNum(b), "from");
    GetOfPair("from", JNum(a), "end", JNum(b), "max");
    GetOfPair("from", JNum(a), "end", JNum(b), "to");
    GetOfPair("from", JNum(a), "end", JNum(b), "end");
  }

  /** A bare number under an unknown type is stored unrounded as both bounds. */
  lemma InferredNumber(x: real, t: Option<string>)
    requires t.None? || !IsDeclaredTypeName(t.value)
    ensures Normalise(JNum(x), t) == Some(EmptyRow.(numericMin := Some(x), numericMax := Some(x)))
  {
  }

  lemma JsRoundInt(i: int)
    ensures JsRound(i as real) == i
  {
  }

  /** Both decoders read a well-formed row's one slot, so each gives a non-null value. */
  lemma DecodersNonNull(r: Row)
    requires IsNormalRow(r)
    ensures Denormalise(r) != JNull && DenormaliseBounds(r) != JNull
  {
  }

  /**
   * The corrected decoder inverts the encoder: re-normalising the decoded value of
   * an accepted value under the same declared data type gives back the same row.
   */
  lemma DeclaredRoundTrip(value: Json, t: string)
    requires IsDeclaredTypeName(t)
    requires Normalise(value, Some(t)).Some?
    ensures Normalise(DenormaliseBounds(Normalise(value, Some(t)).value), Some(t)) == Normalise(value, Some(t))
  {
    var r := Normalise(value, Some(t)).value;
    var d := DenormaliseBounds(r);
    if t == "integer" {
      assert r == NormaliseInteger(value).value;
      IntegerRoundTrip(value);
    } else if t == "integer_range" {
      assert r == NormaliseRange(value).value;
      RangeBoundsRounded(value);
      RangeRoundTrip(r);
    } else if t == "tag_set" {
      assert r == NormaliseTags(value).value;
      TagsRoundTrip(r.tagsValue.value);
    } else if t == "text" {
      assert r == NormaliseText(value).value;
      TrimOfTrimmed(r.textValue.value);
    }
  }

  lemma IntegerRoundTrip(value: Json)
    requires NormaliseInteger(value).Some?
    ensures NormaliseInteger(Denormalise(NormaliseInteger(value).value)) == NormaliseInteger(value)
  {
    JsRoundInt(NormaliseInteger(value).value.intValue.value);
  }

  lemma RangeRoundTrip(r: Row)
    requires r == EmptyRow.(numericMin := r.numericMin, numericMax := r.numericMax)
    requires r.numericMin.Some? || r.numericMax.Some?
    requires r.numericMin.Some? ==> IsWhole(r.numericMin.value)
    requires r.numericMax.Some? ==> IsWhole(r.numericMax.value)
    ensures NormaliseRange(DenormaliseBounds(r)) == Some(r)
  {
    var d := DenormaliseBounds(r);
    if r.numericMin.Some? {
      JsRoundWhole(r.numericMin.value);
    }
    if r.numericMax.Some? {
      JsRoundWhole(r.numericMax.value);
    }
    assert d == JObj([("min", BoundJson(r.numericMin)), ("max", BoundJson(r.numericMax))]);
    GetOfPair("min", BoundJson(r.numericMin), "max", BoundJson(r.numericMax), "min");
    GetOfPair("min", BoundJson(r.numericMin), "max", BoundJson(r.numericMax), "from");
    GetOfPair("min", BoundJson(r.numericMin), "max", BoundJson(r.numericMax), "start");
    GetOfPair("min", BoundJson(r.numericMin), "max", BoundJson(r.numericMax), "max");
    GetOfPair("min", BoundJson(r.numericMin), "max", BoundJson(r.numericMax), "to");
    GetOfPair("min", BoundJson(r.numericMin), "max", BoundJson(r.numericMax), "end");
  }

  lemma TagsRoundTrip(tags: seq<string>)
    requires |tags| > 0 && forall k :: 0 <= k < |tags| ==> tags[k] != [] && IsTrimmed(tags[k])
    ensures CleanTags(ItemStrings(Strings(tags).items)) == tags
  {
    assert ItemStrings(Strings(tags).items) == tags;
    CleanTagsOfClean(tags);
  }

  /**
   * The decoder as written inverts the encoder on every accepted row that is not
   * a one-sided range: there it agrees with the corrected decoder.
   */
  lemma DeclaredRoundTripAsWritten(value: Json, t: string)
    requires IsDeclaredTypeName(t)
    requires Normalise(value, Some(t)).Some? && !IsHalfOpen(Normalise(value, Some(t)).value)
    ensures Normalise(Denormalise(Normalise(value, Some(t)).value), Some(t)) == Normalise(value, Some(t))
  {
    DeclaredRoundTrip(value, t);
  }

  /**
   * Under an unknown data type every accepted value except a bare number also
   * round-trips; a number is stored as `{min, max}` and comes back as an object.
   */
  lemma InferredRoundTrip(value: Json, t: Option<string>)
    requires t.None? || !IsDeclaredTypeName(t.value)
    requires Normalise(value, t).Some? && !value.JNum?
    ensures Normalise(Denormalise(Normalise(value, t).value), t) == Normalise(value, t)
  {
    var r := Normalise(value, t).value;
    if value.JArr? {
      TagsRoundTrip(r.tagsValue.value);
    } else if value.JStr? {
      TrimOfTrimmed(r.textValue.value);
    }
  }

  /** Under an unknown data type a number does not come back: its decoded form is stored as a schedule. */
  lemma InferredNumberBecomesSchedule(x: real)
    ensures Normalise(Denormalise(Normalise(JNum(x), None).value), None)
      == Some(EmptyRow.(scheduleValue := Some(JObj([("min", JNum(x)), ("max", JNum(x))]))))
  {
  }

  /**
   * The decoder as written loses which bound of a one-sided range was set: the
   * two-element array `[5]` normalises to `min = 5` with no maximum, decodes to
   * the bare number 5, and that normalises to `min = max = 5`.
   */
  lemma HalfOpenRangeNotInverted()
    ensures var r := Normalise(JArr([JNum(5.0)]), Some("integer_range")).value;
      r.numericMin == Some(5.0) && r.numericMax.None?
      && Denormalise(r) == JNum(5.0)
      && Normalise(Denormalise(r), Some("integer_range")) == Some(EmptyRow.(numericMin := Some(5.0), numericMax := Some(5.0)))
      && Normalise(Denormalise(r), Some("integer_range")) != Some(r)
  {
    var r := Normalise(JArr([JNum(5.0)]), Some("integer_range")).value;
    assert JsRound(5.0) == 5;
    assert r == EmptyRow.(numericMin := Some(5.0));
  }

  /** A minimum-only and a maximum-only range decode to the same value under the decoder as written. */
  lemma HalfOpenRangesIndistinguishable(x: real)
    ensures Denormalise(EmptyRow.(numericMin := Some(x))) == Denormalise(EmptyRow.(numericMax := Some(x)))
    ensures DenormaliseBounds(EmptyRow.(numericMin := Some(x))) != DenormaliseBounds(EmptyRow.(numericMax := Some(x)))
  {
    assert DenormaliseBounds(EmptyRow.(numericMin := Some(x))).fields[0].1 == JNum(x);
  }
}
