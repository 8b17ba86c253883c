/**
 * The read side of the site: decoding attribute rows for the pub page,
 * serialising decoded values, the search-text escaping and filter clauses of
 * the locality query, and the sample-data fallbacks for localities, locality
 * pages and search.
 */
module Queries {
  import opened Wrappers
  import opened Text
  import opened JsonValue
  import opened ValueCodec
  import opened Sorting
  import opened LocalityResults

  // ---------------------------------------------------------------------------
  // Decoded attributes

  /** The `attributes(code, label, data_type)` part of an attribute row. */
  datatype AttributeMeta = AttributeMeta(code: Option<string>, labelText: Option<string>, dataType: Option<string>)

  /** A `pub_attribute_values` row with its joined attribute, which may be missing. */
  datatype AttributeRecord = AttributeRecord(row: Row, meta: Option<AttributeMeta>)

  /** `PubAttribute`: the value is a boolean, number, string, list of strings or `null`. */
  datatype PubAttribute = PubAttribute(code: string, labelText: string, typeName: string, value: Json, display: Option<string>)

  /** A row whose attribute has a non-empty code; the others are dropped. */
  predicate HasCode(rec: AttributeRecord) {
    rec.meta.Some? && rec.meta.value.code.Some? && rec.meta.value.code.value != ""
  }

  /** The values a decoded attribute can hold. */
  predicate IsAttributeValue(v: Json) {
    match v
    case JObj(_) => false
    case JArr(items) => forall k :: 0 <= k < |items| ==> items[k].JStr?
    case _ => true
  }

  /** `${min} – ${max}`. */
  function RangeText(min: real, max: real): string {
    NumberText(min) + " \U{2013} " + NumberText(max)
  }

  /**
   * The display the pub page evidently intends for a range slot whose
   * coalesced bounds are `min` and `max`: both bounds whenever they differ,
   * otherwise the one number.
   */
  function RangeDisplay(min: real, max: real): (d: string)
    ensures IsPrefix(NumberText(min), d)
    ensures |d| > |NumberText(min)| <==> min != max
  {
    if min != max then RangeText(min, max) else NumberText(min)
  }

  /**
   * The pub page's display of a range slot as written: `min && max && min !== max`
   * tests the bounds for truthiness, so a zero bound shows only the lower bound.
   */
  function DetailRangeDisplay(min: real, max: real): (d: string)
    ensures min != 0.0 && max != 0.0 ==> d == RangeDisplay(min, max)
  {
    if min != 0.0 && max != 0.0 && min != max then RangeText(min, max) else NumberText(min)
  }

  /** The page as written shows less than intended exactly for two different bounds one of which is zero. */
  lemma DetailRangeDisplayDiffers(min: real, max: real)
    ensures DetailRangeDisplay(min, max) != RangeDisplay(min, max) <==> min != max && (min == 0.0 || max == 0.0)
  {
    if min != max && (min == 0.0 || max == 0.0) {
      assert |RangeDisplay(min, max)| > |DetailRangeDisplay(min, max)|;
    }
  }

  /** A range from 0 to 1500 shows as "0" on the pub page. */
  lemma ZeroBoundHidesRange()
    ensures DetailRangeDisplay(0.0, 1500.0) == "0"
    ensures RangeDisplay(0.0, 1500.0) == "0 \U{2013} 1500"
  {
    assert NatToString(0) == "0";
    assert NatToString(1500) == "1500" by {
      assert NatToString(150) == "150" by {
        assert NatToString(15) == "15" by {
          assert NatToString(1) == "1";
        }
      }
    }
  }

  /**
   * The value and display text `getPubDetail` decodes from a row, by the
   * priority boolean > rating > non-empty tags > range > non-empty text > int >
   * truthy schedule; a row with none of these gives `null` and no display.
   */
  function DetailValue(r: Row): (d: (Json, Option<string>))
    ensures IsAttributeValue(d.0)
    ensures d.1.None? <==> d.0.JNull?
  {
    if r.booleanValue.Some? then (JBool(r.booleanValue.value), Some(if r.booleanValue.value then "Yes" else "No"))
    else if r.ratingValue.Some? then (JNum(r.ratingValue.value), Some(NumberText(r.ratingValue.value) + "/5"))
    else if r.tagsValue.Some? && |r.tagsValue.value| > 0 then (Strings(r.tagsValue.value), Some(Join(r.tagsValue.value, ", ")))
    else if r.numericMin.Some? || r.numericMax.Some? then
      var min := r.numericMin.OrElse(r.numericMax).value;
      var max := r.numericMax.OrElse(r.numericMin).value;
      (JNum(min), Some(DetailRangeDisplay(min, max)))
    else if r.textValue.Some? && r.textValue.value != [] then (JStr(r.textValue.value), Some(r.textValue.value))
    else if r.intValue.Some? then (JNum(r.intValue.value as real), Some(IntToString(r.intValue.value)))
    else if r.scheduleValue.Some? && Truthy(r.scheduleValue.value) then (JStr(Stringify(r.scheduleValue.value)), Some("See schedule"))
    else (JNull, None)
  }

  /** `serialiseAttributeValue`: the display text of a decoded value. */
  function SerialiseAttributeValue(value: Json, typeName: string): (s: Option<string>)
    requires IsAttributeValue(value)
    ensures s.None? <==> value.JNull? || value == JArr([])
    ensures value.JStr? ==> s == Some(value.s)
    ensures value.JBool? ==> s == Some(if value.b then "Yes" else "No")
  {
    match value
    case JNull => None
    case JArr(items) => if |items| > 0 then Some(Join(seq(|items|, k requires 0 <= k < |items| => items[k].s), ", ")) else None
    case JBool(b) => Some(if b then "Yes" else "No")
    case JNum(n) => if typeName == "rating" then Some(NumberText(n) + "/5") else Some(NumberText(n))
    case JStr(s) => Some(s)
  }

  /** The serialised fallback agrees with the decoder's own display wherever both speak. */
  lemma SerialiseAgreesWithDisplay(r: Row)
    requires r.booleanValue.Some? || (r.booleanValue.None? && r.ratingValue.Some?)
    ensures SerialiseAttributeValue(DetailValue(r).0, "rating") == DetailValue(r).1
  {
  }

  /** The type a decoded attribute reports: its data type, "text" when there is none. */
  function TypeNameOf(meta: AttributeMeta): string {
    meta.dataType.GetOr("text")
  }

  /**
   * One entry of `getPubDetail`'s attribute list: `None` for a row without a
   * code; the label defaults to the code and the type to "text"; a missing
   * display falls back to the serialised value.
   */
  function DecodeDetail(rec: AttributeRecord): (a: Option<PubAttribute>)
    ensures a.None? <==> !HasCode(rec)
    ensures a.Some? ==>
      (a.value.code == rec.meta.value.code.value
       && a.value.labelText == rec.meta.value.labelText.GetOr(a.value.code)
       && a.value.typeName == TypeNameOf(rec.meta.value)
       && a.value.value == DetailValue(rec.row).0)
    ensures a.Some? ==> (a.value.display.None? <==> a.value.value.JNull?)
  {
    if !HasCode(rec) then None
    else
      var meta := rec.meta.value;
      var d := DetailValue(rec.row);
      var display := if d.1.Some? then d.1 else SerialiseAttributeValue(d.0, TypeNameOf(meta));
      Some(PubAttribute(meta.code.value, meta.labelText.GetOr(meta.code.value), TypeNameOf(meta), d.0, display))
  }

  /** `getPubDetail`'s attribute list: the rows with a code, decoded, in their order. */
  function DetailAttributes(recs: seq<AttributeRecord>): (attrs: seq<PubAttribute>)
    ensures |attrs| <= |recs|
    ensures forall a :: a in attrs ==> exists k :: 0 <= k < |recs| && DecodeDetail(recs[k]) == Some(a)
  {
    if recs == [] then []
    else
      var rest := DetailAttributes(recs[1..]);
      assert forall a :: a in rest ==> exists k :: 0 <= k < |recs| && DecodeDetail(recs[k]) == Some(a) by {
        forall a | a in rest ensures exists k :: 0 <= k < |recs| && DecodeDetail(recs[k]) == Some(a) {
          var k :| 0 <= k < |recs[1..]| && DecodeDetail(recs[1..][k]) == Some(a);
          assert recs[k + 1] == recs[1..][k];
        }
      }
      var head := DecodeDetail(recs[0]);
      if head.Some? then [head.value] + rest else rest
  }

  /** Every row with a code contributes its decoded entry. */
  lemma {:induction false} DetailAttributesComplete(recs: seq<AttributeRecord>, k: int)
    requires 0 <= k < |recs| && HasCode(recs[k])
    ensures DecodeDetail(recs[k]).value in DetailAttributes(recs)
  {
    if k > 0 {
      assert recs[1..][k - 1] == recs[k];
      DetailAttributesComplete(recs[1..], k - 1);
    }
  }

  /**
   * On a well-formed row the page decodes the stored value as the codec's
   * decoder does, except that a range shows its lower (or only) bound and a
   * schedule its JSON text.
   */
  lemma DetailOfNormalRow(r: Row)
    requires IsNormalRow(r)
    ensures (r.numericMin.Some? || r.numericMax.Some?) ==> DetailValue(r).0 == JNum(r.numericMin.OrElse(r.numericMax).value)
    ensures r.scheduleValue.Some? ==> DetailValue(r).0 == JStr(Stringify(r.scheduleValue.value))
    ensures !(r.numericMin.Some? || r.numericMax.Some?) && r.scheduleValue.None? ==> DetailValue(r).0 == Denormalise(r)
  {
  }

  // ---------------------------------------------------------------------------
  // Search escaping

  /** `replace(/%/g, "\\%").replace(/_/g, "\\_")`: the two LIKE wildcards get a backslash. */
  function EscapeLike(s: string): (r: string)
    ensures |r| >= |s|
  {
    if s == [] then ""
    else (if s[0] == '%' || s[0] == '_' then ['\\', s[0]] else [s[0]]) + EscapeLike(s[1..])
  }

  /** A piece of a LIKE pattern: a literal character, `%` (any run) or `_` (any one character). */
  datatype LikeToken = Literal(c: char) | AnyRun | AnyOne

  /**
   * How PostgreSQL reads a LIKE pattern (section 9.7.1 of its manual): a
   * backslash makes the next character literal, and a pattern may not end in
   * one.
   */
  function LikeTokens(p: string): Option<seq<LikeToken>>
    decreases |p|
  {
    if p == [] then Some([])
    else if p[0] == '\\' then
      if |p| == 1 then None
      else
        var rest := LikeTokens(p[2..]);
        if rest.Some? then Some([Literal(p[1])] + rest.value) else None
    else
      var rest := LikeTokens(p[1..]);
      if rest.None? then None
      else if p[0] == '%' then Some([AnyRun] + rest.value)
      else if p[0] == '_' then Some([AnyOne] + rest.value)
      else Some([Literal(p[0])] + rest.value)
  }

  /** Every character of `s`, read literally. */
  function Literals(s: string): (ts: seq<LikeToken>)
    ensures |ts| == |s| && forall k :: 0 <= k < |s| ==> ts[k] == Literal(s[k])
  {
    seq(|s|, k requires 0 <= k < |s| => Literal(s[k]))
  }

  /** A search text ending in a backslash and a percent sign keeps a live wildcard after escaping. */
  lemma EscapeLikeMissesBackslash()
    ensures EscapeLike("a\\%") == "a\\\\%"
    ensures LikeTokens(EscapeLike("a\\%")) == Some([Literal('a'), Literal('\\'), AnyRun])
    ensures LikeTokens(EscapeLike("a\\%")) != Some(Literals("a\\%"))
  {
    var p := "a\\\\%";
    assert p[1..] == "\\\\%" && p[1..][2..] == "%" && "%"[1..] == [];
    assert LikeTokens([]) == Some([]);
    assert [AnyRun] + [] == [AnyRun];
    assert LikeTokens("%") == Some([AnyRun]);
    assert [Literal('\\')] + [AnyRun] == [Literal('\\'), AnyRun];
    assert LikeTokens("\\\\%") == Some([Literal('\\'), AnyRun]);
    assert [Literal('a')] + [Literal('\\'), AnyRun] == [Literal('a'), Literal('\\'), AnyRun];
    assert Literals("a\\%")[2] == Literal('%');
  }

  /** The escaping the search evidently intends: backslashes are escaped as well as the wildcards. */
  function EscapeLikeFixed(s: string): (r: string)
    ensures LikeTokens(r) == Some(Literals(s))
  {
    if s == [] then ""
    else
      var head := if s[0] == '%' || s[0] == '_' || s[0] == '\\' then ['\\', s[0]] else [s[0]];
      var rest := EscapeLikeFixed(s[1..]);
      assert (head + rest)[|head|..] == rest;
      assert Literals(s) == [Literal(s[0])] + Literals(s[1..]);
      head + rest
  }

  /** Escaping only adds backslashes: without one in the text, the fixed escaping is the original. */
  lemma {:induction false} EscapeLikeFixedAgrees(s: string)
    requires '\\' !in s
    ensures EscapeLikeFixed(s) == EscapeLike(s)
  {
    if s != [] {
      assert '\\' !in s[1..] by {
        assert forall k :: 0 <= k < |s[1..]| ==> s[1..][k] == s[k + 1];
      }
      EscapeLikeFixedAgrees(s[1..]);
    }
  }

  // ---------------------------------------------------------------------------
  // The locality query's filter clauses

  /** The options of a locality query; an absent field is `None`, an absent flag `false`. */
  datatype LocalityQueryOptions = LocalityQueryOptions(
    search: Option<string>,
    minCost: Option<real>,
    maxCost: Option<real>,
    wifi: bool,
    valet: bool,
    coverRedeemable: bool,
    sort: Option<SortOrder>,
    limit: Option<int>)

  /** `DEFAULT_OPTIONS`. */
  const DefaultSort: SortOrder := RatingDesc
  const DefaultLimit: int := 60

  /** The `pubs` columns the query filters and orders by. */
  datatype Column = AverageRating | ReviewCount | CostForTwoMin | CostForTwoMax | WifiAvailable | ValetAvailable | CoverChargeRedeemable

  /** A column's name in the database. */
  function ColumnName(c: Column): string {
    match c
    case AverageRating => "average_rating"
    case ReviewCount => "review_count"
    case CostForTwoMin => "cost_for_two_min"
    case CostForTwoMax => "cost_for_two_max"
    case WifiAvailable => "wifi_available"
    case ValetAvailable => "valet_available"
    case CoverChargeRedeemable => "cover_charge_redeemable"
  }

  /**
   * A filter the query builder adds. `OrFilter(term)` is the `or` filter built
   * from the trimmed search text `term`, whose text is `OrFilterText(term)`.
   */
  datatype Clause =
    | OrFilter(term: string)
    | AtLeast(column: Column, bound: real)
    | AtMost(column: Column, bound: real)
    | IsTrue(column: Column)
    | OrderBy(column: Column, ascending: bool, nullsLast: bool)

  /** The `or` filter a search text becomes: a case-insensitive match on name or description. */
  function SearchFilter(escaped: string): string {
    "name.ilike.%" + escaped + "%,description.ilike.%" + escaped + "%"
  }

  /** The text of the `or` filter for a trimmed search text, as the query builds it: the wildcards escaped inside both patterns. */
  function OrFilterText(term: string): string {
    SearchFilter(EscapeLike(term))
  }

  /** The `or` filter text the search evidently intends, with backslashes escaped too. */
  function OrFilterTextFixed(term: string): string {
    SearchFilter(EscapeLikeFixed(term))
  }

  /** Without a backslash in the search text the query's filter is the intended one. */
  lemma OrFilterTextAgrees(term: string)
    requires '\\' !in term
    ensures OrFilterText(term) == OrFilterTextFixed(term)
  {
    EscapeLikeFixedAgrees(term);
  }

  /** The search text `a\%` yields a filter whose patterns still hold a live wildcard. */
  lemma OrFilterMissesBackslash()
    ensures OrFilterText("a\\%") == SearchFilter("a\\\\%")
    ensures LikeTokens(EscapeLike("a\\%")) != Some(Literals("a\\%"))
  {
    EscapeLikeMissesBackslash();
  }

  /** The column and direction each sort orders the database rows by. */
  function OrderClause(s: SortOrder): (c: Clause)
    ensures c.OrderBy? && c.nullsLast
  {
    match s
    case RatingAsc => OrderBy(AverageRating, true, true)
    case ReviewsDesc => OrderBy(ReviewCount, false, true)
    case CostAsc => OrderBy(CostForTwoMin, true, true)
    case CostDesc => OrderBy(CostForTwoMax, false, true)
    case RatingDesc => OrderBy(AverageRating, false, true)
  }

  /** The search clause: present for a non-blank search text, which is trimmed and escaped. */
  function SearchClauses(o: LocalityQueryOptions): (cs: seq<Clause>)
    ensures cs != [] <==> o.search.Some? && Trim(o.search.value) != ""
  {
    if o.search.Some? && Trim(o.search.value) != "" then [OrFilter(Trim(o.search.value))]
    else []
  }

  /** `if (c) query = query.filter(clause)`: the clause when `c` holds, nothing otherwise. */
  function When(c: bool, clause: Clause): (cs: seq<Clause>)
    ensures clause in cs <==> c
    ensures forall x :: x in cs ==> x == clause
  {
    if c then [clause] else []
  }

  /** The search clause and the cost bounds and amenity flags, in the order they are added. */
  function FilterClauses(o: LocalityQueryOptions): seq<Clause> {
    SearchClauses(o)
    + When(o.minCost.Some?, AtLeast(CostForTwoMin, o.minCost.GetOr(0.0)))
    + When(o.maxCost.Some?, AtMost(CostForTwoMax, o.maxCost.GetOr(0.0)))
    + When(o.wifi, IsTrue(WifiAvailable))
    + When(o.valet, IsTrue(ValetAvailable))
    + When(o.coverRedeemable, IsTrue(CoverChargeRedeemable))
  }

  /** All the clauses a locality query's options add: the filters, then the ordering. */
  function QueryClauses(o: LocalityQueryOptions): seq<Clause> {
    FilterClauses(o) + [OrderClause(o.sort.GetOr(DefaultSort))]
  }

  /**
   * `applyFiltersToQuery`: no options add nothing; otherwise a non-blank search
   * text, the cost bounds, the three amenity flags, and last one ordering
   * clause, "rating_desc" when no sort is given.
   */
  method ApplyFiltersToQuery(options: Option<LocalityQueryOptions>) returns (next: seq<Clause>)
    ensures options.None? ==> next == []
    ensures options.Some? ==> next == QueryClauses(options.value)
  {
    next := [];
    if options.None? {
      return;
    }
    var o := options.value;
    if o.search.Some? && o.search.value != "" {
      var searchTerm := Trim(o.search.value);
      if |searchTerm| > 0 {
        next := next + [OrFilter(searchTerm)];
      }
    } else if o.search.Some? {
      assert Trim(o.search.value) == "";
    }
    assert next == SearchClauses(o);
    next := next + When(o.minCost.Some?, AtLeast(CostForTwoMin, o.minCost.GetOr(0.0)));
    next := next + When(o.maxCost.Some?, AtMost(CostForTwoMax, o.maxCost.GetOr(0.0)));
    next := next + When(o.wifi, IsTrue(WifiAvailable));
    next := next + When(o.valet, IsTrue(ValetAvailable));
    next := next + When(o.coverRedeemable, IsTrue(CoverChargeRedeemable));
    next := next + [OrderClause(o.sort.GetOr(DefaultSort))];
  }

  /** A filter clause is the search clause or one of the bounds and flags the options set. */
  lemma FilterMember(o: LocalityQueryOptions, c: Clause)
    requires c in FilterClauses(o)
    ensures c in SearchClauses(o)
      || (o.minCost.Some? && c == AtLeast(CostForTwoMin, o.minCost.value))
      || (o.maxCost.Some? && c == AtMost(CostForTwoMax, o.maxCost.value))
      || (o.wifi && c == IsTrue(WifiAvailable))
      || (o.valet && c == IsTrue(ValetAvailable))
      || (o.coverRedeemable && c == IsTrue(CoverChargeRedeemable))
  {
  }

  /** Exactly one ordering clause, and it comes last. */
  lemma QueryOrderLast(o: LocalityQueryOptions)
    ensures var cs := QueryClauses(o);
      cs[|cs| - 1] == OrderClause(o.sort.GetOr(DefaultSort)) && forall k :: 0 <= k < |cs| - 1 ==> !cs[k].OrderBy?
  {
    var cs := QueryClauses(o);
    forall k | 0 <= k < |cs| - 1 ensures !cs[k].OrderBy? {
      assert cs[k] == FilterClauses(o)[k];
      FilterMember(o, cs[k]);
    }
  }

  /** A search clause is there exactly for a non-blank search text, and then it comes first. */
  lemma QuerySearchFirst(o: LocalityQueryOptions)
    ensures var cs := QueryClauses(o);
      ((exists k :: 0 <= k < |cs| && cs[k].OrFilter?) <==> o.search.Some? && Trim(o.search.value) != "")
      && (o.search.Some? && Trim(o.search.value) != "" ==> cs[0] == OrFilter(Trim(o.search.value)))
  {
    var cs := QueryClauses(o);
    forall k | 0 <= k < |cs| && cs[k].OrFilter? ensures SearchClauses(o) != [] {
      if k < |cs| - 1 {
        assert cs[k] == FilterClauses(o)[k];
        FilterMember(o, cs[k]);
      }
    }
    if SearchClauses(o) != [] {
      assert cs[0] == SearchClauses(o)[0];
    }
  }

  /** The lower cost bound adds its clause exactly when it is given. */
  lemma QueryMinCost(o: LocalityQueryOptions, x: real)
    ensures AtLeast(CostForTwoMin, x) in QueryClauses(o) <==> o.minCost == Some(x)
  {
    if AtLeast(CostForTwoMin, x) in QueryClauses(o) {
      FilterMember(o, AtLeast(CostForTwoMin, x));
    }
  }

  /** The upper cost bound adds its clause exactly when it is given. */
  lemma QueryMaxCost(o: LocalityQueryOptions, x: real)
    ensures AtMost(CostForTwoMax, x) in QueryClauses(o) <==> o.maxCost == Some(x)
  {
    if AtMost(CostForTwoMax, x) in QueryClauses(o) {
      FilterMember(o, AtMost(CostForTwoMax, x));
    }
  }

  /** Each amenity flag adds its clause exactly when it is set. */
  lemma QueryFlag(o: LocalityQueryOptions, column: Column)
    requires column in {WifiAvailable, ValetAvailable, CoverChargeRedeemable}
    ensures IsTrue(column) in QueryClauses(o) <==>
      (if column == WifiAvailable then o.wifi else if column == ValetAvailable then o.valet else o.coverRedeemable)
  {
    if IsTrue(column) in QueryClauses(o) {
      FilterMember(o, IsTrue(column));
    }
  }

  /** Both patterns of the intended `or` filter match the search text literally, wildcard characters included. */
  lemma SearchIsLiteral(term: string)
    ensures var escaped := EscapeLikeFixed(term);
      OrFilterTextFixed(term) == "name.ilike.%" + escaped + "%,description.ilike.%" + escaped + "%"
      && LikeTokens(escaped) == Some(Literals(term))
  {
  }

  // ---------------------------------------------------------------------------
  // Sample-data fallbacks

  /** A locality as the sample fallback builds it from a slug. */
  datatype Locality = Locality(id: string, name: string, slug: string, city: string, state: string)

  /** `segment.charAt(0).toUpperCase() + segment.slice(1)`. */
  function Capitalize(segment: string): (r: string)
    ensures |r| == |segment|
  {
    if segment == [] then [] else [UpperChar(segment[0])] + segment[1..]
  }

  function CapitalizeAll(parts: seq<string>): (r: seq<string>)
    ensures |r| == |parts| && forall k :: 0 <= k < |parts| ==> r[k] == Capitalize(parts[k])
  {
    seq(|parts|, k requires 0 <= k < |parts| => Capitalize(parts[k]))
  }

  /** The name of a locality: each "-"-separated segment capitalised, joined with spaces. */
  function LocalityName(slug: string): string {
    Join(CapitalizeAll(Split(slug, '-')), " ")
  }

  /**
   * The same name, character by character: a hyphen becomes a space, the first
   * character and every character after a hyphen is upper-cased.
   */
  function NameChars(slug: string): (r: string)
    ensures |r| == |slug|
  {
    seq(|slug|, k requires 0 <= k < |slug| =>
      if slug[k] == '-' then ' ' else if k == 0 || slug[k - 1] == '-' then UpperChar(slug[k]) else slug[k])
  }

  /** The split/capitalise/join recipe is the character-wise rule. */
  lemma {:induction false} LocalityNameChars(slug: string)
    ensures LocalityName(slug) == NameChars(slug)
    decreases |slug|
  {
    var i := IndexOf(slug, '-');
    if i == |slug| {
      OneSegmentName(slug);
    } else {
      LocalityNameChars(slug[i + 1..]);
      SegmentThenRest(slug, i);
    }
  }

  /** A slug without a hyphen is one capitalised segment. */
  lemma OneSegmentName(slug: string)
    requires IndexOf(slug, '-') == |slug|
    ensures LocalityName(slug) == NameChars(slug)
  {
    assert Split(slug, '-') == [slug];
    assert CapitalizeAll([slug]) == [Capitalize(slug)];
    CapitalizeWithoutHyphen(slug);
  }

  /** The name of a slug is its first segment's name, a space, and the name of the rest. */
  lemma SegmentThenRest(slug: string, i: nat)
    requires i == IndexOf(slug, '-') && i < |slug|
    requires LocalityName(slug[i + 1..]) == NameChars(slug[i + 1..])
    ensures LocalityName(slug) == NameChars(slug)
  {
    var head, rest := slug[..i], slug[i + 1..];
    var parts := Split(rest, '-');
    SplitAt(slug, '-', i);
    JoinCapitalized(head, parts);
    assert LocalityName(slug) == Capitalize(head) + " " + LocalityName(rest);
    CapitalizeWithoutHyphen(head);
    NameCharsSplit(slug, i);
  }

  /** Within one segment, capitalising is the character-wise rule. */
  lemma CapitalizeWithoutHyphen(segment: string)
    requires forall k :: 0 <= k < |segment| ==> segment[k] != '-'
    ensures Capitalize(segment) == NameChars(segment)
  {
  }

  lemma JoinCapitalized(head: string, parts: seq<string>)
    requires |parts| >= 1
    ensures Join(CapitalizeAll([head] + parts), " ") == Capitalize(head) + " " + Join(CapitalizeAll(parts), " ")
  {
    var all := CapitalizeAll([head] + parts);
    assert all == [Capitalize(head)] + CapitalizeAll(parts);
    assert all[1..] == CapitalizeAll(parts);
  }

  /** At the first hyphen, the character-wise rule splits into the segment's and the rest's. */
  lemma NameCharsSplit(slug: string, i: nat)
    requires i < |slug| && slug[i] == '-'
    requires forall j :: 0 <= j < i ==> slug[j] != '-'
    ensures NameChars(slug) == NameChars(slug[..i]) + " " + NameChars(slug[i + 1..])
  {
    var rest := slug[i + 1..];
    var n := NameChars(slug);
    var m := NameChars(slug[..i]) + " " + NameChars(rest);
    forall k | 0 <= k < |n| ensures n[k] == m[k] {
      if k > i + 1 {
        assert slug[k] == rest[k - i - 1];
        assert slug[k - 1] == rest[k - i - 2];
      } else if k == i + 1 {
        assert slug[k] == rest[0];
      }
    }
  }

  /** The locality record for a slug, in the fixed city and state. */
  function LocalityOf(slug: string): Locality {
    Locality(slug, LocalityName(slug), slug, "Bengaluru", "Karnataka")
  }

  /** The distinct non-empty locality slugs of the sample rows, in order of first appearance. */
  function FirstSlugs(imported: seq<PubSummary>): (slugs: seq<string>)
    ensures forall i, j :: 0 <= i < j < |slugs| ==> slugs[i] != slugs[j]
    ensures forall s :: s in slugs <==> s != "" && exists k :: 0 <= k < |imported| && imported[k].localitySlug == Some(s)
  {
    if imported == [] then []
    else
      var init := imported[..|imported| - 1];
      var prev := FirstSlugs(init);
      var e := imported[|imported| - 1];
      assert forall k :: 0 <= k < |init| ==> init[k] == imported[k];
      if e.localitySlug.Some? && e.localitySlug.value != "" && e.localitySlug.value !in prev then prev + [e.localitySlug.value]
      else prev
  }

  /**
   * The sample fallback of `getLocalities`: the loop over the sample rows fills
   * `seen` with each new non-empty slug's locality, and the result is its values
   * in insertion order.
   */
  method SampleLocalities(imported: seq<PubSummary>) returns (localities: seq<Locality>)
    ensures |localities| == |FirstSlugs(imported)|
    ensures forall k :: 0 <= k < |localities| ==> localities[k] == LocalityOf(FirstSlugs(imported)[k])
  {
    var seen: set<string> := {};
    var order: seq<string> := [];
    localities := [];
    for i := 0 to |imported|
      invariant order == FirstSlugs(imported[..i])
      invariant seen == set s | s in order
      invariant |localities| == |order|
      invariant forall k :: 0 <= k < |order| ==> localities[k] == LocalityOf(order[k])
    {
      assert imported[..i + 1][..i] == imported[..i];
      var entry := imported[i];
      if entry.localitySlug.None? || entry.localitySlug.value == "" {
        continue;
      }
      var slug := entry.localitySlug.value;
      if slug !in seen {
        localities := localities + [LocalityOf(slug)];
        order := order + [slug];
        seen := seen + {slug};
      }
    }
    assert imported[..|imported|] == imported;
  }

  /** The sample row's page entry: `id` is `${slug}-${index}`, the locality is the page's, and no codes are attached. */
  function PageEntry(p: PubSummary, index: nat, locality: Locality): PubSummary {
    p.(id := p.slug + "-" + NatToString(index), localitySlug := Some(locality.slug),
       localityName := Some(locality.name), attributeCodes := [])
  }

  /** `array.slice(0, end)`: a negative end counts back from the length. */
  function SliceTo<T>(s: seq<T>, end: int): (r: seq<T>)
    ensures end >= 0 ==> |r| == if end < |s| then end else |s|
    ensures |r| <= |s| && r == s[..|r|]
  {
    var n := if end >= 0 then end else |s| + end;
    if n <= 0 then [] else if n >= |s| then s else s[..n]
  }

  /** The criteria a locality query's options filter by. */
  function CriteriaOfOptions(o: LocalityQueryOptions): Criteria {
    Criteria(o.search, o.minCost, o.maxCost, o.wifi, o.valet, o.coverRedeemable)
  }

  /**
   * The sample fallback of `getLocalityPageData`: the rows of the locality that
   * pass the filters, with page ids, sorted by the option's comparator
   * ("rating_desc" by default) and cut to the limit (60 by default).
   */
  function SamplePage(imported: seq<PubSummary>, localitySlug: string, options: LocalityQueryOptions): (pubs: seq<PubSummary>)
    ensures options.limit.GetOr(DefaultLimit) >= 0 ==> |pubs| <= options.limit.GetOr(DefaultLimit)
  {
    var locality := LocalityOf(localitySlug);
    var inLocality := FilterLocality(imported, localitySlug);
    var passing := FilterPubs(inLocality, CriteriaOfOptions(options));
    var entries := seq(|passing|, k requires 0 <= k < |passing| => PageEntry(passing[k], k, locality));
    SliceTo(SortPubs(entries, options.sort.GetOr(DefaultSort)), options.limit.GetOr(DefaultLimit))
  }

  /** `filter(pub => pub.locality_slug === localitySlug)`. */
  function FilterLocality(imported: seq<PubSummary>, localitySlug: string): (r: seq<PubSummary>)
    ensures IsSubsequence(r, imported)
    ensures forall p :: p in r <==> p in imported && p.localitySlug == Some(localitySlug)
  {
    if imported == [] then []
    else
      var rest := FilterLocality(imported[1..], localitySlug);
      assert forall p :: p in imported <==> p == imported[0] || p in imported[1..];
      if imported[0].localitySlug == Some(localitySlug) then [imported[0]] + rest else rest
  }

  /**
   * Every pub on a sample page is a sample row of that locality that passes the
   * filters, carrying the page's locality; the page is ordered by the comparator.
   */
  lemma SamplePageEntries(imported: seq<PubSummary>, localitySlug: string, options: LocalityQueryOptions)
    ensures var pubs := SamplePage(imported, localitySlug, options);
      (forall p :: p in pubs ==> SampleEntry(p, imported, localitySlug, CriteriaOfOptions(options)))
      && forall i, j :: 0 <= i < j < |pubs| ==> Comparator(options.sort.GetOr(DefaultSort), pubs[i], pubs[j]) <= 0.0
  {
    var locality := LocalityOf(localitySlug);
    var passing := FilterPubs(FilterLocality(imported, localitySlug), CriteriaOfOptions(options));
    var entries := seq(|passing|, k requires 0 <= k < |passing| => PageEntry(passing[k], k, locality));
    var sorted := SortPubs(entries, options.sort.GetOr(DefaultSort));
    var pubs := SliceTo(sorted, options.limit.GetOr(DefaultLimit));
    assert SamplePage(imported, localitySlug, options) == pubs;
    SortedSlice(sorted, options.sort.GetOr(DefaultSort), options.limit.GetOr(DefaultLimit));
    forall p | p in pubs
      ensures SampleEntry(p, imported, localitySlug, CriteriaOfOptions(options))
    {
      var k := EntryIndex(entries, sorted, pubs, p);
      SampleEntryAt(imported, localitySlug, CriteriaOfOptions(options), passing, k);
    }
  }

  /** A slice of a sorted list is sorted. */
  lemma SortedSlice(sorted: seq<PubSummary>, order: SortOrder, end: int)
    requires forall i, j :: 0 <= i < j < |sorted| ==> Comparator(order, sorted[i], sorted[j]) <= 0.0
    ensures var r := SliceTo(sorted, end);
            forall i, j :: 0 <= i < j < |r| ==> Comparator(order, r[i], r[j]) <= 0.0
  {
    var r := SliceTo(sorted, end);
    forall i, j | 0 <= i < j < |r| ensures Comparator(order, r[i], r[j]) <= 0.0 {
      assert r[i] == sorted[i] && r[j] == sorted[j];
    }
  }

  /** An element of a slice of a permutation of `entries` is at some position of `entries`. */
  lemma EntryIndex<T>(entries: seq<T>, sorted: seq<T>, pubs: seq<T>, p: T) returns (k: nat)
    requires multiset(sorted) == multiset(entries)
    requires |pubs| <= |sorted| && pubs == sorted[..|pubs|]
    requires p in pubs
    ensures k < |entries| && entries[k] == p
  {
    assert p in sorted;
    assert p in multiset(entries);
    k :| 0 <= k < |entries| && entries[k] == p;
  }

  /**
   * A sample page entry: it carries the page's locality and no attribute
   * codes, and is made from a sample row of that locality that passes the
   * filters, numbered by the index its id ends in.
   */
  predicate SampleEntry(p: PubSummary, imported: seq<PubSummary>, localitySlug: string, criteria: Criteria) {
    && p.localitySlug == Some(localitySlug) && p.attributeCodes == []
    && exists q :: (q in imported && q.localitySlug == Some(localitySlug) && Passes(q, criteria)
                    && p == PageEntry(q, NatLength(p.id, q.slug), LocalityOf(localitySlug)))
  }

  /** The `k`-th passing row, made into a page entry, is a sample entry. */
  lemma SampleEntryAt(imported: seq<PubSummary>, localitySlug: string, criteria: Criteria, passing: seq<PubSummary>, k: nat)
    requires passing == FilterPubs(FilterLocality(imported, localitySlug), criteria)
    requires k < |passing|
    ensures SampleEntry(PageEntry(passing[k], k, LocalityOf(localitySlug)), imported, localitySlug, criteria)
  {
    var q := passing[k];
    assert q in passing;
    PageIdIndex(q.slug, k);
    var p := PageEntry(q, k, LocalityOf(localitySlug));
    assert p == PageEntry(q, NatLength(p.id, q.slug), LocalityOf(localitySlug));
  }

  /** The index a page id `${slug}-${n}` carries, read back from the id. */
  function NatLength(id: string, slug: string): nat {
    if |id| > |slug| + 1 && AllDigits(id[|slug| + 1..]) then ParseDigits(id[|slug| + 1..]) else 0
  }

  lemma PageIdIndex(slug: string, n: nat)
    ensures NatLength(slug + "-" + NatToString(n), slug) == n
  {
    var id := slug + "-" + NatToString(n);
    assert id[|slug| + 1..] == NatToString(n);
    ParseNatToString(n);
  }

  // ---------------------------------------------------------------------------
  // Search across localities

  /** The pubs of a page whose slug is not among those already aggregated. */
  function NewOnes(pubs: seq<PubSummary>, aggregated: seq<PubSummary>): (r: seq<PubSummary>)
    ensures forall p :: p in r <==> p in pubs && forall e :: e in aggregated ==> e.slug != p.slug
  {
    if pubs == [] then []
    else
      var rest := NewOnes(pubs[1..], aggregated);
      assert forall p :: p in pubs <==> p == pubs[0] || p in pubs[1..];
      if forall e :: e in aggregated ==> e.slug != pubs[0].slug then [pubs[0]] + rest else rest
  }

  /**
   * The aggregation loop of `searchPubs`: stop once `limit` pubs are gathered,
   * otherwise append the next locality's page without the slugs gathered before it.
   */
  function Aggregate(aggregated: seq<PubSummary>, localities: seq<Locality>, page: string -> seq<PubSummary>, limit: int): seq<PubSummary>
    decreases |localities|
  {
    if localities == [] || |aggregated| >= limit then aggregated
    else Aggregate(aggregated + NewOnes(page(localities[0].slug), aggregated), localities[1..], page, limit)
  }

  /**
   * `searchPubs`: a blank query finds nothing; with a locality it is that
   * locality's page; otherwise the pages of all localities, aggregated and cut
   * to the limit (10 by default). `page(slug)` stands for the locality page
   * fetched with the trimmed query and the limit.
   */
  method SearchPubs(query: string, localitySlug: Option<string>, limit: Option<int>, localities: seq<Locality>,
                    page: string -> seq<PubSummary>)
    returns (result: seq<PubSummary>)
    ensures Trim(query) == "" ==> result == []
    ensures Trim(query) != "" && localitySlug.Some? && localitySlug.value != "" ==> result == page(localitySlug.value)
    ensures Trim(query) != "" && !(localitySlug.Some? && localitySlug.value != "") ==>
      result == SliceTo(Aggregate([], localities, page, limit.GetOr(10)), limit.GetOr(10))
    ensures Trim(query) != "" && !(localitySlug.Some? && localitySlug.value != "") && limit.GetOr(10) >= 0 ==>
      |result| <= limit.GetOr(10)
  {
    var trimmed := Trim(query);
    if trimmed == "" {
      return [];
    }
    if localitySlug.Some? && localitySlug.value != "" {
      return page(localitySlug.value);
    }
    var lim := limit.GetOr(10);
    var aggregated := AggregateLoop(localities, page, lim);
    result := SliceTo(aggregated, lim);
  }

  /** The loop over the localities: each page's new pubs are added until the limit is reached. */
  method AggregateLoop(localities: seq<Locality>, page: string -> seq<PubSummary>, lim: int)
    returns (aggregated: seq<PubSummary>)
    ensures aggregated == Aggregate([], localities, page, lim)
  {
    aggregated := [];
    var i := 0;
    while i < |localities|
      invariant 0 <= i <= |localities|
      invariant Aggregate(aggregated, localities[i..], page, lim) == Aggregate([], localities, page, lim)
      decreases |localities| - i
    {
      if |aggregated| >= lim {
        break;
      }
      assert localities[i..][1..] == localities[i + 1..];
      aggregated := aggregated + NewOnes(page(localities[i].slug), aggregated);
      i := i + 1;
    }
    assert Aggregate(aggregated, localities[i..], page, lim) == aggregated;
  }

  /** No two pubs share a slug. */
  predicate DistinctSlugs(pubs: seq<PubSummary>) {
    forall i, j :: 0 <= i < j < |pubs| ==> pubs[i].slug != pubs[j].slug
  }

  /**
   * The aggregated search results have distinct slugs when every page does:
   * the filter only compares a page against the pubs gathered before it.
   */
  lemma {:induction false} AggregateDistinct(aggregated: seq<PubSummary>, localities: seq<Locality>,
                                             page: string -> seq<PubSummary>, limit: int)
    requires DistinctSlugs(aggregated)
    requires forall l :: l in localities ==> DistinctSlugs(page(l.slug))
    ensures DistinctSlugs(Aggregate(aggregated, localities, page, limit))
    decreases |localities|
  {
    if localities != [] && |aggregated| < limit {
      var added := NewOnes(page(localities[0].slug), aggregated);
      NewOnesDistinct(page(localities[0].slug), aggregated);
      var next := aggregated + added;
      assert DistinctSlugs(next) by {
        forall i, j | 0 <= i < j < |next| ensures next[i].slug != next[j].slug {
          if j >= |aggregated| && i < |aggregated| {
            assert next[j] in added;
            assert next[i] in aggregated;
          }
          if i >= |aggregated| {
            assert next[i] == added[i - |aggregated|] && next[j] == added[j - |aggregated|];
          }
        }
      }
      assert forall l :: l in localities[1..] ==> l in localities;
      AggregateDistinct(next, localities[1..], page, limit);
    }
  }

  lemma {:induction false} NewOnesDistinct(pubs: seq<PubSummary>, aggregated: seq<PubSummary>)
    requires DistinctSlugs(pubs)
    ensures DistinctSlugs(NewOnes(pubs, aggregated))
  {
    if pubs != [] {
      assert DistinctSlugs(pubs[1..]) by {
        forall i, j | 0 <= i < j < |pubs[1..]| ensures pubs[1..][i].slug != pubs[1..][j].slug {
          assert pubs[1..][i] == pubs[i + 1] && pubs[1..][j] == pubs[j + 1];
        }
      }
      NewOnesDistinct(pubs[1..], aggregated);
      var rest := NewOnes(pubs[1..], aggregated);
      forall p | p in rest ensures p.slug != pubs[0].slug {
        var k :| 0 <= k < |pubs[1..]| && pubs[1..][k] == p;
        assert pubs[k + 1] == p;
      }
    }
  }

  /** A page that repeats a slug passes the repetition through to the search results. */
  lemma RepeatedSlugSurvives(p: PubSummary, l: Locality, page: string -> seq<PubSummary>, limit: int)
    requires page(l.slug) == [p, p] && limit > 0
    ensures Aggregate([], [l], page, limit) == [p, p]
    ensures !DistinctSlugs(Aggregate([], [l], page, limit))
  {
    assert NewOnes([p], []) == [p];
    assert NewOnes([p, p], []) == [p, p];
    assert [l][1..] == [];
  }

  /** A `SliceTo` of distinct slugs keeps them distinct. */
  lemma SliceDistinct(pubs: seq<PubSummary>, end: int)
    requires DistinctSlugs(pubs)
    ensures DistinctSlugs(SliceTo(pubs, end))
  {
  }

  // ---------------------------------------------------------------------------
  // Attribute codes of the locality list

  /** The codes of the attribute rows whose boolean value is `true`, in row order. */
  function TrueCodes(values: seq<(Option<string>, Option<bool>)>): (codes: seq<string>)
    ensures forall c :: c in codes <==> c != "" && exists k :: 0 <= k < |values| && values[k] == (Some(c), Some(true))
  {
    if values == [] then []
    else
      var init := values[..|values| - 1];
      var last := values[|values| - 1];
      assert forall k :: 0 <= k < |init| ==> init[k] == values[k];
      TrueCodes(init) + if last.0.Some? && last.0.value != "" && last.1 == Some(true) then [last.0.value] else []
  }

  /**
   * The `attributeCodes` loop of `fetchPubsForLocality`: each row with a code
   * and `boolean_value === true` pushes its code.
   */
  method AttributeCodes(values: seq<(Option<string>, Option<bool>)>) returns (codes: seq<string>)
    ensures codes == TrueCodes(values)
    ensures forall c :: c in codes <==> c != "" && exists k :: 0 <= k < |values| && values[k] == (Some(c), Some(true))
  {
    codes := [];
    for i := 0 to |values|
      invariant codes == TrueCodes(values[..i])
    {
      assert values[..i + 1][..i] == values[..i];
      var av := values[i];
      if av.0.Some? && av.0.value != "" && av.1 == Some(true) {
        codes := codes + [av.0.value];
      }
    }
    assert values[..|values|] == values;
  }
}
