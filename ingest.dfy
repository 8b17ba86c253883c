/**
 * The cleaning rules of the CSV ingestion script: phone and slug
 * normalisation, number parsing, the pub classifier, the review and city
 * filters, duplicate removal, the import/skip split and the exit code.
 * A CSV row is a map from column name to cell text.
 */
module CsvIngest {
  import opened Wrappers
  import opened Text

  type Row = map<string, string>

  /** `row.get(key)`. */
  function Cell(row: Row, key: string): Option<string> {
    if key in row then Some(row[key]) else None
  }

  /** `row.get(key) or default` (and `row.get(key, default)`): a missing or empty cell gives the default. */
  function CellOr(row: Row, key: string, default: string): string {
    if key in row && row[key] != "" then row[key] else default
  }

  // ---------------------------------------------------------------------------
  // Phone numbers

  /** `re.sub(r"\D", "", s)`: the digits of `s`, in order. */
  function DigitsOf(s: string): (d: string)
    ensures AllDigits(d) && |d| <= |s|
  {
    if s == [] then [] else (if IsDigit(s[0]) then [s[0]] else []) + DigitsOf(s[1..])
  }

  /**
   * `normalise_phone`: nothing without digits; a 12-digit number starting
   * with the country code 91 gets a "+", a 10-digit number gets "+91",
   * anything else gets a bare "+".
   */
  function NormalisePhone(raw: string): (p: Option<string>)
    ensures p.None? <==> DigitsOf(raw) == []
    ensures p.Some? ==> |p.value| >= 2 && p.value[0] == '+' && AllDigits(p.value[1..])
    ensures p.Some? ==> p.value == (if |DigitsOf(raw)| == 10 then "+91" else "+") + DigitsOf(raw)
  {
    if raw == "" then None
    else
      var digits := DigitsOf(raw);
      if digits == "" then None
      else if IsPrefix("91", digits) && |digits| == 12 then Some("+" + digits)
      else if |digits| == 10 then Some("+91" + digits)
      else Some("+" + digits)
  }

  lemma {:induction false} DigitsOfAppend(a: string, b: string)
    ensures DigitsOf(a + b) == DigitsOf(a) + DigitsOf(b)
    decreases |a|
  {
    if a != [] {
      assert (a + b)[0] == a[0];
      assert (a + b)[1..] == a[1..] + b;
      DigitsOfAppend(a[1..], b);
    } else {
      assert a + b == b;
    }
  }

  lemma {:induction false} DigitsOfDigits(s: string)
    requires AllDigits(s)
    ensures DigitsOf(s) == s
    decreases |s|
  {
    if s != [] {
      DigitsOfDigits(s[1..]);
    }
  }

  /** The digits of "+" followed by digits are those digits. */
  lemma DigitsAfterPlus(prefix: string, d: string)
    requires AllDigits(prefix) && AllDigits(d)
    ensures DigitsOf("+" + prefix + d) == prefix + d
  {
    var t := prefix + d;
    forall i | 0 <= i < |t| ensures IsDigit(t[i]) {
      if i < |prefix| { assert t[i] == prefix[i]; } else { assert t[i] == d[i - |prefix|]; }
    }
    assert DigitsOf("+") == [] by { assert "+"[1..] == []; }
    DigitsOfAppend("+", t);
    DigitsOfDigits(t);
    assert "+" + prefix + d == "+" + t;
  }

  /** Normalising a normalised number changes nothing. */
  lemma PhoneIdempotent(raw: string)
    requires NormalisePhone(raw).Some?
    ensures NormalisePhone(NormalisePhone(raw).value) == NormalisePhone(raw)
  {
    var digits := DigitsOf(raw);
    if |digits| == 10 && !(IsPrefix("91", digits) && |digits| == 12) {
      PrefixedPhone(digits);
    } else {
      PlusDigits(digits);
      assert NormalisePhone(raw).value == "+" + digits;
    }
  }

  /** The digits of "+" and some digits are those digits. */
  lemma PlusDigits(d: string)
    requires AllDigits(d)
    ensures DigitsOf("+" + d) == d
  {
    DigitsAfterPlus("", d);
    assert "+" + "" + d == "+" + d;
  }

  /** A ten-digit local number and the same number with the country code normalise alike. */
  lemma PhoneCountryCodeAgnostic(local: string)
    requires |local| == 10 && AllDigits(local)
    ensures NormalisePhone(local) == NormalisePhone("+91" + local) == Some("+91" + local)
  {
    LocalPhone(local);
    PrefixedPhone(local);
  }

  lemma LocalPhone(local: string)
    requires |local| == 10 && AllDigits(local)
    ensures NormalisePhone(local) == Some("+91" + local)
  {
    DigitsOfDigits(local);
  }

  lemma PrefixedPhone(local: string)
    requires |local| == 10 && AllDigits(local)
    ensures NormalisePhone("+91" + local) == Some("+91" + local)
  {
    var raw := "+91" + local;
    DigitsAfterPlus("91", local);
    assert "+" + "91" + local == raw;
    var d := "91" + local;
    assert DigitsOf(raw) == d;
    assert IsPrefix("91", d) && |d| == 12;
    assert "+" + d == raw;
  }

  // ---------------------------------------------------------------------------
  // Slugs

  /** What `re.sub(r"[^a-z0-9\s-]", "", …)` keeps. */
  predicate KeptChar(c: char) { IsLowerAscii(c) || IsDigit(c) || IsSpace(c) || c == '-' }

  function KeepSlugChars(s: string): (r: string)
    ensures forall i :: 0 <= i < |r| ==> KeptChar(r[i])
  {
    if s == [] then [] else (if KeptChar(s[0]) then [s[0]] else []) + KeepSlugChars(s[1..])
  }

  /** The characters `[\s_-]+` runs are made of. */
  predicate Separator(c: char) { IsSpace(c) || c == '_' || c == '-' }

  /** The text after a run of separators. */
  function DropSeparators(s: string): (r: string)
    ensures |r| <= |s| && r == s[|s| - |r|..]
    ensures r == [] || !Separator(r[0])
  {
    if s != [] && Separator(s[0]) then DropSeparators(s[1..]) else s
  }

  /** `re.sub(r"[\s_-]+", "-", s)`: every maximal run of separators becomes one hyphen. */
  function CollapseSeparators(s: string): string
    decreases |s|
  {
    if s == [] then []
    else if Separator(s[0]) then "-" + CollapseSeparators(DropSeparators(s[1..]))
    else [s[0]] + CollapseSeparators(s[1..])
  }

  function StripLeadingHyphens(s: string): (r: string)
    ensures r == [] || r[0] != '-'
    ensures |r| <= |s| && r == s[|s| - |r|..]
  {
    if s != [] && s[0] == '-' then StripLeadingHyphens(s[1..]) else s
  }

  function StripTrailingHyphens(s: string): (r: string)
    ensures r == [] || r[|r| - 1] != '-'
    ensures |r| <= |s| && r == s[..|r|]
  {
    if s != [] && s[|s| - 1] == '-' then StripTrailingHyphens(s[..|s| - 1]) else s
  }

  /** `.strip("-")`. */
  function StripHyphens(s: string): string {
    StripTrailingHyphens(StripLeadingHyphens(s))
  }

  /** `slugify`: lower-case, drop what is not a letter, digit, space or hyphen, collapse separator runs, strip hyphens. */
  function Slugify(value: string): string {
    StripHyphens(CollapseSeparators(KeepSlugChars(Lower(value))))
  }

  predicate SlugChar(c: char) { IsLowerAscii(c) || IsDigit(c) || c == '-' }

  /** Only slug characters, and no hyphen directly after another. */
  predicate SlugBody(s: string) {
    (forall i :: 0 <= i < |s| ==> SlugChar(s[i]))
    && forall i :: 0 <= i < |s| - 1 ==> !(s[i] == '-' && s[i + 1] == '-')
  }

  /** A slug: a slug body that neither starts nor ends with a hyphen. */
  predicate IsSlug(s: string) {
    SlugBody(s) && (s != [] ==> s[0] != '-' && s[|s| - 1] != '-')
  }

  /** Collapsing kept characters gives a slug body that starts with a hyphen only where the input starts with a separator. */
  lemma {:induction false} CollapseIsSlugBody(s: string)
    requires forall i :: 0 <= i < |s| ==> KeptChar(s[i])
    ensures SlugBody(CollapseSeparators(s))
    ensures CollapseSeparators(s) != [] && CollapseSeparators(s)[0] == '-' ==> Separator(s[0])
    decreases |s|
  {
    if s == [] {
    } else if Separator(s[0]) {
      var t := DropSeparators(s[1..]);
      KeptSuffix(s, |s| - |t|);
      CollapseIsSlugBody(t);
      var c := CollapseSeparators(t);
      assert c != [] ==> c[0] != '-' by {
        if t != [] { assert !Separator(t[0]); }
      }
      ConsSlugBody('-', c);
      assert CollapseSeparators(s) == ['-'] + c;
    } else {
      KeptSuffix(s, 1);
      CollapseIsSlugBody(s[1..]);
      var c := CollapseSeparators(s[1..]);
      assert SlugChar(s[0]);
      ConsSlugBody(s[0], c);
      assert CollapseSeparators(s) == [s[0]] + c;
    }
  }

  /** A slug character in front of a slug body keeps it one, unless two hyphens meet. */
  lemma ConsSlugBody(x: char, c: string)
    requires SlugChar(x) && SlugBody(c)
    requires x == '-' ==> c == [] || c[0] != '-'
    ensures SlugBody([x] + c)
  {
    var r := [x] + c;
    forall i | 0 <= i < |r| ensures SlugChar(r[i]) {
      if i > 0 { assert r[i] == c[i - 1]; }
    }
    forall i | 0 <= i < |r| - 1 ensures !(r[i] == '-' && r[i + 1] == '-') {
      if i > 0 { assert r[i] == c[i - 1] && r[i + 1] == c[i]; }
    }
  }

  lemma KeptSuffix(s: string, k: nat)
    requires k <= |s|
    requires forall i :: 0 <= i < |s| ==> KeptChar(s[i])
    ensures forall i :: 0 <= i < |s[k..]| ==> KeptChar(s[k..][i])
  {
    forall i | 0 <= i < |s[k..]| ensures KeptChar(s[k..][i]) { assert s[k..][i] == s[k + i]; }
  }

  lemma SlugBodySlice(s: string, a: nat, b: nat)
    requires SlugBody(s) && a <= b <= |s|
    ensures SlugBody(s[a..b])
  {
    var t := s[a..b];
    forall i | 0 <= i < |t| ensures SlugChar(t[i]) { assert t[i] == s[a + i]; }
    forall i | 0 <= i < |t| - 1 ensures !(t[i] == '-' && t[i + 1] == '-') {
      assert t[i] == s[a + i] && t[i + 1] == s[a + i + 1];
    }
  }

  /** Stripping the hyphens off a slug body leaves a slug. */
  lemma StripIsSlug(s: string)
    requires SlugBody(s)
    ensures IsSlug(StripHyphens(s))
  {
    var l := StripLeadingHyphens(s);
    assert l == s[|s| - |l|..|s|];
    SlugBodySlice(s, |s| - |l|, |s|);
    var r := StripTrailingHyphens(l);
    assert r == l[0..|r|];
    SlugBodySlice(l, 0, |r|);
    assert StripHyphens(s) == r;
    assert r != [] ==> r[0] == l[0] && r[0] != '-';
  }

  /** Whatever `slugify` returns is made of a-z, 0-9 and single inner hyphens. */
  lemma SlugifyIsSlug(value: string)
    ensures IsSlug(Slugify(value))
  {
    CollapseIsSlugBody(KeepSlugChars(Lower(value)));
    StripIsSlug(CollapseSeparators(KeepSlugChars(Lower(value))));
  }

  lemma {:induction false} LowerOfLower(s: string)
    requires forall i :: 0 <= i < |s| ==> !IsUpperAscii(s[i])
    ensures Lower(s) == s
  {
  }

  lemma {:induction false} KeepAllKept(s: string)
    requires forall i :: 0 <= i < |s| ==> KeptChar(s[i])
    ensures KeepSlugChars(s) == s
    decreases |s|
  {
    if s != [] {
      KeepAllKept(s[1..]);
    }
  }

  /** A slug body is its own collapse: every hyphen is a run of length one. */
  lemma {:induction false} CollapseOfSlugBody(s: string)
    requires SlugBody(s)
    ensures CollapseSeparators(s) == s
    decreases |s|
  {
    if s != [] {
      SlugBodySlice(s, 1, |s|);
      if Separator(s[0]) {
        assert s[0] == '-';
        assert s[1..] == [] || !Separator(s[1..][0]) by {
          if |s| > 1 { assert !(s[0] == '-' && s[1] == '-'); }
        }
        assert DropSeparators(s[1..]) == s[1..];
      }
      CollapseOfSlugBody(s[1..]);
    }
  }

  /** `slugify` leaves a slug as it is. */
  lemma SlugifyOfSlug(s: string)
    requires IsSlug(s)
    ensures Slugify(s) == s
  {
    LowerOfLower(s);
    KeepAllKept(s);
    CollapseOfSlugBody(s);
    assert StripLeadingHyphens(s) == s;
    assert StripTrailingHyphens(s) == s;
  }

  /** `slugify` is idempotent. */
  lemma SlugifyIdempotent(value: string)
    ensures Slugify(Slugify(value)) == Slugify(value)
  {
    SlugifyIsSlug(value);
    SlugifyOfSlug(Slugify(value));
  }

  // ---------------------------------------------------------------------------
  // Numbers

  /** `parse_int`: `int(float(value))`, truncating; nothing for a missing or empty cell or text `float` rejects. */
  function ParseInt(value: Option<string>): Option<int> {
    if value.None? || value.value == "" then None
    else
      match PyFloat(value.value)
      case None => None
      case Some(f) => Some(Truncate(f))
  }

  /** Python's `round(x)`: to the nearest integer, halves to the even neighbour. */
  function RoundHalfEven(y: real): (n: int)
    ensures y - 0.5 <= n as real <= y + 0.5
  {
    var f := y.Floor;
    var frac := y - f as real;
    if frac < 0.5 then f
    else if frac > 0.5 then f + 1
    else if f % 2 == 0 then f else f + 1
  }

  /** `parse_float`: `round(float(value), 1)`, on exact decimals. */
  function ParseFloat(value: Option<string>): (r: Option<real>)
    ensures r.Some? <==> value.Some? && value.value != "" && PyFloat(value.value).Some?
    ensures r.Some? ==> PyFloat(value.value).value - 0.05 <= r.value <= PyFloat(value.value).value + 0.05
  {
    if value.None? || value.value == "" then None
    else
      match PyFloat(value.value)
      case None => None
      case Some(f) => Some(RoundHalfEven(f * 10.0) as real / 10.0)
  }

  /** The digits of a count read back as that count. */
  lemma ParseIntOfDigits(n: nat)
    ensures ParseInt(Some(NatToString(n))) == Some(n)
  {
    var s := NatToString(n);
    JsNumberOfDigits(n);
    assert Trim(s) != [] by {
      assert !IsSpace(s[0]) && !IsSpace(s[|s| - 1]);
      TrimOfTrimmed(s);
    }
    assert PyFloat(s) == Some(n as real);
    assert (n as real).Floor == n;
  }

  /** A missing or empty cell, or one `float` rejects, gives no number. */
  lemma ParseIntRejects(value: Option<string>)
    requires value.None? || value == Some("") || PyFloat(value.value).None?
    ensures ParseInt(value).None? && ParseFloat(value).None?
  {
  }

  // ---------------------------------------------------------------------------
  // Classification and filters

  const PositiveKeywords: seq<string> :=
    ["pub", "bar", "brew", "brewery", "taproom", "restobar", "gastropub", "night", "ale", "club"]

  const NegativeKeywords: seq<string> :=
    ["hotel", "lodging", "cafe", "restaurant", "canteen", "dhaba", "mess", "biryani"]

  predicate MentionsAny(text: string, words: seq<string>) {
    exists w :: w in words && Contains(text, w)
  }

  /** The lower-cased name and description, joined by a space. */
  function ClassifiedText(row: Row): string {
    Lower(CellOr(row, "name", "")) + " " + Lower(CellOr(row, "description", ""))
  }

  /** `classify_pub`: a positive keyword keeps the row, else a negative keyword excludes it, else it is kept. */
  function ClassifyPub(row: Row): (keep: bool)
    ensures keep <==> MentionsAny(ClassifiedText(row), PositiveKeywords) || !MentionsAny(ClassifiedText(row), NegativeKeywords)
  {
    var combined := ClassifiedText(row);
    if MentionsAny(combined, PositiveKeywords) then true
    else if MentionsAny(combined, NegativeKeywords) then false
    else true
  }

  lemma ContainsInPrefix(a: string, b: string, w: string)
    requires Contains(a, w)
    ensures Contains(a + b, w)
  {
    var i :| 0 <= i <= |a| - |w| && IsPrefix(w, a[i..]);
    assert (a + b)[i..][..|w|] == a[i..][..|w|];
  }

  /** A name that mentions a positive keyword keeps the row, whatever the description says. */
  lemma PositiveNameKeeps(row: Row, word: string)
    requires word in PositiveKeywords && Contains(Lower(CellOr(row, "name", "")), word)
    ensures ClassifyPub(row)
  {
    var name := Lower(CellOr(row, "name", ""));
    var rest := " " + Lower(CellOr(row, "description", ""));
    ContainsInPrefix(name, rest, word);
    assert ClassifiedText(row) == name + rest;
    assert MentionsAny(ClassifiedText(row), PositiveKeywords);
  }

  /** The thresholds of the review filter and the city rule. */
  datatype Config = Config(
    minReviewsLowRating: int,
    minRatingLowReviews: real,
    minReviewsVeryLow: int,
    minRatingVeryLow: real,
    defaultCountry: string,
    dryRun: bool)

  /** `IngestionConfig()`: 50 reviews below 3.0, 10 reviews below 3.5, India, dry run. */
  const DefaultConfig: Config := Config(50, 3.0, 10, 3.5, "india", true)

  /** The two thresholds on a parsed review count and rating. */
  predicate MeetsThresholds(reviews: int, rating: real, cfg: Config) {
    !(reviews < cfg.minReviewsVeryLow && rating < cfg.minRatingVeryLow)
    && !(reviews < cfg.minReviewsLowRating && rating < cfg.minRatingLowReviews)
  }

  /** `passes_review_filters`: both numbers must parse and meet the thresholds. */
  function PassesReviewFilters(row: Row, cfg: Config): (ok: bool)
    ensures ok ==> ParseInt(Cell(row, "reviews")).Some? && ParseFloat(Cell(row, "rating")).Some?
  {
    match (ParseInt(Cell(row, "reviews")), ParseFloat(Cell(row, "rating")))
    case (Some(reviews), Some(rating)) => MeetsThresholds(reviews, rating, cfg)
    case _ => false
  }

  /** More reviews and a higher rating never turn a passing row into a failing one. */
  lemma ThresholdsMonotone(reviews: int, rating: real, moreReviews: int, higherRating: real, cfg: Config)
    requires MeetsThresholds(reviews, rating, cfg)
    requires reviews <= moreReviews && rating <= higherRating
    ensures MeetsThresholds(moreReviews, higherRating, cfg)
  {
  }

  /** With the default thresholds: 50 reviews pass at any rating, and a rating of 3.5 passes with any count. */
  lemma DefaultThresholds(reviews: int, rating: real)
    ensures reviews >= 50 ==> MeetsThresholds(reviews, rating, DefaultConfig)
    ensures rating >= 3.5 ==> MeetsThresholds(reviews, rating, DefaultConfig)
    ensures reviews < 10 && rating < 3.5 ==> !MeetsThresholds(reviews, rating, DefaultConfig)
    ensures reviews < 50 && rating < 3.0 ==> !MeetsThresholds(reviews, rating, DefaultConfig)
  {
  }

  predicate BengaluruAlias(city: string) {
    city == "bengaluru" || city == "bangalore" || city == "bengalooru"
  }

  /** `is_valid_city`: a Bengaluru alias in the configured country, compared lower-cased. */
  function IsValidCity(row: Row, cfg: Config): (ok: bool)
    ensures ok ==> BengaluruAlias(Lower(CellOr(row, "city", "")))
  {
    var city := Lower(CellOr(row, "city", ""));
    var country := Lower(CellOr(row, "country", cfg.defaultCountry));
    BengaluruAlias(city) && country == cfg.defaultCountry
  }

  /** A row without a country is judged by its city alone, when the configured country is lower-case. */
  lemma MissingCountryDefaults(row: Row, cfg: Config)
    requires CellOr(row, "country", "") == ""
    requires Lower(cfg.defaultCountry) == cfg.defaultCountry
    ensures IsValidCity(row, cfg) <==> BengaluruAlias(Lower(CellOr(row, "city", "")))
  {
  }

  /** A configured country with an upper-case letter matches no row. */
  lemma UpperCountryMatchesNothing(row: Row, cfg: Config, i: nat)
    requires i < |cfg.defaultCountry| && IsUpperAscii(cfg.defaultCountry[i])
    ensures !IsValidCity(row, cfg)
  {
  }

  /** What `urlparse` yields that the maps-URL rule reads. */
  datatype UrlParts = UrlParts(scheme: string, netloc: string, path: string)

  /** `validate_maps_url`: an https link on www.google.com or maps.app.goo.gl whose path starts with /maps. */
  function ValidMapsUrl(url: string, urlparse: string -> UrlParts): (ok: bool)
    ensures ok ==> url != "" && urlparse(url).scheme == "https"
  {
    if url == "" then false
    else
      var parsed := urlparse(url);
      parsed.scheme == "https"
      && (parsed.netloc == "www.google.com" || parsed.netloc == "maps.app.goo.gl")
      && IsPrefix("/maps", parsed.path)
  }

  // ---------------------------------------------------------------------------
  // Duplicates

  /** `(slugify(name), postal_code or normalise_phone(phone) or "")`. */
  datatype DedupeKey = DedupeKey(name: string, contact: string)

  function DedupeKeyOf(row: Row): DedupeKey {
    var postal := Trim(CellOr(row, "postal_code", ""));
    var phone := NormalisePhone(CellOr(row, "phone", ""));
    DedupeKey(Slugify(CellOr(row, "name", "")), if postal != "" then postal else phone.GetOr(""))
  }

  /** `parse_int(row.get("reviews")) or 0`. */
  function ReviewScore(row: Row): int {
    ParseInt(Cell(row, "reviews")).GetOr(0)
  }

  /** The `seen` dictionary: its keys in insertion order and the row kept per key. */
  datatype Seen = Seen(keys: seq<DedupeKey>, kept: map<DedupeKey, Row>)

  /*
   * The loop below is stated for any key and score function; `dedupe_rows`
   * uses `DedupeKeyOf` and `ReviewScore`.
   */

  /**
   * One turn of the `dedupe_rows` loop. A new key takes the row, and so does a
   * key whose kept row is empty (an empty dict is falsy); otherwise the row
   * replaces the kept one only with strictly more reviews. A replaced value
   * keeps its key's place.
   */
  function DedupeStep(keyOf: Row -> DedupeKey, score: Row -> int, seen: Seen, row: Row): Seen {
    var key := keyOf(row);
    if key !in seen.kept then Seen(seen.keys + [key], seen.kept[key := row])
    else if seen.kept[key] == map[] then Seen(seen.keys, seen.kept[key := row])
    else if score(row) > score(seen.kept[key]) then Seen(seen.keys, seen.kept[key := row])
    else seen
  }

  /** The dictionary after the loop has seen `rows`. */
  function DedupeFold(keyOf: Row -> DedupeKey, score: Row -> int, rows: seq<Row>): Seen
    decreases |rows|
  {
    if rows == [] then Seen([], map[])
    else DedupeStep(keyOf, score, DedupeFold(keyOf, score, rows[..|rows| - 1]), rows[|rows| - 1])
  }

  /** Keys listed once each and exactly the dictionary's keys. */
  ghost predicate KeysListed(seen: Seen) {
    (forall i, j :: 0 <= i < j < |seen.keys| ==> seen.keys[i] != seen.keys[j])
    && (forall k :: k in seen.kept <==> k in seen.keys)
  }

  /** Every kept row has the key it is kept under. */
  ghost predicate KeyedRight(keyOf: Row -> DedupeKey, seen: Seen) {
    forall k :: k in seen.kept ==> keyOf(seen.kept[k]) == k
  }

  /** Listed keys, each holding a row with that key. */
  ghost predicate WellFormed(keyOf: Row -> DedupeKey, seen: Seen) {
    KeysListed(seen) && KeyedRight(keyOf, seen)
  }

  /** `list(seen.values())`. */
  function Values(seen: Seen): (values: seq<Row>)
    requires KeysListed(seen)
    ensures |values| == |seen.keys|
    ensures forall i :: 0 <= i < |values| ==> values[i] == seen.kept[seen.keys[i]]
  {
    seq(|seen.keys|, i requires 0 <= i < |seen.keys| => seen.kept[seen.keys[i]])
  }

  /** Every row seen has its key in the dictionary. */
  ghost predicate Covered(keyOf: Row -> DedupeKey, seen: Seen, rows: seq<Row>) {
    forall i :: 0 <= i < |rows| ==> keyOf(rows[i]) in seen.kept
  }

  /** Every kept row is one of the rows seen. */
  ghost predicate KeptFrom(seen: Seen, rows: seq<Row>) {
    forall k :: k in seen.kept ==> seen.kept[k] in rows
  }

  ghost predicate NoEmptyRow(rows: seq<Row>) {
    forall i :: 0 <= i < |rows| ==> rows[i] != map[]
  }

  /** No row seen scores higher than the row kept for its key. */
  ghost predicate Best(keyOf: Row -> DedupeKey, score: Row -> int, seen: Seen, rows: seq<Row>)
    requires Covered(keyOf, seen, rows)
  {
    forall i :: 0 <= i < |rows| ==> score(rows[i]) <= score(seen.kept[keyOf(rows[i])])
  }

  /** What the kept rows promise about the rows seen so far. */
  ghost predicate DedupeInvariant(keyOf: Row -> DedupeKey, score: Row -> int, seen: Seen, rows: seq<Row>) {
    WellFormed(keyOf, seen) && Covered(keyOf, seen, rows) && KeptFrom(seen, rows)
    && (NoEmptyRow(rows) ==> Best(keyOf, score, seen, rows))
  }

  lemma DedupeStepInvariant(keyOf: Row -> DedupeKey, score: Row -> int, seen: Seen, rows: seq<Row>, row: Row)
    requires DedupeInvariant(keyOf, score, seen, rows)
    ensures DedupeInvariant(keyOf, score, DedupeStep(keyOf, score, seen, row), rows + [row])
  {
    var next := DedupeStep(keyOf, score, seen, row);
    var all := rows + [row];
    StepListed(keyOf, score, seen, row);
    StepCovered(keyOf, score, seen, rows, row);
    StepKeptFrom(keyOf, score, seen, rows, row);
    if NoEmptyRow(all) {
      assert NoEmptyRow(rows) by {
        forall i | 0 <= i < |rows| ensures rows[i] != map[] { assert rows[i] == all[i]; }
      }
      assert row == all[|rows|];
      StepBest(keyOf, score, seen, rows, row);
    }
  }

  lemma StepListed(keyOf: Row -> DedupeKey, score: Row -> int, seen: Seen, row: Row)
    requires WellFormed(keyOf, seen)
    ensures WellFormed(keyOf, DedupeStep(keyOf, score, seen, row))
  {
    var key := keyOf(row);
    var next := DedupeStep(keyOf, score, seen, row);
    if key !in seen.kept {
      forall i, j | 0 <= i < j < |next.keys| ensures next.keys[i] != next.keys[j] {
        if j == |seen.keys| { assert seen.keys[i] in seen.kept; }
      }
    }
  }

  lemma StepCovered(keyOf: Row -> DedupeKey, score: Row -> int, seen: Seen, rows: seq<Row>, row: Row)
    requires Covered(keyOf, seen, rows)
    ensures Covered(keyOf, DedupeStep(keyOf, score, seen, row), rows + [row])
  {
    var next := DedupeStep(keyOf, score, seen, row);
    var all := rows + [row];
    forall i | 0 <= i < |all| ensures keyOf(all[i]) in next.kept {
      if i < |rows| { assert all[i] == rows[i]; }
    }
  }

  lemma StepKeptFrom(keyOf: Row -> DedupeKey, score: Row -> int, seen: Seen, rows: seq<Row>, row: Row)
    requires KeptFrom(seen, rows)
    ensures KeptFrom(DedupeStep(keyOf, score, seen, row), rows + [row])
  {
    var next := DedupeStep(keyOf, score, seen, row);
    forall k | k in next.kept ensures next.kept[k] in rows + [row] {
      if next.kept[k] != row { assert next.kept[k] == seen.kept[k] && seen.kept[k] in rows; }
    }
  }

  lemma StepBest(keyOf: Row -> DedupeKey, score: Row -> int, seen: Seen, rows: seq<Row>, row: Row)
    requires Covered(keyOf, seen, rows) && KeptFrom(seen, rows) && NoEmptyRow(rows) && Best(keyOf, score, seen, rows)
    requires row != map[]
    ensures Covered(keyOf, DedupeStep(keyOf, score, seen, row), rows + [row])
    ensures Best(keyOf, score, DedupeStep(keyOf, score, seen, row), rows + [row])
  {
    StepCovered(keyOf, score, seen, rows, row);
    var key := keyOf(row);
    var next := DedupeStep(keyOf, score, seen, row);
    if key in seen.kept && seen.kept[key] != map[] && score(row) <= score(seen.kept[key]) {
      assert next == seen;
      BestAfterKeep(keyOf, score, seen, rows, row);
    } else {
      assert next.kept == seen.kept[key := row];
      assert key in seen.kept ==> score(row) > score(seen.kept[key]) by {
        if key in seen.kept {
          var j :| 0 <= j < |rows| && rows[j] == seen.kept[key];
          assert rows[j] != map[];
        }
      }
      BestAfterReplace(keyOf, score, seen, next, rows, row);
    }
  }

  /** A row scoring no higher than the one kept for its key leaves every row's kept best. */
  lemma BestAfterKeep(keyOf: Row -> DedupeKey, score: Row -> int, seen: Seen, rows: seq<Row>, row: Row)
    requires Covered(keyOf, seen, rows) && Best(keyOf, score, seen, rows)
    requires keyOf(row) in seen.kept && score(row) <= score(seen.kept[keyOf(row)])
    requires Covered(keyOf, seen, rows + [row])
    ensures Best(keyOf, score, seen, rows + [row])
  {
    var all := rows + [row];
    forall i | 0 <= i < |all| ensures score(all[i]) <= score(seen.kept[keyOf(all[i])]) {
      if i < |rows| { assert all[i] == rows[i]; }
    }
  }

  /** A row scoring higher than the one kept for its key (or with a new key) is kept in its place. */
  lemma BestAfterReplace(keyOf: Row -> DedupeKey, score: Row -> int, seen: Seen, next: Seen, rows: seq<Row>, row: Row)
    requires Covered(keyOf, seen, rows) && Best(keyOf, score, seen, rows)
    requires keyOf(row) in seen.kept ==> score(row) > score(seen.kept[keyOf(row)])
    requires next.kept == seen.kept[keyOf(row) := row]
    requires Covered(keyOf, next, rows + [row])
    ensures Best(keyOf, score, next, rows + [row])
  {
    var all := rows + [row];
    forall i | 0 <= i < |all| ensures score(all[i]) <= score(next.kept[keyOf(all[i])]) {
      if i < |rows| {
        assert all[i] == rows[i];
        assert score(rows[i]) <= score(seen.kept[keyOf(rows[i])]);
      }
    }
  }

  /** The loop's dictionary keeps its promises after any number of rows. */
  lemma {:induction false} DedupeFoldInvariant(keyOf: Row -> DedupeKey, score: Row -> int, rows: seq<Row>)
    ensures DedupeInvariant(keyOf, score, DedupeFold(keyOf, score, rows), rows)
    decreases |rows|
  {
    if rows != [] {
      var init := rows[..|rows| - 1];
      DedupeFoldInvariant(keyOf, score, init);
      DedupeStepInvariant(keyOf, score, DedupeFold(keyOf, score, init), init, rows[|rows| - 1]);
      assert init + [rows[|rows| - 1]] == rows;
    }
  }

  /** The dictionary loop of `dedupe_rows`, then its values in insertion order. */
  method DedupeLoop(keyOf: Row -> DedupeKey, score: Row -> int, rows: seq<Row>) returns (deduped: seq<Row>)
    ensures KeysListed(DedupeFold(keyOf, score, rows))
    ensures deduped == Values(DedupeFold(keyOf, score, rows))
  {
    var keys: seq<DedupeKey> := [];
    var seen: map<DedupeKey, Row> := map[];
    for n := 0 to |rows|
      invariant Seen(keys, seen) == DedupeFold(keyOf, score, rows[..n])
    {
      var row := rows[n];
      var key := keyOf(row);
      if key !in seen || seen[key] == map[] {
        if key !in seen {
          keys := keys + [key];
        }
        seen := seen[key := row];
      } else if score(row) > score(seen[key]) {
        seen := seen[key := row];
      }
      assert rows[..n + 1][..n] == rows[..n];
    }
    assert rows[..|rows|] == rows;
    DedupeFoldInvariant(keyOf, score, rows);
    deduped := Values(Seen(keys, seen));
  }

  /** `dedupe_rows`: keyed by `DedupeKeyOf`, scored by `ReviewScore`. */
  method DedupeRows(rows: seq<Row>) returns (deduped: seq<Row>)
    ensures KeysListed(DedupeFold(DedupeKeyOf, ReviewScore, rows))
    ensures deduped == Values(DedupeFold(DedupeKeyOf, ReviewScore, rows))
  {
    deduped := DedupeLoop(DedupeKeyOf, ReviewScore, rows);
  }

  /**
   * After the dedupe loop: one row per key, every input row's key
   * represented, only input rows kept, and (when no row is empty) no row of a
   * key has a higher score than the one kept for it.
   */
  /** Some row of `out` has key `k`. */
  ghost predicate KeyShown(keyOf: Row -> DedupeKey, out: seq<Row>, k: DedupeKey) {
    exists j :: 0 <= j < |out| && keyOf(out[j]) == k
  }

  lemma DedupeRowsSpec(keyOf: Row -> DedupeKey, score: Row -> int, rows: seq<Row>)
    ensures KeysListed(DedupeFold(keyOf, score, rows))
    ensures var out := Values(DedupeFold(keyOf, score, rows));
            (forall i, j :: 0 <= i < j < |out| ==> keyOf(out[i]) != keyOf(out[j]))
            && (forall i :: 0 <= i < |rows| ==> KeyShown(keyOf, out, keyOf(rows[i])))
            && (forall j :: 0 <= j < |out| ==> out[j] in rows)
            && (NoEmptyRow(rows) ==>
                  forall i, j :: 0 <= i < |rows| && 0 <= j < |out| && keyOf(out[j]) == keyOf(rows[i]) ==> score(rows[i]) <= score(out[j]))
  {
    DedupeFoldInvariant(keyOf, score, rows);
    ValuesSpec(keyOf, score, DedupeFold(keyOf, score, rows), rows);
  }

  /** Every earlier row with the same key as `rows[p]` scores strictly lower. */
  ghost predicate EarlierLower(keyOf: Row -> DedupeKey, score: Row -> int, rows: seq<Row>, p: nat)
    requires p < |rows|
  {
    forall i :: 0 <= i < p && keyOf(rows[i]) == keyOf(rows[p]) ==> score(rows[i]) < score(rows[p])
  }

  /** Every kept row is a row seen, no earlier row of its key scoring as high. */
  ghost predicate FirstBest(keyOf: Row -> DedupeKey, score: Row -> int, seen: Seen, rows: seq<Row>) {
    forall k :: k in seen.kept ==>
      exists p :: 0 <= p < |rows| && rows[p] == seen.kept[k] && EarlierLower(keyOf, score, rows, p)
  }

  /** One turn keeps the first of the best-scoring rows of each key. */
  lemma StepFirstBest(keyOf: Row -> DedupeKey, score: Row -> int, seen: Seen, rows: seq<Row>, row: Row)
    requires DedupeInvariant(keyOf, score, seen, rows) && NoEmptyRow(rows) && row != map[]
    requires FirstBest(keyOf, score, seen, rows)
    ensures FirstBest(keyOf, score, DedupeStep(keyOf, score, seen, row), rows + [row])
  {
    var key := keyOf(row);
    var next := DedupeStep(keyOf, score, seen, row);
    var all := rows + [row];
    forall k | k in next.kept
      ensures exists p :: 0 <= p < |all| && all[p] == next.kept[k] && EarlierLower(keyOf, score, all, p)
    {
      if k == key && next.kept[k] == row && (key !in seen.kept || row != seen.kept[key]) {
        NewRowLower(keyOf, score, seen, rows, row);
        assert all[|rows|] == next.kept[k];
      } else {
        assert next.kept[k] == seen.kept[k];
        var p :| 0 <= p < |rows| && rows[p] == seen.kept[k] && EarlierLower(keyOf, score, rows, p);
        EarlierLowerExtends(keyOf, score, rows, row, p);
      }
    }
  }

  /** A row the step takes in place of another scores above every earlier row of its key. */
  lemma NewRowLower(keyOf: Row -> DedupeKey, score: Row -> int, seen: Seen, rows: seq<Row>, row: Row)
    requires DedupeInvariant(keyOf, score, seen, rows) && NoEmptyRow(rows) && row != map[]
    requires DedupeStep(keyOf, score, seen, row).kept[keyOf(row)] == row
    requires keyOf(row) !in seen.kept || row != seen.kept[keyOf(row)]
    ensures EarlierLower(keyOf, score, rows + [row], |rows|)
  {
    var key := keyOf(row);
    var all := rows + [row];
    if key in seen.kept {
      var j :| 0 <= j < |rows| && rows[j] == seen.kept[key];
      assert seen.kept[key] != map[];
      assert score(row) > score(seen.kept[key]);
    }
    forall i | 0 <= i < |rows| && keyOf(all[i]) == key ensures score(all[i]) < score(row) {
      assert all[i] == rows[i];
      assert keyOf(rows[i]) in seen.kept;
    }
  }

  /** A row's earlier rows stay the same when a row is appended. */
  lemma EarlierLowerExtends(keyOf: Row -> DedupeKey, score: Row -> int, rows: seq<Row>, row: Row, p: nat)
    requires p < |rows| && EarlierLower(keyOf, score, rows, p)
    ensures EarlierLower(keyOf, score, rows + [row], p) && (rows + [row])[p] == rows[p]
  {
    var all := rows + [row];
    forall i | 0 <= i < p && keyOf(all[i]) == keyOf(all[p]) ensures score(all[i]) < score(all[p]) {
      assert all[i] == rows[i];
    }
  }

  /** After any number of rows without an empty one, each kept row is the first best-scoring row of its key. */
  lemma {:induction false} DedupeFoldFirstBest(keyOf: Row -> DedupeKey, score: Row -> int, rows: seq<Row>)
    requires NoEmptyRow(rows)
    ensures FirstBest(keyOf, score, DedupeFold(keyOf, score, rows), rows)
    decreases |rows|
  {
    if rows != [] {
      var init := rows[..|rows| - 1];
      var last := rows[|rows| - 1];
      assert NoEmptyRow(init) by {
        forall i | 0 <= i < |init| ensures init[i] != map[] { assert init[i] == rows[i]; }
      }
      DedupeFoldFirstBest(keyOf, score, init);
      DedupeFoldInvariant(keyOf, score, init);
      StepFirstBest(keyOf, score, DedupeFold(keyOf, score, init), init, last);
      assert init + [last] == rows;
    }
  }

  /**
   * On a tie the first row stays: each row `dedupe_rows` returns is an input
   * row that every earlier row of its key scores strictly below.
   */
  lemma DedupeKeepsFirstOfTies(keyOf: Row -> DedupeKey, score: Row -> int, rows: seq<Row>)
    requires NoEmptyRow(rows)
    ensures KeysListed(DedupeFold(keyOf, score, rows))
    ensures var out := Values(DedupeFold(keyOf, score, rows));
      forall j :: 0 <= j < |out| ==>
        exists p :: 0 <= p < |rows| && rows[p] == out[j] && EarlierLower(keyOf, score, rows, p)
  {
    DedupeFoldInvariant(keyOf, score, rows);
    DedupeFoldFirstBest(keyOf, score, rows);
    var seen := DedupeFold(keyOf, score, rows);
    var out := Values(seen);
    forall j | 0 <= j < |out| ensures exists p :: 0 <= p < |rows| && rows[p] == out[j] && EarlierLower(keyOf, score, rows, p) {
      assert seen.keys[j] in seen.kept;
    }
  }

  /** The values of a dictionary that keeps the loop's promises. */
  lemma ValuesSpec(keyOf: Row -> DedupeKey, score: Row -> int, seen: Seen, rows: seq<Row>)
    requires DedupeInvariant(keyOf, score, seen, rows)
    ensures var out := Values(seen);
            (forall i, j :: 0 <= i < j < |out| ==> keyOf(out[i]) != keyOf(out[j]))
            && (forall i :: 0 <= i < |rows| ==> KeyShown(keyOf, out, keyOf(rows[i])))
            && (forall j :: 0 <= j < |out| ==> out[j] in rows)
            && (NoEmptyRow(rows) ==>
                  forall i, j :: 0 <= i < |rows| && 0 <= j < |out| && keyOf(out[j]) == keyOf(rows[i]) ==> score(rows[i]) <= score(out[j]))
  {
    var out := Values(seen);
    forall i, j | 0 <= i < j < |out| ensures keyOf(out[i]) != keyOf(out[j]) {
      assert seen.keys[i] in seen.kept && seen.keys[j] in seen.kept;
    }
    forall i | 0 <= i < |rows| ensures KeyShown(keyOf, out, keyOf(rows[i])) {
      var k := keyOf(rows[i]);
      assert k in seen.kept;
      var j :| 0 <= j < |seen.keys| && seen.keys[j] == k;
      assert keyOf(out[j]) == k;
    }
    forall j | 0 <= j < |out| ensures out[j] in rows {
      assert seen.keys[j] in seen.kept;
    }
    if NoEmptyRow(rows) {
      forall i, j | 0 <= i < |rows| && 0 <= j < |out| && keyOf(out[j]) == keyOf(rows[i])
        ensures score(rows[i]) <= score(out[j])
      {
        assert seen.keys[j] in seen.kept;
        assert seen.keys[j] == keyOf(rows[i]);
      }
    }
  }

  /** An empty row is replaced by the next row with its key, whatever that row's score. */
  lemma EmptyRowReplaced(keyOf: Row -> DedupeKey, score: Row -> int, seen: Seen, row: Row)
    requires keyOf(row) in seen.kept && seen.kept[keyOf(row)] == map[]
    ensures DedupeStep(keyOf, score, seen, row).kept[keyOf(row)] == row
  {
  }

  // ---------------------------------------------------------------------------
  // Ingest and exit code

  datatype SkipReason = InvalidCity | ClassificationExcluded | FailedThreshold | InvalidMapsUrl

  function ReasonText(reason: SkipReason): string {
    match reason
    case InvalidCity => "invalid_city"
    case ClassificationExcluded => "classification_excluded"
    case FailedThreshold => "failed_threshold"
    case InvalidMapsUrl => "invalid_maps_url"
  }

  /** The first failing check of city, classification, review thresholds and maps link. */
  function SkipReasonOf(row: Row, cfg: Config, urlparse: string -> UrlParts): (reason: Option<SkipReason>)
    ensures reason.None? <==>
              IsValidCity(row, cfg) && ClassifyPub(row) && PassesReviewFilters(row, cfg)
              && ValidMapsUrl(CellOr(row, "location_link", ""), urlparse)
    ensures reason == Some(ClassificationExcluded) ==> IsValidCity(row, cfg)
    ensures reason == Some(FailedThreshold) ==> IsValidCity(row, cfg) && ClassifyPub(row)
    ensures reason == Some(InvalidMapsUrl) ==> IsValidCity(row, cfg) && ClassifyPub(row) && PassesReviewFilters(row, cfg)
  {
    if !IsValidCity(row, cfg) then Some(InvalidCity)
    else if !ClassifyPub(row) then Some(ClassificationExcluded)
    else if !PassesReviewFilters(row, cfg) then Some(FailedThreshold)
    else if !ValidMapsUrl(CellOr(row, "location_link", ""), urlparse) then Some(InvalidMapsUrl)
    else None
  }

  /** An entry of the skipped report: the row's name and why it was skipped. */
  datatype SkippedRow = SkippedRow(name: Option<string>, reason: SkipReason)

  datatype Summary = Summary(inputRows: nat, postDedupe: nat, imported: nat, skipped: nat)

  datatype IngestReport<R> = IngestReport(summary: Summary, imported: seq<R>, skipped: seq<SkippedRow>)

  /** The normalised rows that pass every check, in order. */
  function ImportedRows<R>(rows: seq<Row>, cfg: Config, urlparse: string -> UrlParts, normalise: Row -> R): seq<R>
    decreases |rows|
  {
    if rows == [] then []
    else
      var init := ImportedRows(rows[..|rows| - 1], cfg, urlparse, normalise);
      var row := rows[|rows| - 1];
      if SkipReasonOf(row, cfg, urlparse).None? then init + [normalise(row)] else init
  }

  /** The rows that fail a check, with the first failing check, in order. */
  function SkippedRows(rows: seq<Row>, cfg: Config, urlparse: string -> UrlParts): seq<SkippedRow>
    decreases |rows|
  {
    if rows == [] then []
    else
      var init := SkippedRows(rows[..|rows| - 1], cfg, urlparse);
      var row := rows[|rows| - 1];
      match SkipReasonOf(row, cfg, urlparse)
      case None => init
      case Some(reason) => init + [SkippedRow(Cell(row, "name"), reason)]
  }

  /** Every row is either imported or skipped. */
  lemma {:induction false} ImportedPlusSkipped<R>(rows: seq<Row>, cfg: Config, urlparse: string -> UrlParts, normalise: Row -> R)
    ensures |ImportedRows(rows, cfg, urlparse, normalise)| + |SkippedRows(rows, cfg, urlparse)| == |rows|
    decreases |rows|
  {
    if rows != [] {
      ImportedPlusSkipped(rows[..|rows| - 1], cfg, urlparse, normalise);
    }
  }

  /**
   * `ingest`, after the CSV is read: dedupe, then sort every row into the
   * imported list (normalised) or the skipped report. The run's timestamp is
   * not part of this model.
   */
  method Ingest<R>(rawRows: seq<Row>, cfg: Config, urlparse: string -> UrlParts, normalise: Row -> R)
    returns (report: IngestReport<R>)
    ensures KeysListed(DedupeFold(DedupeKeyOf, ReviewScore, rawRows))
    ensures var deduped := Values(DedupeFold(DedupeKeyOf, ReviewScore, rawRows));
            report.imported == ImportedRows(deduped, cfg, urlparse, normalise)
            && report.skipped == SkippedRows(deduped, cfg, urlparse)
            && report.summary == Summary(|rawRows|, |deduped|, |report.imported|, |report.skipped|)
    ensures report.summary.imported + report.summary.skipped == report.summary.postDedupe
  {
    var deduped := DedupeRows(rawRows);
    var imported, skipped := SortRows(deduped, cfg, urlparse, normalise);
    report := IngestReport(Summary(|rawRows|, |deduped|, |imported|, |skipped|), imported, skipped);
  }

  /** The loop of `ingest` over the deduplicated rows. */
  method SortRows<R>(deduped: seq<Row>, cfg: Config, urlparse: string -> UrlParts, normalise: Row -> R)
    returns (imported: seq<R>, skipped: seq<SkippedRow>)
    ensures imported == ImportedRows(deduped, cfg, urlparse, normalise)
    ensures skipped == SkippedRows(deduped, cfg, urlparse)
    ensures |imported| + |skipped| == |deduped|
  {
    imported, skipped := [], [];
    for n := 0 to |deduped|
      invariant imported == ImportedRows(deduped[..n], cfg, urlparse, normalise)
      invariant skipped == SkippedRows(deduped[..n], cfg, urlparse)
    {
      var row := deduped[n];
      var reason := SkipReasonOf(row, cfg, urlparse);
      assert deduped[..n + 1][..n] == deduped[..n];
      if reason.Some? {
        skipped := skipped + [SkippedRow(Cell(row, "name"), reason.value)];
        continue;
      }
      imported := imported + [normalise(row)];
    }
    assert deduped[..|deduped|] == deduped;
    ImportedPlusSkipped(deduped, cfg, urlparse, normalise);
  }

  /** `main`'s exit status: 2 when more than 15% of the deduplicated rows were skipped, else 0. */
  function ExitCode(postDedupe: nat, skipped: nat): (code: int)
    ensures code == 0 || code == 2
  {
    var ratio := if postDedupe != 0 then skipped as real / postDedupe as real else 0.0;
    if ratio > 0.15 then 2 else 0
  }

  /** The exit status in whole numbers: 2 exactly when skipped * 100 exceeds post_dedupe * 15; never for no rows. */
  lemma ExitCodeIff(postDedupe: nat, skipped: nat)
    ensures ExitCode(postDedupe, skipped) == 2 <==> postDedupe > 0 && 100 * skipped > 15 * postDedupe
  {
    if postDedupe > 0 {
      var t, s := postDedupe as real, skipped as real;
      assert ExitCode(postDedupe, skipped) == (if s / t > 0.15 then 2 else 0);
      DivCompare(s, t, 0.15);
      assert s > 0.15 * t <==> 100 * skipped > 15 * postDedupe;
    }
  }

  /** Over a positive divisor, a quotient exceeds `c` exactly when the dividend exceeds `c` times the divisor. */
  lemma DivCompare(s: real, t: real, c: real)
    requires t > 0.0
    ensures s / t > c <==> s > c * t
  {
    var q := s / t;
    assert q * t == s;
    if q > c {
      ProductSign(q - c, t);
      assert (q - c) * t == q * t - c * t;
    } else {
      ProductSign(c - q, t);
      assert (c - q) * t == c * t - q * t;
    }
  }

  /** The sign of a product with a positive factor is the sign of the other. */
  lemma ProductSign(a: real, b: real)
    requires b > 0.0
    ensures a > 0.0 ==> a * b > 0.0
    ensures a >= 0.0 ==> a * b >= 0.0
  {
  }
}
