/**
 * The rating display helpers: the review-count and Google-rating texts, the
 * combined (mean) rating, and the display name of a rating platform.
 * Locale-dependent number formatting (`toLocaleString`, `toFixed(1)`) is
 * given as a function.
 */
module Ratings {
  import opened Wrappers
  import opened Text

  const NoReviews := "No reviews yet"
  const NoRating := "No rating yet"
  const GrowingSuffix := "+ and growing"

  predicate IsSuffix(t: string, s: string) {
    |t| <= |s| && s[|s| - |t|..] == t
  }

  /** `!x` for a number: null, undefined, NaN (all `None` here) and 0 are falsy. */
  predicate Falsy(x: Option<real>) {
    x.None? || x.value == 0.0
  }

  /**
   * `formatReviewCount`: "No reviews yet" for a falsy count, else the
   * formatted count followed by "+ and growing" or "+".
   */
  function FormatReviewCount(count: Option<real>, isGrowing: bool, localeString: real -> string): (r: string)
    ensures Falsy(count) ==> r == NoReviews
    ensures !Falsy(count) ==> IsPrefix(localeString(count.value), r)
    ensures !Falsy(count) ==> (IsSuffix(GrowingSuffix, r) <==> isGrowing)
    ensures !Falsy(count) ==> |r| > 0 && r[|r| - 1] in "g+"
  {
    if Falsy(count) then NoReviews
    else
      var formatted := localeString(count.value);
      if isGrowing then formatted + GrowingSuffix
      else
        var r := formatted + "+";
        assert r[|r| - 1] == '+' && GrowingSuffix[|GrowingSuffix| - 1] == 'g';
        r
  }

  /** A count shows "No reviews yet" exactly when it is falsy, whatever the formatter prints. */
  lemma NoReviewsIff(count: Option<real>, isGrowing: bool, localeString: real -> string)
    ensures FormatReviewCount(count, isGrowing, localeString) == NoReviews <==> Falsy(count)
  {
    assert NoReviews[|NoReviews| - 1] == 't';
  }

  /** `formatGoogleRating`: "No rating yet" for a falsy rating, else "<rating> ★ (<review text>)". */
  function FormatGoogleRating(rating: Option<real>, reviewCount: Option<real>, isGrowing: bool,
                              localeString: real -> string, toFixed1: real -> string): (r: string)
    ensures Falsy(rating) ==> r == NoRating
    ensures !Falsy(rating) ==>
              r == toFixed1(rating.value) + " ★ (" + FormatReviewCount(reviewCount, isGrowing, localeString) + ")"
  {
    if Falsy(rating) then NoRating
    else toFixed1(rating.value) + " ★ (" + FormatReviewCount(reviewCount, isGrowing, localeString) + ")"
  }

  /** A shown rating ends with its review text in parentheses; "No reviews yet" appears for a rating without reviews. */
  lemma GoogleRatingShowsReviews(rating: real, reviewCount: Option<real>, isGrowing: bool,
                                 localeString: real -> string, toFixed1: real -> string)
    requires rating != 0.0
    ensures var r := FormatGoogleRating(Some(rating), reviewCount, isGrowing, localeString, toFixed1);
            var t := FormatReviewCount(reviewCount, isGrowing, localeString);
            && IsSuffix(t + ")", r) && IsPrefix(toFixed1(rating), r)
            && (Falsy(reviewCount) ==> IsSuffix(NoReviews + ")", r))
  {
    var r := FormatGoogleRating(Some(rating), reviewCount, isGrowing, localeString, toFixed1);
    var t := FormatReviewCount(reviewCount, isGrowing, localeString);
    assert r == toFixed1(rating) + " ★ (" + (t + ")");
  }

  // ---------------------------------------------------------------------------
  // calculateCombinedRating

  /** `ratings.reduce((acc, rating) => acc + rating, 0)`, added left to right. */
  function Sum(ratings: seq<real>): real
    decreases |ratings|
  {
    if ratings == [] then 0.0 else Sum(ratings[..|ratings| - 1]) + ratings[|ratings| - 1]
  }

  /** `calculateCombinedRating`: null for no ratings, else their arithmetic mean. */
  function CombinedRating(ratings: seq<real>): (r: Option<real>)
    ensures r.None? <==> ratings == []
    ensures r.Some? ==> r.value * (|ratings| as real) == Sum(ratings)
  {
    if ratings == [] then None else Some(Sum(ratings) / (|ratings| as real))
  }

  /** If every rating lies in [lo, hi], the sum of n ratings lies in [n·lo, n·hi]. */
  lemma {:induction false} SumBounds(ratings: seq<real>, lo: real, hi: real)
    requires forall i :: 0 <= i < |ratings| ==> lo <= ratings[i] <= hi
    ensures (|ratings| as real) * lo <= Sum(ratings) <= (|ratings| as real) * hi
    decreases |ratings|
  {
    if ratings != [] {
      var p := ratings[..|ratings| - 1];
      assert forall i :: 0 <= i < |p| ==> p[i] == ratings[i];
      SumBounds(p, lo, hi);
      var n := |p| as real;
      assert |ratings| as real == n + 1.0;
      assert Sum(ratings) == Sum(p) + ratings[|ratings| - 1];
      assert (n + 1.0) * lo == n * lo + lo && (n + 1.0) * hi == n * hi + hi;
    }
  }

  /** The combined rating lies between the smallest and the largest rating, which it reaches. */
  lemma CombinedRatingBetween(ratings: seq<real>, lo: real, hi: real)
    requires ratings != []
    requires forall i :: 0 <= i < |ratings| ==> lo <= ratings[i] <= hi
    ensures lo <= CombinedRating(ratings).value <= hi
  {
    SumBounds(ratings, lo, hi);
    var n := |ratings| as real;
    var m := CombinedRating(ratings).value;
    assert m * n == Sum(ratings);
  }

  /** Equal ratings combine to that rating. */
  lemma CombinedRatingOfEqual(ratings: seq<real>, x: real)
    requires ratings != []
    requires forall i :: 0 <= i < |ratings| ==> ratings[i] == x
    ensures CombinedRating(ratings) == Some(x)
  {
    CombinedRatingBetween(ratings, x, x);
  }

  // ---------------------------------------------------------------------------
  // formatPlatformName

  /** The separators of `/[-_\s]/`. */
  predicate IsWordSep(c: char) {
    c == '-' || c == '_' || IsSpace(c)
  }

  /** The index of the first separator, or `|s|`. */
  function FirstSep(s: string): (i: nat)
    ensures i <= |s|
    ensures i < |s| ==> IsWordSep(s[i])
    ensures forall j :: 0 <= j < i ==> !IsWordSep(s[j])
  {
    if s == [] then 0 else if IsWordSep(s[0]) then 0 else 1 + FirstSep(s[1..])
  }

  /** `s.split(/[-_\s]/)`: the pieces between separators, empty ones included. */
  function Words(s: string): (words: seq<string>)
    ensures |words| >= 1
    decreases |s|
  {
    var i := FirstSep(s);
    if i == |s| then [s] else [s[..i]] + Words(s[i + 1..])
  }

  /** `word.charAt(0).toUpperCase() + word.slice(1).toLowerCase()`. */
  function Capitalize(word: string): (r: string)
    ensures |r| == |word|
  {
    if word == [] then [] else Upper(word[..1]) + Lower(word[1..])
  }

  /** Capitalizes every word and joins them with single spaces. */
  function TitleWords(words: seq<string>): string
    requires |words| >= 1
    decreases |words|
  {
    if |words| == 1 then Capitalize(words[0]) else Capitalize(words[0]) + " " + TitleWords(words[1..])
  }

  /** The title-cased spelling of a name. */
  function TitleCase(s: string): string {
    TitleWords(Words(s))
  }

  /** What title casing puts at position `i`: a space for a separator, else the letter upper-cased at a word start and lower-cased elsewhere. */
  function TitleChar(s: string, i: nat): char
    requires i < |s|
  {
    if IsWordSep(s[i]) then ' '
    else if i == 0 || IsWordSep(s[i - 1]) then UpperChar(s[i])
    else LowerChar(s[i])
  }

  /**
   * Title casing keeps the length, turns every separator into a space, and
   * upper-cases exactly the first letter of each word.
   */
  /** Capitalizing upper-cases the first letter and lower-cases the rest. */
  lemma CapitalizePointwise(w: string)
    ensures forall j :: 0 <= j < |w| ==> Capitalize(w)[j] == (if j == 0 then UpperChar(w[0]) else LowerChar(w[j]))
  {
    if w != [] {
      var c := Capitalize(w);
      assert c == Upper(w[..1]) + Lower(w[1..]);
      forall j | 0 <= j < |w| ensures c[j] == (if j == 0 then UpperChar(w[0]) else LowerChar(w[j])) {
        if j > 0 { assert c[j] == Lower(w[1..])[j - 1]; }
      }
    }
  }

  /**
   * Title casing keeps the length, turns every separator into a space, and
   * upper-cases exactly the first letter of each word.
   */
  lemma {:induction false} TitleCasePointwise(s: string)
    ensures |TitleCase(s)| == |s|
    ensures forall i :: 0 <= i < |s| ==> TitleCase(s)[i] == TitleChar(s, i)
    decreases |s|
  {
    var i := FirstSep(s);
    var w := s[..i];
    CapitalizePointwise(w);
    if i < |s| {
      var rest := s[i + 1..];
      TitleCasePointwise(rest);
      TitleCaseSplit(s, i, w, rest);
    }
  }

  /** Title casing a name with a separator: its first word capitalized, a space, and the rest title-cased. */
  lemma TitleCaseCons(s: string)
    requires FirstSep(s) < |s|
    ensures TitleCase(s) == Capitalize(s[..FirstSep(s)]) + " " + TitleCase(s[FirstSep(s) + 1..])
  {
    var i := FirstSep(s);
    var ws := Words(s);
    var rest := Words(s[i + 1..]);
    assert ws == [s[..i]] + rest;
    assert ws[1..] == rest;
    assert TitleWords(ws) == Capitalize(ws[0]) + " " + TitleWords(ws[1..]);
  }

  /** Past the first word, title casing `s` is title casing what follows the separator. */
  lemma TitleCaseSplit(s: string, i: nat, w: string, rest: string)
    requires i == FirstSep(s) < |s| && w == s[..i] && rest == s[i + 1..]
    requires forall j :: 0 <= j < |w| ==> Capitalize(w)[j] == (if j == 0 then UpperChar(w[0]) else LowerChar(w[j]))
    requires |TitleCase(rest)| == |rest|
    requires forall k :: 0 <= k < |rest| ==> TitleCase(rest)[k] == TitleChar(rest, k)
    ensures |TitleCase(s)| == |s|
    ensures forall k :: 0 <= k < |s| ==> TitleCase(s)[k] == TitleChar(s, k)
  {
    var c := Capitalize(w);
    var t := TitleCase(rest);
    var all := c + " " + t;
    TitleCaseCons(s);
    forall k | 0 <= k < |s| ensures all[k] == TitleChar(s, k) {
      if k < i {
        assert all[k] == c[k];
        assert s[k] == w[k];
      } else if k == i {
        assert all[k] == ' ';
      } else {
        assert all[k] == t[k - i - 1];
        assert s[k] == rest[k - i - 1];
        assert k - 1 == i || s[k - 1] == rest[k - i - 2];
      }
    }
  }

  /** The fixed display names, keyed by the lower-cased platform. */
  const SpecialCases: map<string, string> := map[
    "tripadvisor" := "TripAdvisor",
    "eazydiner" := "EazyDiner",
    "zomato" := "Zomato",
    "justdial" := "Justdial",
    "google" := "Google"]

  /** `formatPlatformName` with only the table's own keys looked up. */
  function FormatPlatformName(platform: string): (r: string)
    ensures Lower(platform) in SpecialCases ==> r == SpecialCases[Lower(platform)]
    ensures Lower(platform) !in SpecialCases ==> r == TitleCase(platform)
  {
    var key := Lower(platform);
    if key in SpecialCases then SpecialCases[key] else TitleCase(platform)
  }

  /** Two characters with the same lower case have the same upper case and are both separators or neither. */
  lemma SameLowerChar(x: char, y: char)
    requires LowerChar(x) == LowerChar(y)
    ensures UpperChar(x) == UpperChar(y) && LowerChar(x) == LowerChar(y)
    ensures IsWordSep(x) <==> IsWordSep(y)
  {
  }

  /** The platform name is case-insensitive throughout, not only for the special platforms. */
  lemma FormatPlatformNameCaseInsensitive(a: string, b: string)
    requires Lower(a) == Lower(b)
    ensures FormatPlatformName(a) == FormatPlatformName(b)
  {
    if Lower(a) !in SpecialCases {
      TitleCasePointwise(a);
      TitleCasePointwise(b);
      assert |a| == |Lower(a)| == |b|;
      forall i | 0 <= i < |a| ensures TitleChar(a, i) == TitleChar(b, i) {
        assert Lower(a)[i] == Lower(b)[i];
        SameLowerChar(a[i], b[i]);
        if i > 0 {
          assert Lower(a)[i - 1] == Lower(b)[i - 1];
          SameLowerChar(a[i - 1], b[i - 1]);
        }
      }
      assert TitleCase(a) == TitleCase(b);
    }
  }

  /** Any other name keeps its length, gets spaces for its separators and a capital at each word start. */
  lemma FormatPlatformNameOtherwise(platform: string)
    requires Lower(platform) !in SpecialCases
    ensures |FormatPlatformName(platform)| == |platform|
    ensures forall i :: 0 <= i < |platform| ==> FormatPlatformName(platform)[i] == TitleChar(platform, i)
  {
    TitleCasePointwise(platform);
  }

  /**
   * What a JavaScript object literal answers for a key it does not own
   * but inherits from `Object.prototype`, for the inherited names that
   * are entirely lower case: both are truthy (a function and an object).
   */
  const InheritedLowerKeys: set<string> := {"constructor", "__proto__"}

  /** A looked-up value as the page would get it: a string, or an inherited non-string member. */
  datatype Shown = Name(text: string) | Inherited(key: string)

  /**
   * `formatPlatformName` as written: `specialCases[platform.toLowerCase()]`
   * also finds the members every object inherits, which are truthy, so those
   * are returned instead of a name.
   */
  function FormatPlatformNameAsWritten(platform: string): (r: Shown)
    ensures Lower(platform) in SpecialCases ==> r == Name(SpecialCases[Lower(platform)])
    ensures r.Inherited? <==> Lower(platform) in InheritedLowerKeys
  {
    var key := Lower(platform);
    if key in SpecialCases then Name(SpecialCases[key])
    else if key in InheritedLowerKeys then Inherited(key)
    else Name(TitleCase(platform))
  }

  /** A name without capitals is its own lower case. */
  lemma LowerOfLower(s: string)
    requires forall i :: 0 <= i < |s| ==> !IsUpperAscii(s[i])
    ensures Lower(s) == s
  {
  }

  /** The platform "constructor" is shown as the inherited `Object` constructor, not as a name. */
  lemma ConstructorIsNotAName()
    ensures FormatPlatformNameAsWritten("constructor") == Inherited("constructor")
  {
    LowerOfLower("constructor");
  }

  /** The corrected lookup title-cases "constructor" and "__proto__", as any other unknown platform. */
  lemma InheritedKeysCapitalized(platform: string)
    requires Lower(platform) in InheritedLowerKeys
    ensures FormatPlatformName(platform) == TitleCase(platform)
  {
    InheritedNotSpecial(Lower(platform));
  }

  /** No inherited key is one of the special platforms. */
  lemma InheritedNotSpecial(key: string)
    requires key in InheritedLowerKeys
    ensures key !in SpecialCases
  {
    assert key[0] == 'c' || key[0] == '_';
  }

  /** Away from the inherited keys, the corrected lookup agrees with the code as written. */
  lemma FormatPlatformNameAgrees(platform: string)
    requires Lower(platform) !in InheritedLowerKeys
    ensures FormatPlatformNameAsWritten(platform) == Name(FormatPlatformName(platform))
  {
  }
}
