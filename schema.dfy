/**
 * The JSON-LD checker run over the pub and locality pages: the rules for a
 * parsed JSON-LD value, the `JSON.stringify(variable)` scan, the search for
 * the variable's object literal with its brace matcher, the literal's
 * @context/@type check, and the outcome for one page.
 */
module SchemaValidation {
  import opened Wrappers
  import opened Text
  import opened JsonValue

  /** No value occurs twice. */
  predicate NoRepeats<T(==)>(s: seq<T>) {
    forall i, j :: 0 <= i < j < |s| ==> s[i] != s[j]
  }

  // ---------------------------------------------------------------------------
  // A parsed JSON-LD value

  /** The rules `validateJsonLd` checks, one per message it can push. */
  datatype JsonLdError =
    | NotAnObject | MissingContext | ContextNotString | MissingType | TypeNotString
    | BarWithoutName | FaqWithoutEntities | RatingWrongType | RatingValueNotNumber | ReviewCountNotNumber

  function Message(e: JsonLdError): string {
    match e
    case NotAnObject => "JSON-LD must be an object"
    case MissingContext => "Missing required @context field"
    case ContextNotString => "@context must be a string"
    case MissingType => "Missing required @type field"
    case TypeNotString => "@type must be a string"
    case BarWithoutName => "BarOrPub must have a name field"
    case FaqWithoutEntities => "FAQPage must have mainEntity array"
    case RatingWrongType => "aggregateRating must have @type: AggregateRating"
    case RatingValueNotNumber => "aggregateRating.ratingValue must be a number"
    case ReviewCountNotNumber => "aggregateRating.reviewCount must be a number"
  }

  /** The messages of a list of failed rules, in order. */
  function Messages(es: seq<JsonLdError>): (r: seq<string>)
    ensures |r| == |es|
    ensures forall i :: 0 <= i < |es| ==> r[i] == Message(es[i])
  {
    seq(|es|, i requires 0 <= i < |es| => Message(es[i]))
  }

  /** Different rules have different messages. */
  lemma MessageInjective(a: JsonLdError, b: JsonLdError)
    requires Message(a) == Message(b)
    ensures a == b
  {
    FingerprintOfMessage(a);
    FingerprintOfMessage(b);
    FingerprintInjective(a, b);
  }

  lemma FingerprintInjective(a: JsonLdError, b: JsonLdError)
    requires FingerprintOf(a) == FingerprintOf(b)
    ensures a == b
  {
  }

  /** The length and the eighteenth character from the end of a message: enough to tell the messages apart. */
  function Fingerprint(m: string): (int, char) {
    if |m| >= 18 then (|m|, m[|m| - 18]) else (|m|, ' ')
  }

  /** Each rule's message fingerprint, written out; no two are alike. */
  function FingerprintOf(e: JsonLdError): (int, char) {
    match e
    case NotAnObject => (25, ' ')
    case MissingContext => (31, 'r')
    case ContextNotString => (25, 't')
    case MissingType => (28, 'q')
    case TypeNotString => (22, 'e')
    case BarWithoutName => (31, ' ')
    case FaqWithoutEntities => (34, 'e')
    case RatingWrongType => (48, 'e')
    case RatingValueNotNumber => (44, 'e')
    case ReviewCountNotNumber => (44, 't')
  }

  lemma FingerprintOfMessage(e: JsonLdError)
    ensures Fingerprint(Message(e)) == FingerprintOf(e)
  {
    if e.NotAnObject? || e.MissingContext? || e.ContextNotString? || e.MissingType? || e.TypeNotString? {
      FingerprintOfContextAndType(e);
    } else {
      FingerprintOfTypeAndRating(e);
    }
  }

  lemma FingerprintOfContextAndType(e: JsonLdError)
    requires e.NotAnObject? || e.MissingContext? || e.ContextNotString? || e.MissingType? || e.TypeNotString?
    ensures Fingerprint(Message(e)) == FingerprintOf(e)
  {
  }

  lemma FingerprintOfTypeAndRating(e: JsonLdError)
    requires !(e.NotAnObject? || e.MissingContext? || e.ContextNotString? || e.MissingType? || e.TypeNotString?)
    ensures Fingerprint(Message(e)) == FingerprintOf(e)
  {
  }

  /** A message is returned exactly when its rule failed. */
  lemma MessageInIff(es: seq<JsonLdError>, e: JsonLdError)
    ensures Message(e) in Messages(es) <==> e in es
  {
    if Message(e) in Messages(es) {
      var i :| 0 <= i < |es| && Messages(es)[i] == Message(e);
      MessageInjective(es[i], e);
    }
  }

  /** No message is returned twice when no rule failed twice. */
  lemma MessagesDistinct(es: seq<JsonLdError>)
    requires NoRepeats(es)
    ensures NoRepeats(Messages(es))
  {
    forall i, j | 0 <= i < j < |es| ensures Messages(es)[i] != Messages(es)[j] {
      if Messages(es)[i] == Messages(es)[j] {
        MessageInjective(es[i], es[j]);
      }
    }
  }

  /** `!!obj[key]`, an absent property being `undefined`. */
  predicate TruthyField(v: Json, key: string) {
    Get(v, key).Some? && Truthy(Get(v, key).value)
  }

  predicate StringField(v: Json, key: string) {
    Get(v, key).Some? && Get(v, key).value.JStr?
  }

  predicate NumberField(v: Json, key: string) {
    Get(v, key).Some? && Get(v, key).value.JNum?
  }

  /** `obj[key] === JStr(s)`. */
  predicate FieldIs(v: Json, key: string, s: string) {
    Get(v, key) == Some(JStr(s))
  }

  predicate HasArray(v: Json, key: string) {
    Get(v, key).Some? && Get(v, key).value.JArr?
  }

  /** The outcome of every test `validateJsonLd` makes on an object. */
  datatype Checks = Checks(
    contextTruthy: bool, contextString: bool,
    typeTruthy: bool, typeString: bool,
    isBar: bool, nameOk: bool,
    isFaq: bool, hasEntities: bool,
    ratingTruthy: bool, ratingTyped: bool, ratingValueNumber: bool, reviewCountNumber: bool)

  function ChecksOf(v: Json): Checks {
    var rating := Get(v, "aggregateRating").GetOr(JNull);
    Checks(
      TruthyField(v, "@context"), StringField(v, "@context"),
      TruthyField(v, "@type"), StringField(v, "@type"),
      FieldIs(v, "@type", "BarOrPub"), TruthyField(v, "name") && StringField(v, "name"),
      FieldIs(v, "@type", "FAQPage"), HasArray(v, "mainEntity"),
      TruthyField(v, "aggregateRating"), FieldIs(rating, "@type", "AggregateRating"),
      NumberField(rating, "ratingValue"), NumberField(rating, "reviewCount"))
  }

  /**
   * When each rule fails on an object: @context and @type are first checked
   * for presence and only then for being strings; the name rule applies to
   * BarOrPub, the mainEntity rule to FAQPage, the three rating rules only
   * when aggregateRating is truthy.
   */
  predicate Failed(c: Checks, e: JsonLdError) {
    match e
    case NotAnObject => false
    case MissingContext => !c.contextTruthy
    case ContextNotString => c.contextTruthy && !c.contextString
    case MissingType => !c.typeTruthy
    case TypeNotString => c.typeTruthy && !c.typeString
    case BarWithoutName => c.isBar && !c.nameOk
    case FaqWithoutEntities => c.isFaq && !c.hasEntities
    case RatingWrongType => c.ratingTruthy && !c.ratingTyped
    case RatingValueNotNumber => c.ratingTruthy && !c.ratingValueNumber
    case ReviewCountNotNumber => c.ratingTruthy && !c.reviewCountNumber
  }

  /** The rules on an object, in the order their messages are pushed. */
  const ObjectRules: seq<JsonLdError> := [
    MissingContext, ContextNotString, MissingType, TypeNotString, BarWithoutName,
    FaqWithoutEntities, RatingWrongType, RatingValueNotNumber, ReviewCountNotNumber]

  /** The rules of `rules` that fail, in order. */
  function FailedAmong(c: Checks, rules: seq<JsonLdError>): seq<JsonLdError>
    decreases |rules|
  {
    if rules == [] then []
    else
      var init := FailedAmong(c, rules[..|rules| - 1]);
      var e := rules[|rules| - 1];
      if Failed(c, e) then init + [e] else init
  }

  /** Exactly the failing rules of the list are kept. */
  lemma {:induction false} FailedAmongMembers(c: Checks, rules: seq<JsonLdError>)
    ensures forall e :: e in FailedAmong(c, rules) <==> e in rules && Failed(c, e)
    decreases |rules|
  {
    if rules != [] {
      var p := rules[..|rules| - 1];
      FailedAmongMembers(c, p);
      assert rules == p + [rules[|rules| - 1]];
    }
  }

  /** Keeping the failing rules of a list without repeats repeats none. */
  lemma {:induction false} FailedAmongDistinct(c: Checks, rules: seq<JsonLdError>)
    requires NoRepeats(rules)
    ensures NoRepeats(FailedAmong(c, rules))
    decreases |rules|
  {
    if rules != [] {
      var p := rules[..|rules| - 1];
      FailedAmongDistinct(c, p);
      var e := rules[|rules| - 1];
      assert e !in p by {
        forall i | 0 <= i < |p| ensures p[i] != e { assert p[i] == rules[i]; }
      }
      FailedAmongMembers(c, p);
      var init := FailedAmong(c, p);
      assert e !in init;
      var r := FailedAmong(c, rules);
      if Failed(c, e) {
        assert r == init + [e];
        forall i, j | 0 <= i < j < |r| ensures r[i] != r[j] {
          if j < |init| { assert r[i] == init[i] && r[j] == init[j]; }
          else { assert r[j] == e && r[i] == init[i] && r[i] in init; }
        }
      } else {
        assert r == init;
      }
    }
  }

  /** The rules `validateJsonLd` reports failed. */
  function JsonLdErrors(v: Json): seq<JsonLdError> {
    if !Truthy(v) || !IsObjectLike(v) then [NotAnObject] else FailedAmong(ChecksOf(v), ObjectRules)
  }

  /**
   * A falsy or non-object value gives only "must be an object"; on an object
   * exactly the failed rules are reported, none twice.
   */
  lemma JsonLdErrorsSpec(v: Json)
    ensures !Truthy(v) || !IsObjectLike(v) ==> JsonLdErrors(v) == [NotAnObject]
    ensures Truthy(v) && IsObjectLike(v) ==>
              forall e :: e in JsonLdErrors(v) <==> Failed(ChecksOf(v), e)
    ensures NoRepeats(JsonLdErrors(v))
  {
    if Truthy(v) && IsObjectLike(v) {
      var c := ChecksOf(v);
      assert JsonLdErrors(v) == FailedAmong(c, ObjectRules);
      FailedAmongDistinct(c, ObjectRules);
      FailedAmongMembers(c, ObjectRules);
      forall e ensures e in ObjectRules && Failed(c, e) <==> Failed(c, e) {
        if e != NotAnObject { ObjectRuleListed(e); }
      }
    }
  }

  lemma ObjectRuleListed(e: JsonLdError)
    requires e != NotAnObject
    ensures e in ObjectRules
  {
    match e
    case MissingContext => assert ObjectRules[0] == e;
    case ContextNotString => assert ObjectRules[1] == e;
    case MissingType => assert ObjectRules[2] == e;
    case TypeNotString => assert ObjectRules[3] == e;
    case BarWithoutName => assert ObjectRules[4] == e;
    case FaqWithoutEntities => assert ObjectRules[5] == e;
    case RatingWrongType => assert ObjectRules[6] == e;
    case RatingValueNotNumber => assert ObjectRules[7] == e;
    case ReviewCountNotNumber => assert ObjectRules[8] == e;
  }

  /** Every rule holds on an object, spelled out. */
  predicate AllRulesHold(c: Checks) {
    && c.contextTruthy && c.contextString && c.typeTruthy && c.typeString
    && (c.isBar ==> c.nameOk) && (c.isFaq ==> c.hasEntities)
    && (c.ratingTruthy ==> c.ratingTyped && c.ratingValueNumber && c.reviewCountNumber)
  }

  lemma NoRuleFailsIff(c: Checks)
    ensures (forall e :: !Failed(c, e)) <==> AllRulesHold(c)
  {
    if forall e :: !Failed(c, e) {
      assert !Failed(c, MissingContext) && !Failed(c, ContextNotString);
      assert !Failed(c, MissingType) && !Failed(c, TypeNotString);
      assert !Failed(c, BarWithoutName) && !Failed(c, FaqWithoutEntities);
      assert !Failed(c, RatingWrongType) && !Failed(c, RatingValueNotNumber);
      assert !Failed(c, ReviewCountNotNumber);
    }
  }

  /** A value passes exactly when it is a truthy object and every rule holds. */
  lemma JsonLdValidIff(v: Json)
    ensures JsonLdErrors(v) == [] <==> Truthy(v) && IsObjectLike(v) && AllRulesHold(ChecksOf(v))
  {
    JsonLdErrorsSpec(v);
    if Truthy(v) && IsObjectLike(v) {
      var c := ChecksOf(v);
      NoRuleFailsIff(c);
      if JsonLdErrors(v) != [] {
        assert JsonLdErrors(v)[0] in JsonLdErrors(v);
      }
    }
  }

  /** One more rule checked: its message is pushed exactly when it failed. */
  lemma FailedAmongStep(c: Checks, rules: seq<JsonLdError>, k: nat)
    requires k < |rules|
    ensures FailedAmong(c, rules[..k + 1]) == FailedAmong(c, rules[..k]) + Rule(c, rules[k])
  {
    assert rules[..k + 1][..k] == rules[..k];
  }

  /** `[e]` when rule `e` fails on `c`, `[]` when it holds. */
  function Rule(c: Checks, e: JsonLdError): seq<JsonLdError> {
    if Failed(c, e) then [e] else []
  }

  /** The rules pushed on an object, written out in the source's order. */
  function ObjectErrors(c: Checks): seq<JsonLdError> {
    Rule(c, MissingContext) + Rule(c, ContextNotString) + Rule(c, MissingType) + Rule(c, TypeNotString)
    + Rule(c, BarWithoutName) + Rule(c, FaqWithoutEntities)
    + Rule(c, RatingWrongType) + Rule(c, RatingValueNotNumber) + Rule(c, ReviewCountNotNumber)
  }

  /** Checking two lists of rules one after the other reports the failures of each, in order. */
  lemma {:induction false} FailedAmongAppend(c: Checks, a: seq<JsonLdError>, b: seq<JsonLdError>)
    ensures FailedAmong(c, a + b) == FailedAmong(c, a) + FailedAmong(c, b)
    decreases |b|
  {
    if b != [] {
      var n := |b| - 1;
      assert (a + b)[..|a + b| - 1] == a + b[..n];
      FailedAmongAppend(c, a, b[..n]);
    } else {
      assert a + b == a;
    }
  }

  /** Three rules checked in order. */
  lemma FailedAmongThree(c: Checks, x: JsonLdError, y: JsonLdError, z: JsonLdError)
    ensures FailedAmong(c, [x, y, z]) == Rule(c, x) + Rule(c, y) + Rule(c, z)
  {
    assert FailedAmong(c, [x]) == Rule(c, x) by {
      assert [x][..0] == [];
    }
    assert FailedAmong(c, [x, y]) == Rule(c, x) + Rule(c, y) by {
      assert [x, y][..1] == [x];
    }
    assert [x, y, z][..2] == [x, y];
  }

  lemma ObjectErrorsInOrder(c: Checks)
    ensures ObjectErrors(c) == FailedAmong(c, ObjectRules)
  {
    var first := [MissingContext, ContextNotString, MissingType];
    var second := [TypeNotString, BarWithoutName, FaqWithoutEntities];
    var third := [RatingWrongType, RatingValueNotNumber, ReviewCountNotNumber];
    var g1 := Rule(c, MissingContext) + Rule(c, ContextNotString) + Rule(c, MissingType);
    var g2 := Rule(c, TypeNotString) + Rule(c, BarWithoutName) + Rule(c, FaqWithoutEntities);
    var g3 := Rule(c, RatingWrongType) + Rule(c, RatingValueNotNumber) + Rule(c, ReviewCountNotNumber);
    assert ObjectRules == first + second + third;
    FailedAmongAppend(c, first + second, third);
    FailedAmongAppend(c, first, second);
    FailedAmongThree(c, MissingContext, ContextNotString, MissingType);
    FailedAmongThree(c, TypeNotString, BarWithoutName, FaqWithoutEntities);
    FailedAmongThree(c, RatingWrongType, RatingValueNotNumber, ReviewCountNotNumber);
    assert FailedAmong(c, ObjectRules) == g1 + g2 + g3;
    Regroup(Rule(c, MissingContext), Rule(c, ContextNotString), Rule(c, MissingType),
            Rule(c, TypeNotString), Rule(c, BarWithoutName), Rule(c, FaqWithoutEntities),
            Rule(c, RatingWrongType), Rule(c, RatingValueNotNumber), Rule(c, ReviewCountNotNumber));
  }

  /** Nine lists joined one after another are the three joined triples. */
  lemma Regroup<T>(s1: seq<T>, s2: seq<T>, s3: seq<T>, s4: seq<T>, s5: seq<T>, s6: seq<T>, s7: seq<T>, s8: seq<T>, s9: seq<T>)
    ensures s1 + s2 + s3 + s4 + s5 + s6 + s7 + s8 + s9 == (s1 + s2 + s3) + (s4 + s5 + s6) + (s7 + s8 + s9)
  {
  }

  /**
   * `validateJsonLd`: a falsy or non-object value gives only "must be an
   * object"; otherwise each failed rule pushes its message, in order, and
   * the value is valid exactly when none did. The list holds the rules;
   * `Messages` gives the text the source pushes for them.
   */
  method ValidateJsonLd(jsonLd: Json) returns (valid: bool, errors: seq<JsonLdError>)
    ensures errors == JsonLdErrors(jsonLd)
    ensures valid <==> errors == []
  {
    if !Truthy(jsonLd) || !IsObjectLike(jsonLd) {
      return false, [NotAnObject];
    }
    var c := ChecksOf(jsonLd);
    errors := CheckContext([], c);
    errors := CheckType(errors, c);
    errors := CheckPageType(errors, c);
    errors := CheckAggregateRating(errors, c);
    AfterNothing(Rule(c, MissingContext), Rule(c, ContextNotString), Rule(c, MissingType),
                 Rule(c, TypeNotString), Rule(c, BarWithoutName), Rule(c, FaqWithoutEntities),
                 Rule(c, RatingWrongType), Rule(c, RatingValueNotNumber), Rule(c, ReviewCountNotNumber));
    assert errors == ObjectErrors(c);
    ObjectErrorsInOrder(c);
    assert JsonLdErrors(jsonLd) == FailedAmong(c, ObjectRules);
    valid := errors == [];
  }

  /** Nine lists joined after an empty one are the nine lists joined. */
  lemma AfterNothing<T>(s1: seq<T>, s2: seq<T>, s3: seq<T>, s4: seq<T>, s5: seq<T>, s6: seq<T>, s7: seq<T>, s8: seq<T>, s9: seq<T>)
    ensures [] + s1 + s2 + s3 + s4 + s5 + s6 + s7 + s8 + s9 == s1 + s2 + s3 + s4 + s5 + s6 + s7 + s8 + s9
  {
    assert [] + s1 == s1;
  }

  /** The @context block of `validateJsonLd`: missing, else not a string. */
  method CheckContext(errors: seq<JsonLdError>, c: Checks) returns (errors': seq<JsonLdError>)
    ensures errors' == errors + Rule(c, MissingContext) + Rule(c, ContextNotString)
  {
    errors' := errors;
    if !c.contextTruthy {
      errors' := errors' + [MissingContext];
    } else if !c.contextString {
      errors' := errors' + [ContextNotString];
    }
  }

  /** The @type block of `validateJsonLd`: missing, else not a string. */
  method CheckType(errors: seq<JsonLdError>, c: Checks) returns (errors': seq<JsonLdError>)
    ensures errors' == errors + Rule(c, MissingType) + Rule(c, TypeNotString)
  {
    errors' := errors;
    if !c.typeTruthy {
      errors' := errors' + [MissingType];
    } else if !c.typeString {
      errors' := errors' + [TypeNotString];
    }
  }

  /** The rules for a `BarOrPub` and for an `FAQPage`. */
  method CheckPageType(errors: seq<JsonLdError>, c: Checks) returns (errors': seq<JsonLdError>)
    ensures errors' == errors + Rule(c, BarWithoutName) + Rule(c, FaqWithoutEntities)
  {
    errors' := errors;
    if c.isBar {
      if !c.nameOk {
        errors' := errors' + [BarWithoutName];
      }
    }
    ghost var f := errors';
    assert f == errors + Rule(c, BarWithoutName);
    if c.isFaq {
      if !c.hasEntities {
        errors' := errors' + [FaqWithoutEntities];
      }
    }
  }

  /** The `aggregateRating` block of `validateJsonLd`: three rules, only when the field is truthy. */
  method CheckAggregateRating(errors: seq<JsonLdError>, c: Checks) returns (errors': seq<JsonLdError>)
    ensures errors' == errors + Rule(c, RatingWrongType) + Rule(c, RatingValueNotNumber) + Rule(c, ReviewCountNotNumber)
  {
    errors' := errors;
    if c.ratingTruthy {
      if !c.ratingTyped {
        errors' := errors' + [RatingWrongType];
      }
      ghost var f7 := errors';
      assert f7 == errors + Rule(c, RatingWrongType);
      if !c.ratingValueNumber {
        errors' := errors' + [RatingValueNotNumber];
      }
      ghost var f8 := errors';
      assert f8 == f7 + Rule(c, RatingValueNotNumber);
      if !c.reviewCountNumber {
        errors' := errors' + [ReviewCountNotNumber];
      }
    }
  }

  // ---------------------------------------------------------------------------
  // Variables passed to JSON.stringify

  /** The position of the first `x` in `s`, or `|s|`. */
  function FirstIndex<T(==)>(s: seq<T>, x: T): (i: nat)
    ensures i <= |s|
    ensures i < |s| ==> s[i] == x
    ensures forall j :: 0 <= j < i ==> s[j] != x
  {
    if s == [] then 0 else if s[0] == x then 0 else 1 + FirstIndex(s[1..], x)
  }

  /** `Array.from(new Set(s))`: each value once, where it first occurs. */
  function Distinct(s: seq<string>): (r: seq<string>)
    ensures forall x :: x in r <==> x in s
    ensures NoRepeats(r)
    decreases |s|
  {
    if s == [] then []
    else
      var init := Distinct(s[..|s| - 1]);
      var x := s[|s| - 1];
      assert forall y :: y in s <==> y in s[..|s| - 1] || y == x by {
        assert s == s[..|s| - 1] + [x];
      }
      if x in init then init else init + [x]
  }

  lemma FirstIndexOfPrefix<T>(s: seq<T>, x: T, n: nat)
    requires n <= |s| && x in s[..n]
    ensures FirstIndex(s, x) == FirstIndex(s[..n], x) < n
  {
    var k := FirstIndex(s[..n], x);
    assert s[..n][k] == s[k];
  }

  /** `r` lists values of `s` in the order they first occur in `s`. */
  predicate InFirstOccurrenceOrder(s: seq<string>, r: seq<string>) {
    forall i, j :: 0 <= i < j < |r| ==> FirstIndex(s, r[i]) < FirstIndex(s, r[j])
  }

  /** The values come out in the order of their first occurrence. */
  lemma {:induction false} DistinctInFirstOccurrenceOrder(s: seq<string>)
    ensures InFirstOccurrenceOrder(s, Distinct(s))
    decreases |s|
  {
    if s != [] {
      var p := s[..|s| - 1];
      var x := s[|s| - 1];
      DistinctInFirstOccurrenceOrder(p);
      var init := Distinct(p);
      var r := Distinct(s);
      forall i | 0 <= i < |init| ensures FirstIndex(s, init[i]) == FirstIndex(p, init[i]) < |p| {
        assert init[i] in p;
        assert p == s[..|p|];
        FirstIndexOfPrefix(s, init[i], |p|);
      }
      if x !in init {
        assert x !in p;
        assert FirstIndex(s, x) == |p| by {
          forall j | 0 <= j < |p| ensures s[j] != x { assert s[j] == p[j]; }
        }
        assert r == init + [x];
        forall i, j | 0 <= i < j < |r| ensures FirstIndex(s, r[i]) < FirstIndex(s, r[j]) {
          assert r[i] == init[i];
          if j < |init| { assert r[j] == init[j]; } else { assert r[j] == x; }
        }
      } else {
        assert r == init;
        forall i, j | 0 <= i < j < |r| ensures FirstIndex(s, r[i]) < FirstIndex(s, r[j]) {
          assert r[i] == init[i] && r[j] == init[j];
        }
      }
    }
  }

  /**
   * `extractJsonStringifyVariables`, given the identifiers the pattern
   * `dangerouslySetInnerHTML={{ __html: JSON.stringify(name)` captures, in
   * order: the non-empty ones, each once.
   */
  method ExtractJsonStringifyVariables(captures: seq<string>) returns (names: seq<string>)
    ensures forall x :: x in names <==> x in captures && x != ""
    ensures NoRepeats(names)
    ensures names == Distinct(NonEmpty(captures))
  {
    var variables: seq<string> := [];
    for n := 0 to |captures|
      invariant variables == NonEmpty(captures[..n])
    {
      if captures[n] != "" {
        variables := variables + [captures[n]];
      }
      assert captures[..n + 1][..n] == captures[..n];
    }
    assert captures[..|captures|] == captures;
    names := Distinct(variables);
  }

  /** The captures that `if (match[1])` lets through. */
  function NonEmpty(captures: seq<string>): (r: seq<string>)
    ensures forall x :: x in r <==> x in captures && x != ""
    decreases |captures|
  {
    if captures == [] then []
    else
      var init := NonEmpty(captures[..|captures| - 1]);
      var c := captures[|captures| - 1];
      assert forall y :: y in captures <==> y in captures[..|captures| - 1] || y == c by {
        assert captures == captures[..|captures| - 1] + [c];
      }
      if c != "" then init + [c] else init
  }

  // ---------------------------------------------------------------------------
  // The assignment `const name = ` and the object literal after it

  /** The number of whitespace characters from position `i` on. */
  function SpacesFrom(s: string, i: nat): (n: nat)
    requires i <= |s|
    ensures i + n <= |s|
    ensures forall k :: i <= k < i + n ==> IsSpace(s[k])
    ensures i + n == |s| || !IsSpace(s[i + n])
    decreases |s| - i
  {
    if i == |s| || !IsSpace(s[i]) then 0 else 1 + SpacesFrom(s, i + 1)
  }

  /** The keyword `const` at `p`, letter by letter. */
  predicate ConstAt(s: string, p: nat) {
    p + 5 <= |s| && s[p] == 'c' && s[p + 1] == 'o' && s[p + 2] == 'n' && s[p + 3] == 's' && s[p + 4] == 't'
  }

  /**
   * Where a match of `const\s+name\s*=\s*` starting at `p` ends, if one
   * does. A name starts with a word character and `=` is not whitespace,
   * so each whitespace run is taken whole, as the greedy match takes it.
   */
  function AssignmentEnd(s: string, p: nat, name: string): (r: Option<nat>)
    ensures r.Some? ==> p < r.value <= |s|
  {
    if !ConstAt(s, p) then None
    else
      var w := SpacesFrom(s, p + 5);
      var b := p + 5 + w;
      if w == 0 || b + |name| > |s| || s[b..b + |name|] != name then None
      else
        var d := b + |name| + SpacesFrom(s, b + |name|);
        if d == |s| || s[d] != '=' then None
        else Some(d + 1 + SpacesFrom(s, d + 1))
  }

  /** The leftmost match at or after `from`: where it starts and where it ends. */
  function FirstAssignment(s: string, name: string, from: nat): (r: Option<(nat, nat)>)
    ensures r.Some? ==> from <= r.value.0 && AssignmentEnd(s, r.value.0, name) == Some(r.value.1)
    decreases |s| - from
  {
    if from >= |s| then None
    else if AssignmentEnd(s, from, name).Some? then Some((from, AssignmentEnd(s, from, name).value))
    else FirstAssignment(s, name, from + 1)
  }

  /** It is the leftmost: no match starts before it, and none at all when there is none. */
  lemma FirstAssignmentIsLeftmost(s: string, name: string, from: nat)
    ensures var r := FirstAssignment(s, name, from);
            forall k :: from <= k && (r.None? || k < r.value.0) ==> AssignmentEnd(s, k, name).None?
  {
    var r := FirstAssignment(s, name, from);
    forall k | from <= k && (r.None? || k < r.value.0)
      ensures AssignmentEnd(s, k, name).None?
    {
      NoAssignmentBefore(s, name, from, k);
    }
  }

  /** One position at a time: no match starts between `from` and the first one found. */
  lemma {:induction false} NoAssignmentBefore(s: string, name: string, from: nat, k: nat)
    requires from <= k
    requires FirstAssignment(s, name, from).None? || k < FirstAssignment(s, name, from).value.0
    ensures AssignmentEnd(s, k, name).None?
    decreases k - from
  {
    if k >= |s| {
      assert !ConstAt(s, k);
    } else if k > from {
      assert AssignmentEnd(s, from, name).None?;
      assert FirstAssignment(s, name, from) == FirstAssignment(s, name, from + 1);
      NoAssignmentBefore(s, name, from + 1, k);
    }
  }

  /** The match swallows the whitespace after `=`, so the skip loop never moves. */
  lemma AssignmentEndsOnNonSpace(s: string, p: nat, name: string)
    requires AssignmentEnd(s, p, name).Some?
    ensures var e := AssignmentEnd(s, p, name).value; SpacesFrom(s, e) == 0
  {
    var w := SpacesFrom(s, p + 5);
    var b := p + 5 + w;
    var d := b + |name| + SpacesFrom(s, b + |name|);
    var e := d + 1 + SpacesFrom(s, d + 1);
    assert e == |s| || !IsSpace(s[e]);
  }

  /**
   * `/^[^?]*\?\s*({)/` on the text from `start`: the first `?` at or after
   * `start`, then optional whitespace, then `{`; the position of that brace.
   */
  function TernaryBrace(s: string, start: nat): (r: Option<nat>)
    requires start <= |s|
    ensures r.Some? ==> start < r.value < |s| && s[r.value] == '{'
  {
    var q := start + QuestionMark(s[start..]);
    if q >= |s| then None
    else
      var b := q + 1 + SpacesFrom(s, q + 1);
      if b < |s| && s[b] == '{' then Some(b) else None
  }

  /** The offset of the first `?` in `t`, or `|t|`. */
  function QuestionMark(t: string): nat {
    IndexOf(t, '?')
  }

  /** The brace matcher's state: depth, whether inside a string, and the string's quote. */
  datatype Scan = Scan(depth: int, inString: bool, quote: char)

  predicate IsQuote(c: char) { c == '"' || c == '\'' || c == '`' }

  /**
   * One character: a quote opens a string; the same quote not right after a
   * backslash closes it; outside strings `{` and `}` move the depth.
   */
  function ScanStep(st: Scan, c: char, afterBackslash: bool): Scan {
    var st' :=
      if !st.inString && IsQuote(c) then st.(inString := true, quote := c)
      else if st.inString && c == st.quote && !afterBackslash then st.(inString := false)
      else st;
    if st'.inString then st'
    else if c == '{' then st'.(depth := st'.depth + 1)
    else if c == '}' then st'.(depth := st'.depth - 1)
    else st'
  }

  const ScanStart := Scan(0, false, '"')

  /** The state after the characters `s[start..i]`. */
  function ScanTo(s: string, start: nat, i: nat): Scan
    requires start <= i <= |s|
    decreases i
  {
    if i == start then ScanStart
    else ScanStep(ScanTo(s, start, i - 1), s[i - 1], i - 1 > 0 && s[i - 2] == '\\')
  }

  /** The `}` at `i` brings the depth counted from `start` back to zero. */
  predicate ClosesAt(s: string, start: nat, i: nat)
    requires start <= i < |s|
  {
    var st := ScanTo(s, start, i + 1);
    s[i] == '}' && !st.inString && st.depth == 0
  }

  /** The first closing position at or after `from`. */
  function FirstClose(s: string, start: nat, from: nat): (r: Option<nat>)
    requires start <= from <= |s|
    ensures r.Some? ==> from <= r.value < |s| && ClosesAt(s, start, r.value)
    ensures r.Some? ==> forall k :: from <= k < r.value ==> !ClosesAt(s, start, k)
    ensures r.None? ==> forall k :: from <= k < |s| ==> !ClosesAt(s, start, k)
    decreases |s| - from
  {
    if from == |s| then None
    else if ClosesAt(s, start, from) then Some(from)
    else FirstClose(s, start, from + 1)
  }

  /** The first closing position is determined by where it is and that none comes before. */
  lemma FirstCloseIs(s: string, start: nat, close: Option<nat>)
    requires start <= |s|
    requires close.Some? ==> start <= close.value < |s| && ClosesAt(s, start, close.value)
    requires close.Some? ==> forall k :: start <= k < close.value ==> !ClosesAt(s, start, k)
    requires close.None? ==> forall k :: start <= k < |s| ==> !ClosesAt(s, start, k)
    ensures FirstClose(s, start, start) == close
  {
  }

  /**
   * The brace-matching loop of `findVariableDefinition`, from `start`: the
   * position of the first `}` that brings the depth back to zero, if any.
   */
  method MatchingBrace(content: string, start: nat) returns (close: Option<nat>)
    requires start <= |content|
    ensures close == FirstClose(content, start, start)
  {
    var braceCount := 0;
    var inString := false;
    var stringChar := '"';
    var i := start;
    while i < |content|
      invariant start <= i <= |content|
      invariant Scan(braceCount, inString, stringChar) == ScanTo(content, start, i)
      invariant forall k :: start <= k < i ==> !ClosesAt(content, start, k)
      decreases |content| - i
    {
      var c := content[i];
      var afterBackslash := i > 0 && content[i - 1] == '\\';
      if !inString && IsQuote(c) {
        inString := true;
        stringChar := c;
      } else if inString && c == stringChar && !afterBackslash {
        inString := false;
      }
      if !inString {
        if c == '{' {
          braceCount := braceCount + 1;
        } else if c == '}' {
          braceCount := braceCount - 1;
          if braceCount == 0 {
            FirstCloseIs(content, start, Some(i));
            return Some(i);
          }
        }
      }
      i := i + 1;
    }
    FirstCloseIs(content, start, None);
    return None;
  }

  /** Strictly inside a literal that opens with `{` the depth stays positive. */
  lemma {:induction false} DepthPositiveInside(s: string, start: nat, k: nat)
    requires start <= k < |s| && s[start] == '{'
    requires forall j :: start <= j <= k ==> !ClosesAt(s, start, j)
    ensures ScanTo(s, start, k + 1).depth >= 1
    decreases k
  {
    if k > start {
      DepthPositiveInside(s, start, k - 1);
      assert !ClosesAt(s, start, k);
    }
  }

  /**
   * Where the object literal for `name` opens: after the first assignment
   * (none, or one at index 0, gives nothing) and its whitespace, at the
   * brace of a `? {` found anywhere further on, or else right there if a
   * `{` stands there.
   */
  function DefinitionStart(content: string, name: string): (r: Option<nat>)
    ensures r.Some? ==> r.value < |content| && content[r.value] == '{'
  {
    StartAfterMatch(content, FirstAssignment(content, name, 0))
  }

  /** After a match that ends at `m.value.1`: skip whitespace, then look for the brace. */
  function StartAfterMatch(content: string, m: Option<(nat, nat)>): (r: Option<nat>)
    requires m.Some? ==> m.value.1 <= |content|
    ensures r.Some? ==> r.value < |content| && content[r.value] == '{'
  {
    if m.None? || m.value.0 == 0 then None
    else BraceAfter(content, m.value.1 + SpacesFrom(content, m.value.1))
  }

  /** From `start`: the brace of a `? {`, or else the `{` standing at `start`. */
  function BraceAfter(content: string, start: nat): (r: Option<nat>)
    requires start <= |content|
    ensures r.Some? ==> start <= r.value < |content| && content[r.value] == '{'
  {
    if TernaryBrace(content, start).Some? then TernaryBrace(content, start)
    else if start < |content| && content[start] == '{' then Some(start)
    else None
  }

  /** The text from the brace at `open` to the first `}` that closes it. */
  function LiteralFrom(s: string, open: nat): (r: Option<string>)
    requires open <= |s|
    ensures r.Some? ==> |r.value| >= 1 && open + |r.value| <= |s| && r.value == s[open..open + |r.value|]
  {
    var close := FirstClose(s, open, open);
    if close.None? then None else Some(s[open..close.value + 1])
  }

  /** `findVariableDefinition`: the text from the opening brace to its matching close. */
  function VariableDefinition(content: string, name: string): (r: Option<string>) {
    var open := DefinitionStart(content, name);
    if open.None? then None else LiteralFrom(content, open.value)
  }

  /**
   * `lit` is an object literal cut out of `s` at `open`: the text from its
   * opening brace to the first `}` that closes it, starting with `{`,
   * ending with `}`, with the depth positive strictly inside.
   */
  predicate BalancedLiteral(s: string, open: nat, lit: string) {
    && open + |lit| <= |s| && lit == s[open..open + |lit|]
    && |lit| >= 2 && lit[0] == '{' && lit[|lit| - 1] == '}'
    && ClosesAt(s, open, open + |lit| - 1)
    && forall k :: open <= k < open + |lit| - 1 ==>
         !ClosesAt(s, open, k) && ScanTo(s, open, k + 1).depth >= 1
  }

  /** A definition found is an object literal at the start position. */
  lemma VariableDefinitionIsLiteral(content: string, name: string)
    requires VariableDefinition(content, name).Some?
    ensures BalancedLiteral(content, DefinitionStart(content, name).value, VariableDefinition(content, name).value)
  {
    var open := DefinitionStart(content, name).value;
    var lit := VariableDefinition(content, name).value;
    assert lit == LiteralFrom(content, open).value;
    LiteralFromIsLiteral(content, open);
  }

  /** The text `LiteralFrom` cuts out from an opening brace is a balanced literal. */
  lemma LiteralFromIsLiteral(s: string, open: nat)
    requires open < |s| && s[open] == '{'
    requires LiteralFrom(s, open).Some?
    ensures BalancedLiteral(s, open, LiteralFrom(s, open).value)
  {
    var lit := LiteralFrom(s, open).value;
    var close := FirstClose(s, open, open).value;
    BraceLiteral(s, open);
    assert lit == s[open..close + 1];
    assert |lit| == close + 1 - open && lit[0] == s[open] && lit[|lit| - 1] == s[close];
  }

  /** From an opening brace, the first close lies further on and the depth stays positive before it. */
  lemma BraceLiteral(s: string, open: nat)
    requires open < |s| && s[open] == '{'
    requires FirstClose(s, open, open).Some?
    ensures var close := FirstClose(s, open, open).value;
            && open < close && s[close] == '}' && ClosesAt(s, open, close)
            && forall k :: open <= k < close ==> !ClosesAt(s, open, k) && ScanTo(s, open, k + 1).depth >= 1
  {
    var close := FirstClose(s, open, open).value;
    assert !ClosesAt(s, open, open);
    assert open < close && ClosesAt(s, open, close);
    forall k | open <= k < close
      ensures !ClosesAt(s, open, k) && ScanTo(s, open, k + 1).depth >= 1
    {
      DepthPositiveInside(s, open, k);
    }
  }

  /** An assignment at the very start of the file is not found: `!match.index` rejects index 0. */
  lemma AssignmentAtZeroIgnored(content: string, name: string)
    requires AssignmentEnd(content, 0, name).Some?
    ensures VariableDefinition(content, name).None?
  {
  }

  /** `findVariableDefinition`: the opening brace, then the brace-matching loop. */
  method FindVariableDefinition(content: string, name: string) returns (r: Option<string>)
    ensures r == VariableDefinition(content, name)
  {
    var startPos := LiteralStart(content, name);
    if startPos.None? {
      return None;
    }
    var close := MatchingBrace(content, startPos.value);
    if close.None? {
      return None;
    }
    return Some(content[startPos.value..close.value + 1]);
  }

  /**
   * The first half of `findVariableDefinition`: find the assignment, skip
   * whitespace, then take the brace of a `? {` or the `{` standing there.
   */
  method LiteralStart(content: string, name: string) returns (startPos: Option<nat>)
    ensures startPos == DefinitionStart(content, name)
  {
    var m := FirstAssignment(content, name, 0);
    startPos := StartAfter(content, m);
  }

  /** After the match (none, or one at index 0, gives nothing): skip whitespace, then find the brace. */
  method StartAfter(content: string, m: Option<(nat, nat)>) returns (startPos: Option<nat>)
    requires m.Some? ==> m.value.1 <= |content|
    ensures startPos == StartAfterMatch(content, m)
  {
    if m.None? || m.value.0 == 0 {
      return None;
    }
    var pos := SkipSpaces(content, m.value.1);
    startPos := BraceAt(content, pos);
  }

  /** From the position after the whitespace: the brace of a `? {`, or else the `{` standing there. */
  method BraceAt(content: string, pos: nat) returns (startPos: Option<nat>)
    requires pos <= |content|
    ensures startPos == BraceAfter(content, pos)
  {
    var ternary := TernaryBrace(content, pos);
    if ternary.Some? {
      return ternary;
    } else if pos == |content| || content[pos] != '{' {
      return None;
    }
    return Some(pos);
  }

  /** The loop `while (startPos < content.length && /\s/.test(content[startPos])) startPos++`. */
  method SkipSpaces(content: string, from: nat) returns (pos: nat)
    requires from <= |content|
    ensures pos == from + SpacesFrom(content, from)
  {
    pos := from;
    while pos < |content| && IsSpace(content[pos])
      invariant from <= pos <= from + SpacesFrom(content, from)
      decreases |content| - pos
    {
      pos := pos + 1;
    }
  }

  // ---------------------------------------------------------------------------
  // The object literal's @context and @type

  const ContextMessage := "Missing or invalid @context field (must be 'https://schema.org')"
  const TypeMessage := "Missing or invalid @type field"

  /** `["']`. */
  predicate IsJsonQuote(c: char) { c == '"' || c == '\'' }

  /**
   * `["']key["']\s*:\s*["']` starting at `p`: the position just after the
   * value's opening quote.
   */
  function KeyValueAt(s: string, p: nat, key: string): (r: Option<nat>)
    ensures r.Some? ==> p < r.value <= |s|
  {
    var k := p + 1 + |key|;
    if k >= |s| || !IsJsonQuote(s[p]) || s[p + 1..k] != key || !IsJsonQuote(s[k]) then None
    else
      var colon := k + 1 + SpacesFrom(s, k + 1);
      if colon == |s| || s[colon] != ':' then None
      else
        var q := colon + 1 + SpacesFrom(s, colon + 1);
        if q == |s| || !IsJsonQuote(s[q]) then None else Some(q + 1)
  }

  /** `https?:\/\/schema\.org["']` starting at `i`. */
  predicate SchemaOrgAt(s: string, i: nat) {
    && i + 4 <= |s| && s[i..i + 4] == "http"
    && var j := if i + 4 < |s| && s[i + 4] == 's' then i + 5 else i + 4;
       j + 13 < |s| && s[j..j + 13] == "://schema.org" && IsJsonQuote(s[j + 13])
  }

  /** The @context pattern matches at `p`. */
  predicate ContextAt(s: string, p: nat) {
    var v := KeyValueAt(s, p, "@context");
    v.Some? && SchemaOrgAt(s, v.value)
  }

  /** Some quote at or after `i`. */
  predicate QuoteFrom(s: string, i: nat)
    decreases |s| - i
  {
    i < |s| && (IsJsonQuote(s[i]) || QuoteFrom(s, i + 1))
  }

  /** The @type pattern `...["']([^"']+)["']` matches at `p`: a non-empty unquoted run, then a quote. */
  predicate TypeAt(s: string, p: nat) {
    var v := KeyValueAt(s, p, "@type");
    v.Some? && v.value < |s| && !IsJsonQuote(s[v.value]) && QuoteFrom(s, v.value + 1)
  }

  /** `/.../.test(s)` for the @context pattern, searching from `from`. */
  function HasContext(s: string, from: nat): (r: bool)
    ensures r <==> exists p :: from <= p < |s| && ContextAt(s, p)
    decreases |s| - from
  {
    if from >= |s| then false else ContextAt(s, from) || HasContext(s, from + 1)
  }

  /** `/.../.test(s)` for the @type pattern, searching from `from`. */
  function HasType(s: string, from: nat): (r: bool)
    ensures r <==> exists p :: from <= p < |s| && TypeAt(s, p)
    decreases |s| - from
  {
    if from >= |s| then false else TypeAt(s, from) || HasType(s, from + 1)
  }

  /** The messages `validateObjectLiteralStructure` pushes, in order. */
  function LiteralErrors(lit: string): seq<string> {
    (if HasContext(lit, 0) then [] else [ContextMessage]) + (if HasType(lit, 0) then [] else [TypeMessage])
  }

  /**
   * `validateObjectLiteralStructure`: one message when no @context equal to
   * http(s)://schema.org is written as a string literal, one when no string
   * @type is; valid exactly when neither was pushed.
   */
  method ValidateObjectLiteralStructure(objLiteral: string) returns (valid: bool, errors: seq<string>)
    ensures errors == LiteralErrors(objLiteral)
    ensures valid <==> errors == []
  {
    errors := [];
    var hasContext := HasContext(objLiteral, 0);
    if !hasContext {
      errors := errors + [ContextMessage];
    }
    var hasType := HasType(objLiteral, 0);
    if !hasType {
      errors := errors + [TypeMessage];
    }
    valid := |errors| == 0;
  }

  /** The literal passes exactly when both patterns occur in it. */
  lemma LiteralErrorsIff(lit: string)
    ensures LiteralErrors(lit) == [] <==>
              (exists p :: 0 <= p < |lit| && ContextAt(lit, p)) && (exists p :: 0 <= p < |lit| && TypeAt(lit, p))
    ensures ContextMessage in LiteralErrors(lit) <==> !exists p :: 0 <= p < |lit| && ContextAt(lit, p)
    ensures TypeMessage in LiteralErrors(lit) <==> !exists p :: 0 <= p < |lit| && TypeAt(lit, p)
  {
    assert ContextMessage != TypeMessage by { assert |ContextMessage| != |TypeMessage|; }
  }

  // ---------------------------------------------------------------------------
  // One page

  /** What `validatePage` returns for a page. */
  datatype PageResult = PageResult(valid: bool, errors: seq<string>)

  const EmptyTagMessage := "Empty JSON-LD script tag"
  const NoJsonLdMessage := "No JSON-LD script tags found"

  /**
   * The page's text and the regular expressions and parser the script
   * relies on, given as functions: the `<script type="application/ld+json">`
   * elements of a text, the body of one element (none when the inner pattern
   * does not match), the identifiers captured by the `JSON.stringify` pattern,
   * and `JSON.parse` with its error message.
   */
  datatype PageTools = PageTools(
    scriptTags: string -> seq<string>,
    scriptBody: string -> Option<string>,
    stringifyCaptures: string -> seq<string>,
    parse: string -> Result<Json>)

  /** The messages one JSON-LD script element adds. */
  function TagErrors(tools: PageTools, tag: string): seq<string> {
    match tools.scriptBody(tag)
    case None => []
    case Some(body) =>
      var scriptBody := Trim(body);
      if scriptBody == [] then
        if Contains(tag, "dangerouslySetInnerHTML") then [] else [EmptyTagMessage]
      else
        match tools.parse(scriptBody)
        case Err(m) => ["Invalid JSON: " + m]
        case Ok(v) => Messages(JsonLdErrors(v))
  }

  /** The message one `JSON.stringify` variable adds, if any. */
  function VariableErrors(content: string, name: string): seq<string> {
    match VariableDefinition(content, name)
    case None => ["Could not find definition for variable '" + name + "' used in JSON.stringify()"]
    case Some(lit) =>
      if LiteralErrors(lit) == [] then [] else ["Variable '" + name + "': " + Join(LiteralErrors(lit), ", ")]
  }

  function TagErrorsOf(tools: PageTools): string -> seq<string> {
    tag => TagErrors(tools, tag)
  }

  function VariableErrorsOf(content: string): string -> seq<string> {
    name => VariableErrors(content, name)
  }

  /** The messages of every item, item by item. */
  function FlatMap(f: string -> seq<string>, items: seq<string>): seq<string>
    decreases |items|
  {
    if items == [] then [] else FlatMap(f, items[..|items| - 1]) + f(items[|items| - 1])
  }

  /** No messages at all exactly when no item has any. */
  lemma {:induction false} FlatMapEmptyIff(f: string -> seq<string>, items: seq<string>)
    ensures FlatMap(f, items) == [] <==> forall i :: 0 <= i < |items| ==> f(items[i]) == []
    decreases |items|
  {
    if items != [] {
      var p := items[..|items| - 1];
      FlatMapEmptyIff(f, p);
      assert forall i :: 0 <= i < |p| ==> p[i] == items[i];
    }
  }

  lemma FlatMapStep(f: string -> seq<string>, items: seq<string>, n: nat)
    requires n < |items|
    ensures FlatMap(f, items[..n + 1]) == FlatMap(f, items[..n]) + f(items[n])
  {
    assert items[..n + 1][..n] == items[..n];
  }

  /** The variables `validatePage` checks. */
  function StringifyVariables(tools: PageTools, content: string): seq<string> {
    Distinct(NonEmpty(tools.stringifyCaptures(content)))
  }

  /**
   * `validatePage`: a read failure gives its one message; a page with
   * neither a JSON-LD script element nor a `JSON.stringify` variable gives
   * "No JSON-LD script tags found"; otherwise the script elements' messages
   * then the variables', valid exactly when there are none.
   */
  function PageOutcome(tools: PageTools, read: Result<string>): PageResult {
    match read
    case Err(m) => PageResult(false, ["Failed to read file: " + m])
    case Ok(content) =>
      var tags := tools.scriptTags(content);
      var names := StringifyVariables(tools, content);
      var errors := FlatMap(TagErrorsOf(tools), tags) + FlatMap(VariableErrorsOf(content), names);
      if tags == [] && names == [] then PageResult(false, [NoJsonLdMessage])
      else PageResult(errors == [], errors)
  }

  /**
   * A script element is fine exactly when its inner pattern fails, when it is
   * an empty `dangerouslySetInnerHTML` element, or when its body parses to a
   * value every JSON-LD rule accepts.
   */
  lemma TagErrorsEmptyIff(tools: PageTools, tag: string)
    ensures TagErrors(tools, tag) == [] <==>
              || tools.scriptBody(tag).None?
              || (Trim(tools.scriptBody(tag).value) == [] && Contains(tag, "dangerouslySetInnerHTML"))
              || (Trim(tools.scriptBody(tag).value) != [] && tools.parse(Trim(tools.scriptBody(tag).value)).Ok?
                  && var v := tools.parse(Trim(tools.scriptBody(tag).value)).value;
                     Truthy(v) && IsObjectLike(v) && AllRulesHold(ChecksOf(v)))
  {
    if tools.scriptBody(tag).Some? {
      var body := Trim(tools.scriptBody(tag).value);
      if body != [] && tools.parse(body).Ok? {
        JsonLdValidIff(tools.parse(body).value);
      }
    }
  }

  /** A variable is fine exactly when its literal is found and has both a string @context and @type. */
  lemma VariableErrorsEmptyIff(content: string, name: string)
    ensures VariableErrors(content, name) == [] <==>
              VariableDefinition(content, name).Some? && LiteralErrors(VariableDefinition(content, name).value) == []
  {
  }

  /**
   * A page is valid exactly when it was read, has some JSON-LD to check,
   * and every script element and every variable is fine.
   */
  lemma PageValidIff(tools: PageTools, read: Result<string>)
    ensures PageOutcome(tools, read).valid <==>
              && read.Ok?
              && var content := read.value;
                 var tags := tools.scriptTags(content);
                 var names := StringifyVariables(tools, content);
                 && (tags != [] || names != [])
                 && (forall i :: 0 <= i < |tags| ==> TagErrors(tools, tags[i]) == [])
                 && (forall i :: 0 <= i < |names| ==> VariableErrors(content, names[i]) == [])
  {
    if read.Ok? {
      var content := read.value;
      FlatMapEmptyIff(TagErrorsOf(tools), tools.scriptTags(content));
      FlatMapEmptyIff(VariableErrorsOf(content), StringifyVariables(tools, content));
    }
  }

  /** An invalid page always says why. */
  lemma InvalidPageHasErrors(tools: PageTools, read: Result<string>)
    ensures !PageOutcome(tools, read).valid <==> PageOutcome(tools, read).errors != []
  {
  }

  /**
   * `validatePage`: the script-element loop, then the variable loop, then
   * the "nothing found" rule; a failed read gives its message alone.
   */
  method ValidatePage(tools: PageTools, read: Result<string>) returns (result: PageResult)
    ensures result == PageOutcome(tools, read)
  {
    if read.Err? {
      return PageResult(false, ["Failed to read file: " + read.message]);
    }
    var content := read.value;
    var jsonLdMatches := tools.scriptTags(content);
    var allErrors := CheckScriptTags(tools, jsonLdMatches);
    var jsonStringifyVariables := ExtractJsonStringifyVariables(tools.stringifyCaptures(content));
    allErrors := CheckVariables(content, jsonStringifyVariables, allErrors);
    if |jsonLdMatches| == 0 && |jsonStringifyVariables| == 0 {
      return PageResult(false, [NoJsonLdMessage]);
    }
    return PageResult(|allErrors| == 0, allErrors);
  }

  /** The loop over the JSON-LD script elements of `validatePage`. */
  method CheckScriptTags(tools: PageTools, jsonLdMatches: seq<string>) returns (allErrors: seq<string>)
    ensures allErrors == FlatMap(TagErrorsOf(tools), jsonLdMatches)
  {
    allErrors := [];
    for n := 0 to |jsonLdMatches|
      invariant allErrors == FlatMap(TagErrorsOf(tools), jsonLdMatches[..n])
    {
      var tag := jsonLdMatches[n];
      FlatMapStep(TagErrorsOf(tools), jsonLdMatches, n);
      var jsonMatch := tools.scriptBody(tag);
      if jsonMatch.None? {
        continue;
      }
      var scriptBody := Trim(jsonMatch.value);
      if scriptBody == [] {
        if Contains(tag, "dangerouslySetInnerHTML") {
          continue;
        }
        allErrors := allErrors + [EmptyTagMessage];
        continue;
      }
      var parsed := tools.parse(scriptBody);
      if parsed.Err? {
        allErrors := allErrors + ["Invalid JSON: " + parsed.message];
      } else {
        var valid, errors := ValidateJsonLd(parsed.value);
        if !valid {
          allErrors := allErrors + Messages(errors);
        }
      }
    }
    assert jsonLdMatches[..|jsonLdMatches|] == jsonLdMatches;
  }

  /** The loop over the `JSON.stringify` variables of `validatePage`, adding to `allErrors`. */
  method CheckVariables(content: string, names: seq<string>, allErrors: seq<string>) returns (errors': seq<string>)
    ensures errors' == allErrors + FlatMap(VariableErrorsOf(content), names)
  {
    errors' := allErrors;
    for n := 0 to |names|
      invariant errors' == allErrors + FlatMap(VariableErrorsOf(content), names[..n])
    {
      FlatMapStep(VariableErrorsOf(content), names, n);
      errors' := CheckVariable(content, names[n], errors');
    }
    assert names[..|names|] == names;
  }

  /** One `JSON.stringify` variable: its definition is looked up and its literal checked. */
  method CheckVariable(content: string, variableName: string, allErrors: seq<string>) returns (errors': seq<string>)
    ensures errors' == allErrors + VariableErrors(content, variableName)
  {
    var objLiteral := FindVariableDefinition(content, variableName);
    if objLiteral.None? {
      return allErrors + ["Could not find definition for variable '" + variableName + "' used in JSON.stringify()"];
    }
    var valid, errors := ValidateObjectLiteralStructure(objLiteral.value);
    errors' := allErrors;
    if !valid {
      errors' := errors' + ["Variable '" + variableName + "': " + Join(errors, ", ")];
    }
  }

  /**
   * The results loop of `main`: the exit status is 0 when every page was
   * valid and 1 as soon as one was not.
   */
  method ExitStatus(results: seq<PageResult>) returns (code: int)
    ensures code == 0 || code == 1
    ensures code == 0 <==> forall i :: 0 <= i < |results| ==> results[i].valid
  {
    var allValid := true;
    for n := 0 to |results|
      invariant allValid <==> forall i :: 0 <= i < n ==> results[i].valid
    {
      if !results[n].valid {
        allValid := false;
      }
    }
    code := if allValid then 0 else 1;
  }
}
