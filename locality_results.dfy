/**
 * The rules a locality page applies to its list of pubs: the budget and sort
 * query parameters, the search/cost/amenity filters, the sort comparators and
 * the applied-filter labels. The sample-data fallback of the locality query
 * applies the same filters and comparators, and uses these definitions.
 */
module LocalityResults {
  import opened Wrappers
  import opened Text
  import opened Sorting

  /** The columns of a `PubSummary` that the list rules read or set. */
  datatype PubSummary = PubSummary(
    id: string,
    name: string,
    slug: string,
    description: Option<string>,
    averageRating: Option<real>,
    reviewCount: Option<real>,
    costMin: Option<real>,
    costMax: Option<real>,
    coverRedeemable: Option<bool>,
    wifi: Option<bool>,
    valet: Option<bool>,
    localitySlug: Option<string>,
    localityName: Option<string>,
    attributeCodes: seq<string>)

  // ---------------------------------------------------------------------------
  // Budget and sort parameters

  datatype BudgetBucket = AnyBudget | Under1500 | From1500To2500 | From2500To4000 | Over4000

  datatype Budget = Budget(bucket: BudgetBucket, minCost: Option<real>, maxCost: Option<real>)

  /** `parseBudget`: the four bucket names with their bounds; anything else is "any" with no bounds. */
  function ParseBudget(value: Option<string>): (b: Budget)
    ensures b.bucket == AnyBudget <==> b.minCost.None? && b.maxCost.None?
    ensures b.minCost.Some? && b.maxCost.Some? ==> b.minCost.value < b.maxCost.value
    ensures b.bucket == AnyBudget <==> value.None? || value.value !in ["under1500", "1500-2500", "2500-4000", "4000plus"]
    ensures b.bucket == Under1500 ==> b.minCost.None? && b.maxCost == Some(1500.0)
    ensures b.bucket == From1500To2500 ==> b.minCost == Some(1500.0) && b.maxCost == Some(2500.0)
    ensures b.bucket == From2500To4000 ==> b.minCost == Some(2500.0) && b.maxCost == Some(4000.0)
    ensures b.bucket == Over4000 ==> b.minCost == Some(4000.0) && b.maxCost.None?
  {
    if value == Some("under1500") then Budget(Under1500, None, Some(1500.0))
    else if value == Some("1500-2500") then Budget(From1500To2500, Some(1500.0), Some(2500.0))
    else if value == Some("2500-4000") then Budget(From2500To4000, Some(2500.0), Some(4000.0))
    else if value == Some("4000plus") then Budget(Over4000, Some(4000.0), None)
    else Budget(AnyBudget, None, None)
  }

  /** The parameter value that selects a bucket. */
  function BudgetName(b: BudgetBucket): string {
    match b
    case AnyBudget => "any"
    case Under1500 => "under1500"
    case From1500To2500 => "1500-2500"
    case From2500To4000 => "2500-4000"
    case Over4000 => "4000plus"
  }

  /** Parsing a bucket's own name gives that bucket back. */
  lemma ParseBudgetName(b: BudgetBucket)
    ensures ParseBudget(Some(BudgetName(b))).bucket == b
  {
  }

  /** The label of each bucket, as the filter bar shows it. */
  function BudgetLabel(b: BudgetBucket): string {
    match b
    case AnyBudget => "Any budget"
    case Under1500 => "Under \U{20B9}1,500"
    case From1500To2500 => "\U{20B9}1,500 \U{2013} \U{20B9}2,500"
    case From2500To4000 => "\U{20B9}2,500 \U{2013} \U{20B9}4,000"
    case Over4000 => "\U{20B9}4,000+"
  }

  datatype SortOrder = RatingDesc | RatingAsc | ReviewsDesc | CostDesc | CostAsc

  function SortName(s: SortOrder): string {
    match s
    case RatingDesc => "rating_desc"
    case RatingAsc => "rating_asc"
    case ReviewsDesc => "reviews_desc"
    case CostDesc => "cost_desc"
    case CostAsc => "cost_asc"
  }

  /** `parseSort`: one of the four other sorts when named, "rating_desc" otherwise. */
  function ParseSort(value: Option<string>): (s: SortOrder)
    ensures s != RatingDesc ==> value == Some(SortName(s))
  {
    if value == Some("rating_asc") then RatingAsc
    else if value == Some("reviews_desc") then ReviewsDesc
    else if value == Some("cost_desc") then CostDesc
    else if value == Some("cost_asc") then CostAsc
    else RatingDesc
  }

  /** Parsing a sort's own name gives that sort back. */
  lemma ParseSortName(s: SortOrder)
    ensures ParseSort(Some(SortName(s))) == s
  {
  }

  // ---------------------------------------------------------------------------
  // Filters

  /** What a pub list is filtered by; an absent bound is `None`. */
  datatype Criteria = Criteria(
    search: Option<string>,
    minCost: Option<real>,
    maxCost: Option<real>,
    wifi: bool,
    valet: bool,
    coverRedeemable: bool)

  /** No search text, or its lower-cased form occurs in the lower-cased name or description. */
  predicate MatchesSearch(p: PubSummary, search: Option<string>) {
    search.None? || search.value == ""
    || Contains(Lower(p.name), Lower(search.value))
    || Contains(Lower(p.description.GetOr("")), Lower(search.value))
  }

  /** `min ?? max` is at least the lower bound; a pub with no cost fails whenever the bound is set. */
  predicate MinCostOk(p: PubSummary, minCost: Option<real>) {
    minCost.None? || (p.costMin.OrElse(p.costMax).Some? && p.costMin.OrElse(p.costMax).value >= minCost.value)
  }

  /** `max ?? min` is at most the upper bound. */
  predicate MaxCostOk(p: PubSummary, maxCost: Option<real>) {
    maxCost.None? || (p.costMax.OrElse(p.costMin).Some? && p.costMax.OrElse(p.costMin).value <= maxCost.value)
  }

  /** `required ? Boolean(flag) : true`. */
  predicate FlagOk(required: bool, flag: Option<bool>) {
    !required || flag == Some(true)
  }

  /** A pub passes all six filters of the chain. */
  predicate Passes(p: PubSummary, c: Criteria) {
    MatchesSearch(p, c.search) && MinCostOk(p, c.minCost) && MaxCostOk(p, c.maxCost)
    && FlagOk(c.wifi, p.wifi) && FlagOk(c.valet, p.valet) && FlagOk(c.coverRedeemable, p.coverRedeemable)
  }

  /** `filterPubs`: the pubs that pass, in their order. */
  function FilterPubs(pubs: seq<PubSummary>, c: Criteria): (r: seq<PubSummary>)
    ensures IsSubsequence(r, pubs)
    ensures forall p :: p in r <==> p in pubs && Passes(p, c)
  {
    if pubs == [] then []
    else
      var rest := FilterPubs(pubs[1..], c);
      assert forall p :: p in pubs <==> p == pubs[0] || p in pubs[1..];
      if Passes(pubs[0], c) then [pubs[0]] + rest else rest
  }

  /** Without criteria every pub is kept. */
  lemma {:induction false} FilterWithoutCriteria(pubs: seq<PubSummary>)
    ensures FilterPubs(pubs, Criteria(None, None, None, false, false, false)) == pubs
  {
    if pubs != [] {
      FilterWithoutCriteria(pubs[1..]);
      assert [pubs[0]] + pubs[1..] == pubs;
    }
  }

  /** A pub without any cost is dropped as soon as either bound is set. */
  lemma NoCostDropped(p: PubSummary, c: Criteria)
    requires p.costMin.None? && p.costMax.None?
    requires c.minCost.Some? || c.maxCost.Some?
    ensures !Passes(p, c)
  {
  }

  // ---------------------------------------------------------------------------
  // Sorting

  /** `Number.MAX_SAFE_INTEGER`, the key a pub without a minimum cost sorts by in "cost_asc". */
  const MaxSafeInteger: real := 9007199254740991.0

  /** The comparator `sortPubs` passes to `Array.prototype.sort`. */
  function Comparator(order: SortOrder, a: PubSummary, b: PubSummary): real {
    match order
    case RatingAsc => a.averageRating.GetOr(0.0) - b.averageRating.GetOr(0.0)
    case ReviewsDesc => b.reviewCount.GetOr(0.0) - a.reviewCount.GetOr(0.0)
    case CostAsc => a.costMin.GetOr(MaxSafeInteger) - b.costMin.GetOr(MaxSafeInteger)
    case CostDesc => b.costMax.GetOr(0.0) - a.costMax.GetOr(0.0)
    case RatingDesc => b.averageRating.GetOr(0.0) - a.averageRating.GetOr(0.0)
  }

  /** The ascending key equivalent to the comparator: a descending sort negates its column. */
  function SortKey(order: SortOrder, p: PubSummary): real {
    match order
    case RatingAsc => p.averageRating.GetOr(0.0)
    case ReviewsDesc => -p.reviewCount.GetOr(0.0)
    case CostAsc => p.costMin.GetOr(MaxSafeInteger)
    case CostDesc => -p.costMax.GetOr(0.0)
    case RatingDesc => -p.averageRating.GetOr(0.0)
  }

  lemma ComparatorIsKeyDifference(order: SortOrder, a: PubSummary, b: PubSummary)
    ensures Comparator(order, a, b) == SortKey(order, a) - SortKey(order, b)
  {
  }

  /**
   * `sortPubs`: a sorted copy. The input is a value, so it is left as it was;
   * the result is a permutation of it, and the comparator never puts a later
   * pub strictly before an earlier one.
   */
  function SortPubs(pubs: seq<PubSummary>, order: SortOrder): (r: seq<PubSummary>)
    ensures multiset(r) == multiset(pubs)
    ensures forall i, j :: 0 <= i < j < |r| ==> Comparator(order, r[i], r[j]) <= 0.0
  {
    var r := SortBy(pubs, p => SortKey(order, p));
    forall i, j | 0 <= i < j < |r| ensures Comparator(order, r[i], r[j]) <= 0.0 {
      ComparatorIsKeyDifference(order, r[i], r[j]);
    }
    r
  }

  // ---------------------------------------------------------------------------
  // The page

  /** The page's own filter state, read from the query parameters. */
  datatype FilterState = FilterState(budget: BudgetBucket, wifi: bool, valet: bool, coverRedeemable: bool, sort: SortOrder)

  /** `searchParams.get(key)`: the first value stored under the key. */
  function GetParam(params: seq<(string, string)>, key: string): (v: Option<string>)
    ensures v.Some? ==> exists k :: 0 <= k < |params| && params[k] == (key, v.value)
    ensures v.None? ==> forall k :: 0 <= k < |params| ==> params[k].0 != key
  {
    if params == [] then None
    else if params[0].0 == key then Some(params[0].1)
    else GetParam(params[1..], key)
  }

  /** The filter state of `LocalityResults`: a flag is on only when its parameter is exactly "true". */
  function StateOf(params: seq<(string, string)>): (s: FilterState)
    ensures s.wifi <==> GetParam(params, "wifi") == Some("true")
    ensures s.valet <==> GetParam(params, "valet") == Some("true")
    ensures s.coverRedeemable <==> GetParam(params, "redeemable") == Some("true")
  {
    FilterState(ParseBudget(GetParam(params, "budget")).bucket,
                GetParam(params, "wifi") == Some("true"),
                GetParam(params, "valet") == Some("true"),
                GetParam(params, "redeemable") == Some("true"),
                ParseSort(GetParam(params, "sort")))
  }

  /** The list shown: filtered by the search text, budget and amenities, then sorted. */
  function VisiblePubs(pubs: seq<PubSummary>, params: seq<(string, string)>): (r: seq<PubSummary>)
    ensures multiset(r) <= multiset(pubs)
    ensures forall p :: p in r <==> p in pubs && Passes(p, CriteriaOf(params))
  {
    var filtered := FilterPubs(pubs, CriteriaOf(params));
    SubsequenceMultiset(filtered, pubs);
    var r := SortPubs(filtered, StateOf(params).sort);
    assert forall p :: p in r <==> p in multiset(r);
    r
  }

  /** The criteria `LocalityResults` filters by. */
  function CriteriaOf(params: seq<(string, string)>): Criteria {
    var budget := ParseBudget(GetParam(params, "budget"));
    var s := StateOf(params);
    Criteria(GetParam(params, "q"), budget.minCost, budget.maxCost, s.wifi, s.valet, s.coverRedeemable)
  }

  /** A subsequence takes no element more often than the whole has it. */
  lemma {:induction false} SubsequenceMultiset(a: seq<PubSummary>, b: seq<PubSummary>)
    requires IsSubsequence(a, b)
    ensures multiset(a) <= multiset(b)
    decreases |b|
  {
    if a != [] {
      assert b == [b[0]] + b[1..];
      if a[0] == b[0] {
        SubsequenceMultiset(a[1..], b[1..]);
        assert a == [a[0]] + a[1..];
      } else {
        SubsequenceMultiset(a, b[1..]);
      }
    }
  }

  /** The active-filter labels, in the order budget, WiFi, valet, redeemable cover. */
  function AppliedFilters(s: FilterState): (labels: seq<string>)
    ensures |labels| <= 4
    ensures labels == [] <==> s.budget == AnyBudget && !s.wifi && !s.valet && !s.coverRedeemable
    ensures s.budget != AnyBudget ==> labels[0] == BudgetLabel(s.budget)
    ensures "WiFi available" in labels <==> s.wifi
    ensures "Valet service" in labels <==> s.valet
    ensures "Redeemable cover" in labels <==> s.coverRedeemable
  {
    (if s.budget != AnyBudget then [BudgetLabel(s.budget)] else [])
    + (if s.wifi then ["WiFi available"] else [])
    + (if s.valet then ["Valet service"] else [])
    + (if s.coverRedeemable then ["Redeemable cover"] else [])
  }
}
