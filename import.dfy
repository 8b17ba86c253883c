/**
 * The import of an ingestion payload into the pubs tables: the payload's
 * non-empty rule, batching with `chunk`, the row-to-upsert mapping with
 * `toPubUpsert`/`toJson`, the slug-to-id maps, the locality links built for
 * each batch, and the batch loop that stops at the first failure. The
 * database calls are given as functions.
 */
module PubImport {
  import opened Wrappers
  import opened Text
  import opened JsonValue

  // ---------------------------------------------------------------------------
  // chunk

  /** The consecutive slices of `input[from..]` of length `size`, the last one possibly shorter. */
  function ChunksFrom<T>(input: seq<T>, size: nat, from: nat): seq<seq<T>>
    requires size > 0
    decreases |input| - from
  {
    if from >= |input| then []
    else [input[from..Min(from + size, |input|)]] + ChunksFrom(input, size, from + size)
  }

  function Min(a: int, b: int): int { if a <= b then a else b }

  function Chunks<T>(input: seq<T>, size: nat): seq<seq<T>>
    requires size > 0
  {
    ChunksFrom(input, size, 0)
  }

  function Flatten<T>(chunks: seq<seq<T>>): seq<T> {
    if chunks == [] then [] else chunks[0] + Flatten(chunks[1..])
  }

  /** `chunk(input, size)`: push `input.slice(i, i + size)` for i = 0, size, 2·size, … */
  method Chunk<T>(input: seq<T>, size: nat) returns (result: seq<seq<T>>)
    requires size > 0
    ensures result == Chunks(input, size)
  {
    result := [];
    var i := 0;
    while i < |input|
      invariant result + ChunksFrom(input, size, i) == Chunks(input, size)
      decreases |input| - i
    {
      result := result + [input[i..Min(i + size, |input|)]];
      i := i + size;
    }
  }

  /** Concatenating the chunks gives back the input. */
  lemma {:induction false} ChunksFlatten<T>(input: seq<T>, size: nat, from: nat)
    requires size > 0 && from <= |input|
    ensures Flatten(ChunksFrom(input, size, from)) == input[from..]
    decreases |input| - from
  {
    if from < |input| {
      var end := Min(from + size, |input|);
      ChunksFlatten(input, size, end);
      if end < |input| {
        assert ChunksFrom(input, size, from + size) == ChunksFrom(input, size, end);
      } else {
        assert ChunksFrom(input, size, from + size) == [];
      }
      var cs := ChunksFrom(input, size, from);
      assert cs[1..] == ChunksFrom(input, size, from + size);
      assert input[from..] == input[from..end] + input[end..];
    }
  }

  /** Every chunk has between 1 and `size` elements, and every chunk but the last exactly `size`. */
  lemma {:induction false} ChunkSizes<T>(input: seq<T>, size: nat, from: nat)
    requires size > 0 && from <= |input|
    ensures forall k :: 0 <= k < |ChunksFrom(input, size, from)| ==> 1 <= |ChunksFrom(input, size, from)[k]| <= size
    ensures forall k :: 0 <= k < |ChunksFrom(input, size, from)| - 1 ==> |ChunksFrom(input, size, from)[k]| == size
    decreases |input| - from
  {
    var cs := ChunksFrom(input, size, from);
    if from < |input| {
      var end := Min(from + size, |input|);
      var rest := ChunksFrom(input, size, from + size);
      if end < |input| {
        ChunkSizes(input, size, end);
        assert rest == ChunksFrom(input, size, end);
      } else {
        assert rest == [];
      }
      assert cs == [input[from..end]] + rest;
      forall k | 0 <= k < |cs| ensures 1 <= |cs[k]| <= size {
        if k > 0 { assert cs[k] == rest[k - 1]; }
      }
      forall k | 0 <= k < |cs| - 1 ensures |cs[k]| == size {
        if k > 0 { assert cs[k] == rest[k - 1]; }
      }
    }
  }

  /**
   * There are ⌈(|input| − from)/size⌉ chunks: the fewest whose total
   * capacity holds the remaining elements.
   */
  lemma {:induction false} ChunkCount<T>(input: seq<T>, size: nat, from: nat)
    requires size > 0 && from <= |input|
    ensures |ChunksFrom(input, size, from)| == 0 <==> from == |input|
    ensures |ChunksFrom(input, size, from)| * size >= |input| - from
    ensures |ChunksFrom(input, size, from)| > 0 ==> (|ChunksFrom(input, size, from)| - 1) * size < |input| - from
    decreases |input| - from
  {
    if from < |input| {
      var n := |ChunksFrom(input, size, from)|;
      if from + size < |input| {
        ChunkCount(input, size, from + size);
        assert n * size == (n - 1) * size + size;
        assert (n - 1) * size == (n - 2) * size + size;
      } else {
        assert ChunksFrom(input, size, from + size) == [];
        assert n == 1;
      }
    }
  }

  // ---------------------------------------------------------------------------
  // The payload and its rows

  /** A field that may be absent, null or present (`.nullable().optional()`). */
  type Optional<T> = Option<Option<T>>

  /** `x ?? null`: absent and null both become null. */
  function OrNull<T>(x: Optional<T>): (r: Option<T>)
    ensures r.Some? <==> x.Some? && x.value.Some?
    ensures r.Some? ==> x == Some(Some(r.value))
  {
    if x.Some? then x.value else None
  }

  /** One element of the payload's `imported` list. */
  datatype IngestedPub = IngestedPub(
    name: string, slug: string, description: Option<string>,
    googleMapsUrl: string, websiteUrl: Option<string>, phone: Option<string>,
    status: string, averageRating: Option<real>, reviewCount: Option<real>,
    costForTwoMin: Optional<real>, costForTwoMax: Optional<real>,
    coverChargeMin: Optional<real>, coverChargeMax: Optional<real>,
    coverChargeRedeemable: Optional<bool>,
    stagEntryPolicy: Optional<string>, couplesEntryPolicy: Optional<string>,
    wheelchairAccessible: Optional<bool>, wifiAvailable: Optional<bool>, valetAvailable: Optional<bool>,
    happyHoursNote: Optional<string>,
    operatingHoursRaw: Option<seq<(string, string)>>,
    localitySlug: Option<string>)

  /** One row sent to the `pubs` upsert. */
  datatype PubInsert = PubInsert(
    name: string, slug: string, description: Option<string>,
    googleMapsUrl: string, websiteUrl: Option<string>, phone: Option<string>,
    status: string, averageRating: Option<real>, reviewCount: Option<real>,
    costForTwoMin: Option<real>, costForTwoMax: Option<real>,
    coverChargeMin: Option<real>, coverChargeMax: Option<real>,
    coverChargeRedeemable: Option<bool>,
    stagEntryPolicy: Option<string>, couplesEntryPolicy: Option<string>,
    wheelchairAccessible: Option<bool>, wifiAvailable: Option<bool>, valetAvailable: Option<bool>,
    happyHoursNote: Option<string>,
    operatingHoursRaw: Option<Json>)

  const NoRowsMessage := "No imported rows found in ingestion payload."

  /** The payload schema's `.nonempty(...)` rule on `imported`. */
  function CheckImported(imported: seq<IngestedPub>): (r: Result<seq<IngestedPub>>)
    ensures r.Err? <==> imported == []
    ensures r.Err? ==> r.message == NoRowsMessage
    ensures r.Ok? ==> r.value == imported
  {
    if imported == [] then Err(NoRowsMessage) else Ok(imported)
  }

  /** The record's entries as a JSON object of strings, in order. */
  function RecordFields(entries: seq<(string, string)>): (r: seq<(string, Json)>)
    ensures |r| == |entries|
    ensures forall i :: 0 <= i < |entries| ==> r[i] == (entries[i].0, JStr(entries[i].1))
  {
    if entries == [] then [] else RecordFields(entries[..|entries| - 1]) + [(entries[|entries| - 1].0, JStr(entries[|entries| - 1].1))]
  }

  /** `toJson`: null stays null; any record, even an empty one, is passed through as an object. */
  function ToJson(value: Option<seq<(string, string)>>): (r: Option<Json>)
    ensures r.None? <==> value.None?
    ensures r.Some? ==> r.value.JObj? && |r.value.fields| == |value.value|
  {
    if value.None? then None else Some(JObj(RecordFields(value.value)))
  }

  /** The object `toJson` builds answers every key with the record's last string for it. */
  lemma ToJsonLookup(entries: seq<(string, string)>, key: string)
    ensures Get(ToJson(Some(entries)).value, key).Some? <==> exists i :: 0 <= i < |entries| && entries[i].0 == key
    ensures forall i :: 0 <= i < |entries| && entries[i].0 == key && (forall j :: i < j < |entries| ==> entries[j].0 != key)
              ==> Get(ToJson(Some(entries)).value, key) == Some(JStr(entries[i].1))
  {
    var f := RecordFields(entries);
    assert ToJson(Some(entries)).value == JObj(f);
    if exists i :: 0 <= i < |entries| && entries[i].0 == key {
      var i :| 0 <= i < |entries| && entries[i].0 == key;
      assert f[i].0 == key;
    }
    forall i | 0 <= i < |entries| && entries[i].0 == key && (forall j :: i < j < |entries| ==> entries[j].0 != key)
      ensures Get(ToJson(Some(entries)).value, key) == Some(JStr(entries[i].1))
    {
      LookupLast(f, key, i);
    }
  }

  /** `toPubUpsert`: the row's fields copied, absent optional fields sent as null. */
  function ToPubUpsert(row: IngestedPub): PubInsert {
    PubInsert(
      row.name, row.slug, row.description, row.googleMapsUrl, row.websiteUrl, row.phone,
      row.status, row.averageRating, row.reviewCount,
      OrNull(row.costForTwoMin), OrNull(row.costForTwoMax),
      OrNull(row.coverChargeMin), OrNull(row.coverChargeMax),
      OrNull(row.coverChargeRedeemable),
      OrNull(row.stagEntryPolicy), OrNull(row.couplesEntryPolicy),
      OrNull(row.wheelchairAccessible), OrNull(row.wifiAvailable), OrNull(row.valetAvailable),
      OrNull(row.happyHoursNote),
      ToJson(row.operatingHoursRaw))
  }

  /** The row an upsert row comes from when every optional field is present (possibly null). */
  function PresentRow(p: PubInsert, hours: Option<seq<(string, string)>>, localitySlug: Option<string>): IngestedPub {
    IngestedPub(
      p.name, p.slug, p.description, p.googleMapsUrl, p.websiteUrl, p.phone,
      p.status, p.averageRating, p.reviewCount,
      Some(p.costForTwoMin), Some(p.costForTwoMax),
      Some(p.coverChargeMin), Some(p.coverChargeMax),
      Some(p.coverChargeRedeemable),
      Some(p.stagEntryPolicy), Some(p.couplesEntryPolicy),
      Some(p.wheelchairAccessible), Some(p.wifiAvailable), Some(p.valetAvailable),
      Some(p.happyHoursNote),
      hours, localitySlug)
  }

  /**
   * Every field of the upsert row is recovered from it: writing an upsert
   * row back as a payload row with all fields present and the same hours
   * gives the same upsert row.
   */
  lemma ToPubUpsertRoundTrip(p: PubInsert, hours: Option<seq<(string, string)>>, localitySlug: Option<string>)
    requires p.operatingHoursRaw == ToJson(hours)
    ensures ToPubUpsert(PresentRow(p, hours, localitySlug)) == p
  {
  }

  /** Absent and null are sent alike: the upsert row does not tell them apart. */
  lemma ToPubUpsertForgetsAbsence(row: IngestedPub)
    ensures ToPubUpsert(row) == ToPubUpsert(row.(
      costForTwoMin := Some(OrNull(row.costForTwoMin)), costForTwoMax := Some(OrNull(row.costForTwoMax)),
      coverChargeMin := Some(OrNull(row.coverChargeMin)), coverChargeMax := Some(OrNull(row.coverChargeMax)),
      coverChargeRedeemable := Some(OrNull(row.coverChargeRedeemable)),
      stagEntryPolicy := Some(OrNull(row.stagEntryPolicy)), couplesEntryPolicy := Some(OrNull(row.couplesEntryPolicy)),
      wheelchairAccessible := Some(OrNull(row.wheelchairAccessible)), wifiAvailable := Some(OrNull(row.wifiAvailable)),
      valetAvailable := Some(OrNull(row.valetAvailable)), happyHoursNote := Some(OrNull(row.happyHoursNote))))
  {
  }

  /** The required fields are copied unchanged, the locality slug is not sent. */
  lemma ToPubUpsertKeepsRequired(row: IngestedPub, other: Option<string>)
    ensures var p := ToPubUpsert(row);
            && p.name == row.name && p.slug == row.slug && p.googleMapsUrl == row.googleMapsUrl
            && p.status == row.status
            && ToPubUpsert(row.(localitySlug := other)) == p
  {
  }

  // ---------------------------------------------------------------------------
  // Slug-to-id maps

  /** The id of the last `(slug, id)` pair for `slug`. */
  function LastIdFor(rows: seq<(string, string)>, slug: string): Option<string>
    decreases |rows|
  {
    if rows == [] then None
    else if rows[|rows| - 1].0 == slug then Some(rows[|rows| - 1].1)
    else LastIdFor(rows[..|rows| - 1], slug)
  }

  /**
   * `map.set(slug, id)` for each row, as `loadLocalityMap` and
   * `persistBatch` do: every slug maps to the id of its last row.
   */
  method IdsBySlug(rows: seq<(string, string)>) returns (m: map<string, string>)
    ensures forall slug :: slug in m <==> LastIdFor(rows, slug).Some?
    ensures forall slug :: slug in m ==> LastIdFor(rows, slug) == Some(m[slug])
  {
    m := map[];
    for n := 0 to |rows|
      invariant forall slug :: slug in m <==> LastIdFor(rows[..n], slug).Some?
      invariant forall slug :: slug in m ==> LastIdFor(rows[..n], slug) == Some(m[slug])
    {
      assert rows[..n + 1][..n] == rows[..n];
      m := m[rows[n].0 := rows[n].1];
    }
    assert rows[..|rows|] == rows;
  }

  /** A slug has an id exactly when some row carries it. */
  lemma {:induction false} LastIdForIff(rows: seq<(string, string)>, slug: string)
    ensures LastIdFor(rows, slug).Some? <==> exists i :: 0 <= i < |rows| && rows[i].0 == slug
    ensures LastIdFor(rows, slug).Some? ==>
              exists i :: 0 <= i < |rows| && rows[i] == (slug, LastIdFor(rows, slug).value)
                          && forall j :: i < j < |rows| ==> rows[j].0 != slug
    decreases |rows|
  {
    if rows != [] {
      var p := rows[..|rows| - 1];
      LastIdForIff(p, slug);
      assert forall i :: 0 <= i < |p| ==> p[i] == rows[i];
      if rows[|rows| - 1].0 != slug && LastIdFor(p, slug).Some? {
        var i :| 0 <= i < |p| && p[i] == (slug, LastIdFor(p, slug).value)
                 && forall j :: i < j < |p| ==> p[j].0 != slug;
        assert rows[i] == (slug, LastIdFor(rows, slug).value);
      }
    }
  }

  /** `loadLocalityMap`: the query's failure, or the slug-to-id map of its rows. */
  method LoadLocalityMap(query: Result<seq<(string, string)>>) returns (r: Result<map<string, string>>)
    ensures query.Err? ==> r == Err("Failed to load localities: " + query.message)
    ensures query.Ok? ==> r.Ok? && forall slug :: slug in r.value <==> LastIdFor(query.value, slug).Some?
    ensures query.Ok? ==> forall slug :: slug in r.value ==> LastIdFor(query.value, slug) == Some(r.value[slug])
  {
    if query.Err? {
      return Err("Failed to load localities: " + query.message);
    }
    var m := IdsBySlug(query.value);
    return Ok(m);
  }

  // ---------------------------------------------------------------------------
  // Locality links and batches

  datatype LocalityLink = LocalityLink(pubId: string, localityId: string, isPrimary: bool)

  /**
   * The link a row yields: none when it has no (or an empty) locality slug,
   * or when the locality or the pub id is missing or empty.
   */
  function LinkFor(row: IngestedPub, localities: map<string, string>, pubIds: map<string, string>): Option<LocalityLink> {
    if row.localitySlug.None? || row.localitySlug.value == "" then None
    else if row.localitySlug.value !in localities || localities[row.localitySlug.value] == "" then None
    else if row.slug !in pubIds || pubIds[row.slug] == "" then None
    else Some(LocalityLink(pubIds[row.slug], localities[row.localitySlug.value], true))
  }

  /** The links of a batch, in row order. */
  function Links(batch: seq<IngestedPub>, localities: map<string, string>, pubIds: map<string, string>): seq<LocalityLink>
    decreases |batch|
  {
    if batch == [] then []
    else
      var l := LinkFor(batch[|batch| - 1], localities, pubIds);
      Links(batch[..|batch| - 1], localities, pubIds) + (if l.Some? then [l.value] else [])
  }

  /**
   * Every link is primary and joins a row's pub to that row's locality; each
   * row with a slug, a known locality and a returned pub id yields one.
   */
  lemma {:induction false} LinksSpec(batch: seq<IngestedPub>, localities: map<string, string>, pubIds: map<string, string>)
    ensures forall l :: l in Links(batch, localities, pubIds) ==>
              l.isPrimary && exists i :: 0 <= i < |batch| && LinkFor(batch[i], localities, pubIds) == Some(l)
    ensures forall i :: 0 <= i < |batch| && LinkFor(batch[i], localities, pubIds).Some? ==>
              LinkFor(batch[i], localities, pubIds).value in Links(batch, localities, pubIds)
    ensures |Links(batch, localities, pubIds)| <= |batch|
    decreases |batch|
  {
    if batch != [] {
      var p := batch[..|batch| - 1];
      LinksSpec(p, localities, pubIds);
      assert forall i :: 0 <= i < |p| ==> p[i] == batch[i];
    }
  }

  /** What the `pubs` upsert and the `pub_localities` upsert answer, given as functions. */
  datatype Database = Database(
    upsertPubs: seq<PubInsert> -> Result<seq<(string, string)>>,
    upsertLinks: seq<LocalityLink> -> Option<string>)

  function Upserts(batch: seq<IngestedPub>): (r: seq<PubInsert>)
    ensures |r| == |batch|
    ensures forall i :: 0 <= i < |batch| ==> r[i] == ToPubUpsert(batch[i])
  {
    if batch == [] then [] else Upserts(batch[..|batch| - 1]) + [ToPubUpsert(batch[|batch| - 1])]
  }

  /** What `persistBatch` sends and how it ends. */
  ghost function BatchOutcome(db: Database, batch: seq<IngestedPub>, localities: map<string, string>): Result<seq<LocalityLink>> {
    match db.upsertPubs(Upserts(batch))
    case Err(m) => Err("Failed to upsert pubs: " + m)
    case Ok(rows) =>
      var links := Links(batch, localities, MapOf(rows));
      if links != [] && db.upsertLinks(links).Some? then Err("Failed to upsert pub_localities: " + db.upsertLinks(links).value)
      else Ok(links)
  }

  /** The slug-to-id map of a list of rows, each slug to its last id. */
  ghost function MapOf(rows: seq<(string, string)>): map<string, string> {
    map slug | slug in (set i | 0 <= i < |rows| :: rows[i].0) :: LastIdFor(rows, slug).GetOr("")
  }

  /** Two maps from the same rows, one filled in a loop and one defined, agree. */
  lemma IdsAgree(rows: seq<(string, string)>, m: map<string, string>)
    requires forall slug :: slug in m <==> LastIdFor(rows, slug).Some?
    requires forall slug :: slug in m ==> LastIdFor(rows, slug) == Some(m[slug])
    ensures m == MapOf(rows)
  {
    forall slug ensures slug in m <==> slug in MapOf(rows) {
      LastIdForIff(rows, slug);
      if LastIdFor(rows, slug).Some? {
        var i :| 0 <= i < |rows| && rows[i].0 == slug;
        assert rows[i].0 in (set i | 0 <= i < |rows| :: rows[i].0);
      }
    }
  }

  /**
   * `persistBatch`: upsert the batch's pubs, map their slugs to the returned
   * ids, build the locality links in a loop, and upsert those if there are any.
   */
  method PersistBatch(db: Database, batch: seq<IngestedPub>, localities: map<string, string>)
    returns (r: Result<seq<LocalityLink>>)
    ensures r == BatchOutcome(db, batch, localities)
  {
    var pubUpserts := Upserts(batch);
    var result := db.upsertPubs(pubUpserts);
    if result.Err? {
      return Err("Failed to upsert pubs: " + result.message);
    }
    var pubIdBySlug := IdsBySlug(result.value);
    IdsAgree(result.value, pubIdBySlug);
    var localityLinks := BuildLinks(batch, localities, pubIdBySlug);
    if |localityLinks| > 0 {
      var linkError := db.upsertLinks(localityLinks);
      if linkError.Some? {
        return Err("Failed to upsert pub_localities: " + linkError.value);
      }
    }
    return Ok(localityLinks);
  }

  /** The link loop of `persistBatch`. */
  method BuildLinks(batch: seq<IngestedPub>, localityMap: map<string, string>, pubIdBySlug: map<string, string>)
    returns (localityLinks: seq<LocalityLink>)
    ensures localityLinks == Links(batch, localityMap, pubIdBySlug)
  {
    localityLinks := [];
    for n := 0 to |batch|
      invariant localityLinks == Links(batch[..n], localityMap, pubIdBySlug)
    {
      assert batch[..n + 1][..n] == batch[..n];
      var row := batch[n];
      if row.localitySlug.None? || row.localitySlug.value == "" {
        continue;
      }
      var localityId := if row.localitySlug.value in localityMap then localityMap[row.localitySlug.value] else "";
      var pubId := if row.slug in pubIdBySlug then pubIdBySlug[row.slug] else "";
      if localityId == "" || pubId == "" {
        continue;
      }
      localityLinks := localityLinks + [LocalityLink(pubId, localityId, true)];
    }
    assert batch[..|batch|] == batch;
  }

  /** The outcome of importing `batches` in order: the first failure ends the import. */
  ghost function ImportOutcome(db: Database, batches: seq<seq<IngestedPub>>, localities: map<string, string>): (r: Option<string>)
    decreases |batches|
  {
    if batches == [] then None
    else match BatchOutcome(db, batches[0], localities)
      case Err(m) => Some(m)
      case Ok(_) => ImportOutcome(db, batches[1..], localities)
  }

  /** The outcome of each batch, in order. */
  ghost function Outcomes(db: Database, batches: seq<seq<IngestedPub>>, localities: map<string, string>): (r: seq<Result<seq<LocalityLink>>>)
    ensures |r| == |batches|
    ensures forall k :: 0 <= k < |batches| ==> r[k] == BatchOutcome(db, batches[k], localities)
  {
    seq(|batches|, k requires 0 <= k < |batches| => BatchOutcome(db, batches[k], localities))
  }

  /** The message of the first failed outcome, if any. */
  function FirstFailure(outcomes: seq<Result<seq<LocalityLink>>>): Option<string>
    decreases |outcomes|
  {
    if outcomes == [] then None
    else if outcomes[0].Err? then Some(outcomes[0].message)
    else FirstFailure(outcomes[1..])
  }

  /** The first failure is none exactly when every outcome succeeded, and otherwise a failure all of whose predecessors succeeded. */
  lemma {:induction false} FirstFailureIsFirst(outcomes: seq<Result<seq<LocalityLink>>>)
    ensures FirstFailure(outcomes).None? <==> forall k :: 0 <= k < |outcomes| ==> outcomes[k].Ok?
    ensures FirstFailure(outcomes).Some? ==>
              exists k :: 0 <= k < |outcomes| && outcomes[k] == Err(FirstFailure(outcomes).value)
                          && forall j :: 0 <= j < k ==> outcomes[j].Ok?
    decreases |outcomes|
  {
    if outcomes != [] && outcomes[0].Ok? {
      var rest := outcomes[1..];
      FirstFailureIsFirst(rest);
      if FirstFailure(rest).Some? {
        var k :| 0 <= k < |rest| && rest[k] == Err(FirstFailure(rest).value) && forall j :: 0 <= j < k ==> rest[j].Ok?;
        assert outcomes[k + 1] == rest[k];
        forall j | 0 <= j < k + 1 ensures outcomes[j].Ok? {
          if j > 0 { assert outcomes[j] == rest[j - 1]; }
        }
      } else {
        forall k | 0 <= k < |outcomes| ensures outcomes[k].Ok? {
          if k > 0 { assert outcomes[k] == rest[k - 1]; }
        }
      }
    } else if outcomes != [] {
      assert outcomes[0] == Err(FirstFailure(outcomes).value);
    }
  }

  /** Importing stops at the first batch that fails. */
  lemma {:induction false} ImportOutcomeIsFirstFailure(db: Database, batches: seq<seq<IngestedPub>>, localities: map<string, string>)
    ensures ImportOutcome(db, batches, localities) == FirstFailure(Outcomes(db, batches, localities))
    decreases |batches|
  {
    if batches != [] {
      ImportOutcomeIsFirstFailure(db, batches[1..], localities);
      assert Outcomes(db, batches, localities)[1..] == Outcomes(db, batches[1..], localities);
    }
  }

  /** The import fails exactly when some batch fails, and then with the first failing batch's message. */
  lemma ImportFailsAtFirstBadBatch(db: Database, batches: seq<seq<IngestedPub>>, localities: map<string, string>)
    ensures ImportOutcome(db, batches, localities).None? <==>
              forall k :: 0 <= k < |batches| ==> BatchOutcome(db, batches[k], localities).Ok?
    ensures ImportOutcome(db, batches, localities).Some? ==>
              exists k :: 0 <= k < |batches| && BatchOutcome(db, batches[k], localities) == Err(ImportOutcome(db, batches, localities).value)
                          && forall j :: 0 <= j < k ==> BatchOutcome(db, batches[j], localities).Ok?
  {
    var outcomes := Outcomes(db, batches, localities);
    ImportOutcomeIsFirstFailure(db, batches, localities);
    FirstFailureIsFirst(outcomes);
  }

  /** `Number(process.env.IMPORT_BATCH_SIZE ?? "50")` when it is a positive whole number. */
  function BatchSize(env: Option<string>): Option<nat> {
    var n := JsNumber(env.GetOr("50"));
    if n.Some? && IsWhole(n.value) && n.value >= 1.0 then Some(n.value.Floor as nat) else None
  }

  /**
   * The body of `main` after the arguments, the file and the client: check
   * the payload, load the localities, chunk the rows and persist batch after
   * batch; the result is the message the script exits with, if any.
   */
  method ImportPayload(db: Database, imported: seq<IngestedPub>, localityQuery: Result<seq<(string, string)>>, batchSize: nat)
    returns (failure: Option<string>)
    requires batchSize > 0
    ensures imported == [] ==> failure == Some(NoRowsMessage)
    ensures imported != [] && localityQuery.Err? ==> failure == Some("Failed to load localities: " + localityQuery.message)
    ensures imported != [] && localityQuery.Ok? ==>
              failure == ImportOutcome(db, Chunks(imported, batchSize), MapOf(localityQuery.value))
  {
    var parsed := CheckImported(imported);
    if parsed.Err? {
      return Some(parsed.message);
    }
    var localityMap := LoadLocalityMap(localityQuery);
    if localityMap.Err? {
      return Some(localityMap.message);
    }
    IdsAgree(localityQuery.value, localityMap.value);
    var batches := Chunk(parsed.value, batchSize);
    for index := 0 to |batches|
      invariant ImportOutcome(db, batches, localityMap.value) == ImportOutcome(db, batches[index..], localityMap.value)
    {
      var outcome := PersistBatch(db, batches[index], localityMap.value);
      if outcome.Err? {
        return Some(outcome.message);
      }
      assert batches[index..][1..] == batches[index + 1..];
    }
    assert batches[|batches|..] == [];
    return None;
  }
}
