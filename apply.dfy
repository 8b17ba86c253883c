/**
 * The apply step: writing a generated description and generated attribute
 * values to the store, with a change-history entry for each. The backend is an
 * abstract store; each query that can fail is named by a `Step`, and the
 * failures of one call are given as a map from step to error message.
 */
module Apply {
  import opened Wrappers
  import opened JsonValue
  import opened ValueCodec

  /** A row of the `attributes` dictionary table. */
  datatype AttributeDef = AttributeDef(id: string, code: string, dataType: Option<string>)

  /** What the dictionary gives for one code. */
  datatype Metadata = Metadata(id: string, dataType: Option<string>)

  /** A `pub_attribute_values` row without its key: the value slots and their provenance. */
  datatype StoredValue = StoredValue(row: Row, source: string, lastVerifiedAt: string)

  /**
   * A `pub_change_history` row as written here; `before` and `after` are JSON or
   * `JNull`. The id and creation time are assigned by the database, and the
   * actor id and email are never set by the apply step.
   */
  datatype HistoryEntry = HistoryEntry(pubId: string, action: string, before: Json, after: Json)

  /** The backend calls of the apply step that can fail. */
  datatype Step =
    | LoadPub | UpdatePub | InsertDescriptionHistory
    | LoadDictionary | LoadExisting | UpsertValues | InsertAttributeHistory

  /** One accepted attribute: its code, its dictionary id, its decoded value and its row. */
  datatype Change = Change(code: string, attributeId: string, value: Json, row: Row)

  const AiSource := "ai_generated"
  const DefaultActor := "ai_enrichment"

  // ---------------------------------------------------------------------------
  // The dictionary lookups built from the `attributes` table

  /** `metadataByCode`: a later row with the same code replaces an earlier one. */
  function IndexByCode(defs: seq<AttributeDef>): (m: map<string, Metadata>)
    ensures forall c :: c in m <==> exists i :: 0 <= i < |defs| && defs[i].code == c
  {
    if defs == [] then map[]
    else
      var d := defs[|defs| - 1];
      var m := IndexByCode(defs[..|defs| - 1]);
      assert forall i :: 0 <= i < |defs| - 1 ==> defs[..|defs| - 1][i] == defs[i];
      m[d.code := Metadata(d.id, d.dataType)]
  }

  /** A code maps to the metadata of the last dictionary row with that code. */
  lemma {:induction false} IndexByCodeLast(defs: seq<AttributeDef>, i: nat)
    requires i < |defs| && forall j :: i < j < |defs| ==> defs[j].code != defs[i].code
    ensures IndexByCode(defs)[defs[i].code] == Metadata(defs[i].id, defs[i].dataType)
  {
    if i < |defs| - 1 {
      var init := defs[..|defs| - 1];
      assert init[i] == defs[i];
      forall j | i < j < |init| ensures init[j].code != init[i].code {
        assert init[j] == defs[j];
      }
      IndexByCodeLast(init, i);
    }
  }

  /** `codeById`: a later row with the same id replaces an earlier one. */
  function IndexById(defs: seq<AttributeDef>): (m: map<string, string>)
    ensures forall id :: id in m <==> exists i :: 0 <= i < |defs| && defs[i].id == id
  {
    if defs == [] then map[]
    else
      var d := defs[|defs| - 1];
      var m := IndexById(defs[..|defs| - 1]);
      assert forall i :: 0 <= i < |defs| - 1 ==> defs[..|defs| - 1][i] == defs[i];
      m[d.id := d.code]
  }

  /** An id maps to the code of the last dictionary row with that id. */
  lemma {:induction false} IndexByIdLast(defs: seq<AttributeDef>, i: nat)
    requires i < |defs| && forall j :: i < j < |defs| ==> defs[j].id != defs[i].id
    ensures IndexById(defs)[defs[i].id] == defs[i].code
  {
    if i < |defs| - 1 {
      var init := defs[..|defs| - 1];
      assert init[i] == defs[i];
      forall j | i < j < |init| ensures init[j].id != init[i].id {
        assert init[j] == defs[j];
      }
      IndexByIdLast(init, i);
    }
  }

  // ---------------------------------------------------------------------------
  // Selecting the changes

  /** The change an entry makes: none for an unregistered code or a value that does not normalise. */
  function ChangeOf(entry: (string, Json), byCode: map<string, Metadata>): (c: Option<Change>)
    ensures c.Some? <==> entry.0 in byCode && Normalise(entry.1, byCode[entry.0].dataType).Some?
    ensures c.Some? ==> (c.value.code == entry.0 && c.value.attributeId == byCode[entry.0].id
      && Normalise(entry.1, byCode[entry.0].dataType) == Some(c.value.row)
      && IsNormalRow(c.value.row) && c.value.value == Denormalise(c.value.row))
  {
    if entry.0 !in byCode then None
    else
      match Normalise(entry.1, byCode[entry.0].dataType)
      case None => None
      case Some(row) => Some(Change(entry.0, byCode[entry.0].id, Denormalise(row), row))
  }

  /** The entries' changes, in entry order; entries without one are dropped. */
  function Changes(entries: seq<(string, Json)>, byCode: map<string, Metadata>): (cs: seq<Change>)
    ensures |cs| <= |entries|
    ensures forall k :: 0 <= k < |cs| ==> exists e :: e in entries && ChangeOf(e, byCode) == Some(cs[k])
    ensures forall e :: e in entries && ChangeOf(e, byCode).Some? ==> ChangeOf(e, byCode).value in cs
  {
    if entries == [] then []
    else
      var rest := Changes(entries[1..], byCode);
      var here := ChangeOf(entries[0], byCode);
      var cs := (if here.Some? then [here.value] else []) + rest;
      assert forall k :: 0 <= k < |rest| ==> rest[k] in cs;
      cs
  }

  // ---------------------------------------------------------------------------
  // Writing the values

  /** The upsert on (pub_id, attribute_id): each change replaces or adds its row, a later change winning. */
  function UpsertAll(values: map<(string, string), StoredValue>, pubId: string, cs: seq<Change>, timestamp: string)
    : (r: map<(string, string), StoredValue>)
    ensures forall key :: key in r <==> key in values || (key.0 == pubId && exists k :: 0 <= k < |cs| && cs[k].attributeId == key.1)
  {
    if cs == [] then values
    else
      var c := cs[|cs| - 1];
      var m := UpsertAll(values, pubId, cs[..|cs| - 1], timestamp);
      assert forall k :: 0 <= k < |cs| - 1 ==> cs[..|cs| - 1][k] == cs[k];
      m[(pubId, c.attributeId) := StoredValue(c.row, AiSource, timestamp)]
  }

  /** Rows of other pubs, and rows of this pub for attributes that did not change, are untouched. */
  lemma {:induction false} UpsertKeepsOthers(values: map<(string, string), StoredValue>, pubId: string, cs: seq<Change>, timestamp: string,
                                             key: (string, string))
    requires key in values
    requires key.0 != pubId || forall k :: 0 <= k < |cs| ==> cs[k].attributeId != key.1
    ensures UpsertAll(values, pubId, cs, timestamp)[key] == values[key]
  {
    if cs != [] {
      var init := cs[..|cs| - 1];
      forall k | 0 <= k < |init| ensures key.0 != pubId || init[k].attributeId != key.1 {
        assert init[k] == cs[k];
      }
      UpsertKeepsOthers(values, pubId, init, timestamp, key);
    }
  }

  /** The row stored for a changed attribute is the last change's row, marked as generated at the given time. */
  lemma {:induction false} UpsertWritesLast(values: map<(string, string), StoredValue>, pubId: string, cs: seq<Change>, timestamp: string,
                                            k: nat)
    requires k < |cs| && forall j :: k < j < |cs| ==> cs[j].attributeId != cs[k].attributeId
    ensures UpsertAll(values, pubId, cs, timestamp)[(pubId, cs[k].attributeId)] == StoredValue(cs[k].row, AiSource, timestamp)
  {
    if k < |cs| - 1 {
      var init := cs[..|cs| - 1];
      assert init[k] == cs[k];
      forall j | k < j < |init| ensures init[j].attributeId != init[k].attributeId {
        assert init[j] == cs[j];
      }
      UpsertWritesLast(values, pubId, init, timestamp, k);
    }
  }

  /** Every row the upsert writes is marked as generated and stamped; the other rows are untouched. */
  lemma UpsertMarksSource(values: map<(string, string), StoredValue>, pubId: string, cs: seq<Change>, timestamp: string)
    ensures var r := UpsertAll(values, pubId, cs, timestamp);
      forall key :: key in r ==> (key in values && r[key] == values[key]) || (r[key].source == AiSource && r[key].lastVerifiedAt == timestamp)
  {
    var r := UpsertAll(values, pubId, cs, timestamp);
    forall key | key in r && !(key in values && r[key] == values[key])
      ensures r[key].source == AiSource && r[key].lastVerifiedAt == timestamp
    {
      if key.0 == pubId && exists k :: 0 <= k < |cs| && cs[k].attributeId == key.1 {
        var k := LastWithId(cs, key.1);
        UpsertWritesLast(values, pubId, cs, timestamp, k);
      } else {
        UpsertKeepsOthers(values, pubId, cs, timestamp, key);
      }
    }
  }

  /** The position of the last change with a given attribute id. */
  lemma LastWithId(cs: seq<Change>, id: string) returns (k: nat)
    requires exists k :: 0 <= k < |cs| && cs[k].attributeId == id
    ensures k < |cs| && cs[k].attributeId == id
    ensures forall j :: k < j < |cs| ==> cs[j].attributeId != id
  {
    k := |cs| - 1;
    while cs[k].attributeId != id
      invariant 0 <= k < |cs|
      invariant exists i :: 0 <= i <= k && cs[i].attributeId == id
      invariant forall j :: k < j < |cs| ==> cs[j].attributeId != id
      decreases k
    {
      k := k - 1;
    }
  }

  // ---------------------------------------------------------------------------
  // The snapshots recorded in the history

  /** The stored rows of a pub among the given attribute ids, one per distinct id. */
  function ExistingRows(values: map<(string, string), StoredValue>, pubId: string, ids: seq<string>): (rows: seq<(string, Row)>)
    ensures StoredAmong(values, pubId, ids, rows)
  {
    if ids == [] then []
    else
      var rest := ExistingRows(values, pubId, ids[1..]);
      var here := if ids[0] !in ids[1..] && (pubId, ids[0]) in values then [(ids[0], values[(pubId, ids[0])].row)] else [];
      StoredAmongCons(values, pubId, ids, here, rest);
      here + rest
  }

  /** Each row is the stored row of the pub for one of the ids. */
  predicate StoredAmong(values: map<(string, string), StoredValue>, pubId: string, ids: seq<string>, rows: seq<(string, Row)>) {
    forall k :: 0 <= k < |rows| ==>
      rows[k].0 in ids && (pubId, rows[k].0) in values && values[(pubId, rows[k].0)].row == rows[k].1
  }

  lemma StoredAmongCons(values: map<(string, string), StoredValue>, pubId: string, ids: seq<string>,
                        here: seq<(string, Row)>, rest: seq<(string, Row)>)
    requires ids != []
    requires StoredAmong(values, pubId, ids, here) && StoredAmong(values, pubId, ids[1..], rest)
    ensures StoredAmong(values, pubId, ids, here + rest)
  {
    var rows := here + rest;
    forall k | 0 <= k < |rows|
      ensures rows[k].0 in ids && (pubId, rows[k].0) in values && values[(pubId, rows[k].0)].row == rows[k].1
    {
      if k >= |here| {
        var x := rest[k - |here|];
        assert rows[k] == x;
        var j :| 0 <= j < |ids[1..]| && ids[1..][j] == x.0;
        assert ids[j + 1] == x.0;
      }
    }
  }

  /** Every stored row of the pub among the ids is found. */
  lemma {:induction false} ExistingRowsComplete(values: map<(string, string), StoredValue>, pubId: string, ids: seq<string>, id: string)
    requires id in ids && (pubId, id) in values
    ensures exists k :: 0 <= k < |ExistingRows(values, pubId, ids)| && ExistingRows(values, pubId, ids)[k].0 == id
  {
    var rest := ExistingRows(values, pubId, ids[1..]);
    var rows := ExistingRows(values, pubId, ids);
    var here := if ids[0] !in ids[1..] && (pubId, ids[0]) in values then [(ids[0], values[(pubId, ids[0])].row)] else [];
    assert rows == here + rest;
    if id in ids[1..] {
      ExistingRowsComplete(values, pubId, ids[1..], id);
      var k :| 0 <= k < |rest| && rest[k].0 == id;
      assert rows[|here| + k].0 == id;
    } else {
      assert rows[0].0 == id;
    }
  }

  /** The code a stored row is reported under: its dictionary code, or its id when the dictionary has none. */
  function CodeFor(codeById: map<string, string>, id: string): string {
    if id in codeById then codeById[id] else id
  }

  /** `beforeSnapshot[code] = denormalise(row)` for each existing row, in order. */
  function SnapshotOf(rows: seq<(string, Row)>, codeById: map<string, string>): (fields: seq<(string, Json)>)
    ensures UniqueKeys(fields)
    ensures |fields| > 0 <==> |rows| > 0
  {
    if rows == [] then []
    else
      var last := rows[|rows| - 1];
      SetField(SnapshotOf(rows[..|rows| - 1], codeById), CodeFor(codeById, last.0), Denormalise(last.1))
  }

  /** The `after` snapshot: each change's code with its decoded value. */
  function AfterFields(cs: seq<Change>): (fields: seq<(string, Json)>)
    ensures |fields| == |cs|
    ensures forall k :: 0 <= k < |cs| ==> fields[k] == (cs[k].code, cs[k].value)
  {
    seq(|cs|, k requires 0 <= k < |cs| => (cs[k].code, cs[k].value))
  }

  function AttributesHistory(pubId: string, actor: string, before: seq<(string, Json)>, cs: seq<Change>): HistoryEntry {
    HistoryEntry(pubId, actor,
      if |before| > 0 then JObj([("attributes", JObj(before))]) else JNull,
      JObj([("attributes", JObj(FromEntries(AfterFields(cs))))]))
  }

  function DescriptionHistory(pubId: string, actor: string, before: Option<string>, summary: string, highlights: Json): HistoryEntry {
    HistoryEntry(pubId, actor,
      if before.Some? then JObj([("description", JStr(before.value))]) else JNull,
      JObj([("description", JStr(summary)), ("highlights", highlights)]))
  }

  /** The history records `before = null` exactly when the pub had none of the changed attributes. */
  lemma BeforeNullIffNoPriorRows(values: map<(string, string), StoredValue>, pubId: string, actor: string,
                                 cs: seq<Change>, codeById: map<string, string>)
    ensures var ids := seq(|cs|, k requires 0 <= k < |cs| => cs[k].attributeId);
      var before := SnapshotOf(ExistingRows(values, pubId, ids), codeById);
      (AttributesHistory(pubId, actor, before, cs).before == JNull) <==>
      (forall k :: 0 <= k < |cs| ==> (pubId, cs[k].attributeId) !in values)
  {
    var ids := seq(|cs|, k requires 0 <= k < |cs| => cs[k].attributeId);
    var rows := ExistingRows(values, pubId, ids);
    if rows != [] {
      assert rows[0].0 in ids;
    } else {
      forall k | 0 <= k < |cs| ensures (pubId, cs[k].attributeId) !in values {
        assert ids[k] == cs[k].attributeId;
        if (pubId, ids[k]) in values {
          ExistingRowsComplete(values, pubId, ids, ids[k]);
        }
      }
    }
  }

  // ---------------------------------------------------------------------------
  // The outcome of applying attributes

  /** What `applyAttributes` returns or throws, given how many entries and changes there are. */
  function AttributesOutcome(entryCount: nat, changeCount: nat, failures: map<Step, string>): Result<()> {
    if entryCount == 0 then Ok(())
    else if LoadDictionary in failures then Err("Failed to load attribute dictionary: " + failures[LoadDictionary])
    else if changeCount == 0 then Ok(())
    else if LoadExisting in failures then Err("Failed to load current attribute values: " + failures[LoadExisting])
    else if UpsertValues in failures then Err("Failed to upsert attribute values: " + failures[UpsertValues])
    else Ok(())
  }

  /** Whether `applyAttributes` reaches its upsert and the upsert succeeds. */
  predicate AttributesWritten(entryCount: nat, changeCount: nat, failures: map<Step, string>) {
    entryCount > 0 && changeCount > 0
    && LoadDictionary !in failures && LoadExisting !in failures && UpsertValues !in failures
  }

  /** An empty attribute object, or one with no accepted change, is not an error and writes nothing. */
  lemma NothingToWrite(entryCount: nat, changeCount: nat, failures: map<Step, string>)
    requires entryCount == 0 || (changeCount == 0 && LoadDictionary !in failures)
    ensures AttributesOutcome(entryCount, changeCount, failures) == Ok(())
    ensures !AttributesWritten(entryCount, changeCount, failures)
  {
  }

  // ---------------------------------------------------------------------------
  // The store

  class Store {
    var dictionary: seq<AttributeDef>
    var values: map<(string, string), StoredValue>
    var descriptions: map<string, Option<string>>
    var history: seq<HistoryEntry>

    constructor (dictionary: seq<AttributeDef>, values: map<(string, string), StoredValue>, descriptions: map<string, Option<string>>)
      ensures this.dictionary == dictionary && this.values == values && this.descriptions == descriptions
      ensures history == []
    {
      this.dictionary := dictionary;
      this.values := values;
      this.descriptions := descriptions;
      history := [];
    }

    /** The pub's current description, `null` for a missing pub or an empty column. */
    function CurrentDescription(pubId: string): Option<string>
      reads this
    {
      if pubId in descriptions then descriptions[pubId] else None
    }

    /** The ids of the changed attributes, in change order. */
    static function ChangedIds(cs: seq<Change>): (ids: seq<string>)
      ensures |ids| == |cs| && forall k :: 0 <= k < |cs| ==> ids[k] == cs[k].attributeId
    {
      seq(|cs|, k requires 0 <= k < |cs| => cs[k].attributeId)
    }

    /**
     * `applyDescription`: read the old description, write the new one, then
     * append a history entry; the history insert's own failure is not checked.
     */
    method ApplyDescription(pubId: string, summary: string, highlights: Json, actor: string, failures: map<Step, string>)
      returns (res: Result<()>)
      modifies this
      ensures dictionary == old(dictionary) && values == old(values)
      ensures res.Ok? <==> LoadPub !in failures && UpdatePub !in failures
      ensures LoadPub in failures ==> res == Err("Failed to load existing pub metadata: " + failures[LoadPub])
      ensures LoadPub !in failures && UpdatePub in failures ==> res == Err("Failed to update pub description: " + failures[UpdatePub])
      ensures descriptions == if res.Ok? && pubId in old(descriptions) then old(descriptions)[pubId := Some(summary)] else old(descriptions)
      ensures history == old(history) +
        if res.Ok? && InsertDescriptionHistory !in failures
        then [DescriptionHistory(pubId, actor, old(CurrentDescription(pubId)), summary, highlights)] else []
    {
      if LoadPub in failures {
        return Err("Failed to load existing pub metadata: " + failures[LoadPub]);
      }
      var before := CurrentDescription(pubId);
      if UpdatePub in failures {
        return Err("Failed to update pub description: " + failures[UpdatePub]);
      }
      if pubId in descriptions {
        descriptions := descriptions[pubId := Some(summary)];
      }
      if InsertDescriptionHistory !in failures {
        history := history + [DescriptionHistory(pubId, actor, before, summary, highlights)];
      }
      return Ok(());
    }

    /**
     * `applyAttributes`: look up each code in the dictionary, keep the values
     * that normalise, upsert them as generated, and record the prior and new
     * decoded values. Nothing is written when no entry or no change remains.
     */
    method ApplyAttributes(pubId: string, entries: seq<(string, Json)>, actor: string, timestamp: string, failures: map<Step, string>)
      returns (res: Result<()>)
      modifies this
      ensures dictionary == old(dictionary) && descriptions == old(descriptions)
      ensures var cs := Changes(entries, IndexByCode(old(dictionary)));
        res == AttributesOutcome(|entries|, |cs|, failures)
        && values == (if AttributesWritten(|entries|, |cs|, failures) then UpsertAll(old(values), pubId, cs, timestamp) else old(values))
        && history == old(history) +
          if AttributesWritten(|entries|, |cs|, failures) && InsertAttributeHistory !in failures
          then [AttributesHistory(pubId, actor,
                  SnapshotOf(ExistingRows(old(values), pubId, ChangedIds(cs)), IndexById(old(dictionary))), cs)]
          else []
    {
      if |entries| == 0 {
        return Ok(());
      }
      if LoadDictionary in failures {
        return Err("Failed to load attribute dictionary: " + failures[LoadDictionary]);
      }
      var byCode, codeById := BuildIndexes(dictionary);
      var cs := Changes(entries, byCode);
      if |cs| == 0 {
        return Ok(());
      }
      res := WriteChanges(pubId, cs, codeById, actor, timestamp, failures);
    }

    /** The second half of `applyAttributes`: snapshot the prior rows, upsert, record the history. */
    method WriteChanges(pubId: string, cs: seq<Change>, codeById: map<string, string>, actor: string, timestamp: string,
                        failures: map<Step, string>)
      returns (res: Result<()>)
      modifies this
      ensures dictionary == old(dictionary) && descriptions == old(descriptions)
      ensures res == if LoadExisting in failures then Err("Failed to load current attribute values: " + failures[LoadExisting])
        else if UpsertValues in failures then Err("Failed to upsert attribute values: " + failures[UpsertValues])
        else Ok(())
      ensures values == if res.Ok? then UpsertAll(old(values), pubId, cs, timestamp) else old(values)
      ensures history == old(history) +
        if res.Ok? && InsertAttributeHistory !in failures
        then [AttributesHistory(pubId, actor, SnapshotOf(ExistingRows(old(values), pubId, ChangedIds(cs)), codeById), cs)]
        else []
    {
      if LoadExisting in failures {
        return Err("Failed to load current attribute values: " + failures[LoadExisting]);
      }
      var existing := ExistingRows(values, pubId, ChangedIds(cs));
      var before := BuildSnapshot(existing, codeById);
      if UpsertValues in failures {
        return Err("Failed to upsert attribute values: " + failures[UpsertValues]);
      }
      values := UpsertAll(values, pubId, cs, timestamp);
      if InsertAttributeHistory !in failures {
        history := history + [AttributesHistory(pubId, actor, before, cs)];
      }
      return Ok(());
    }

    /** The loop that fills `metadataByCode` and `codeById` from the dictionary rows. */
    static method BuildIndexes(defs: seq<AttributeDef>) returns (byCode: map<string, Metadata>, codeById: map<string, string>)
      ensures byCode == IndexByCode(defs) && codeById == IndexById(defs)
    {
      byCode := map[];
      codeById := map[];
      for i := 0 to |defs|
        invariant byCode == IndexByCode(defs[..i])
        invariant codeById == IndexById(defs[..i])
      {
        assert defs[..i + 1][..i] == defs[..i];
        byCode := byCode[defs[i].code := Metadata(defs[i].id, defs[i].dataType)];
        codeById := codeById[defs[i].id := defs[i].code];
      }
      assert defs[..|defs|] == defs;
    }

    /** The loop that fills `beforeSnapshot` from the existing rows. */
    static method BuildSnapshot(existing: seq<(string, Row)>, codeById: map<string, string>) returns (before: seq<(string, Json)>)
      ensures before == SnapshotOf(existing, codeById)
    {
      before := [];
      for i := 0 to |existing|
        invariant before == SnapshotOf(existing[..i], codeById)
      {
        assert existing[..i + 1][..i] == existing[..i];
        before := SetField(before, CodeFor(codeById, existing[i].0), Denormalise(existing[i].1));
      }
      assert existing[..|existing|] == existing;
    }

    /**
     * `applyEnrichment`: the description when `summary` is a string (with
     * `highlights` when it is an array, else `[]`), then the attributes when
     * they are present. A failing description stops before the attributes.
     */
    method ApplyEnrichment(pubId: string, result: Json, actor: string, timestamp: string, failures: map<Step, string>)
      returns (res: Result<()>)
      modifies this
      ensures dictionary == old(dictionary)
      ensures var e := EnrichmentOf(result);
        && res == EnrichmentOutcome(e, |EnrichmentChanges(e, old(dictionary))|, failures)
        && descriptions == EnrichedDescriptions(old(descriptions), pubId, e, failures)
        && values == EnrichedValues(old(values), old(dictionary), pubId, e, timestamp, failures)
        && history == old(history)
          + DescriptionRecord(pubId, actor, old(CurrentDescription(pubId)), e, failures)
          + AttributesRecord(old(values), old(dictionary), pubId, actor, e, failures)
    {
      res := Enrich(pubId, EnrichmentOf(result), actor, timestamp, failures);
    }

    /** `applyEnrichment` on the parts read from the result. */
    method Enrich(pubId: string, e: Enrichment, actor: string, timestamp: string, failures: map<Step, string>)
      returns (res: Result<()>)
      modifies this
      ensures dictionary == old(dictionary)
      ensures res == EnrichmentOutcome(e, |EnrichmentChanges(e, old(dictionary))|, failures)
      ensures descriptions == EnrichedDescriptions(old(descriptions), pubId, e, failures)
      ensures values == EnrichedValues(old(values), old(dictionary), pubId, e, timestamp, failures)
      ensures history == old(history)
        + DescriptionRecord(pubId, actor, old(CurrentDescription(pubId)), e, failures)
        + AttributesRecord(old(values), old(dictionary), pubId, actor, e, failures)
    {
      if e.summary.Some? {
        res := ApplyDescription(pubId, e.summary.value, e.highlights, actor, failures);
        if res.Err? {
          EnrichmentWritesIff(old(values), old(dictionary), old(descriptions), pubId, actor, timestamp, e, failures);
          return;
        }
        assert DescriptionWritten(e, failures);
      } else {
        EnrichmentWritesIff(old(values), old(dictionary), old(descriptions), pubId, actor, timestamp, e, failures);
      }
      assert history == old(history) + DescriptionRecord(pubId, actor, old(CurrentDescription(pubId)), e, failures);
      ghost var described := history;
      res := EnrichAttributes(pubId, e, actor, timestamp, failures);
      assert history == described + AttributesRecord(old(values), old(dictionary), pubId, actor, e, failures);
    }

    /** The attribute half of `applyEnrichment`, reached when the description step did not fail. */
    method EnrichAttributes(pubId: string, e: Enrichment, actor: string, timestamp: string, failures: map<Step, string>)
      returns (res: Result<()>)
      requires e.summary.None? || DescriptionWritten(e, failures)
      modifies this
      ensures dictionary == old(dictionary) && descriptions == old(descriptions)
      ensures res == EnrichmentOutcome(e, |EnrichmentChanges(e, old(dictionary))|, failures)
      ensures values == EnrichedValues(old(values), old(dictionary), pubId, e, timestamp, failures)
      ensures history == old(history) + AttributesRecord(old(values), old(dictionary), pubId, actor, e, failures)
    {
      res := Ok(());
      if e.attributes.Some? {
        assert EnrichmentChanges(e, dictionary) == Changes(e.attributes.value, IndexByCode(dictionary));
        res := ApplyAttributes(pubId, e.attributes.value, actor, timestamp, failures);
      } else {
        EnrichmentWritesIff(values, dictionary, descriptions, pubId, actor, timestamp, e, failures);
      }
    }
  }

  /**
   * The parts of an enrichment result `applyEnrichment` reads: the summary
   * when it is a string, the highlights, and the attribute entries when
   * `attributes` is truthy.
   */
  datatype Enrichment = Enrichment(summary: Option<string>, highlights: Json, attributes: Option<seq<(string, Json)>>)

  function EnrichmentOf(result: Json): (e: Enrichment)
    ensures e.summary == SummaryOf(result)
    ensures e.attributes.Some? <==> HasAttributes(result)
    ensures e.highlights.JArr?
  {
    Enrichment(SummaryOf(result), Highlights(result),
      if HasAttributes(result) then Some(EntriesOf(Get(result, "attributes").value)) else None)
  }

  /** `Array.isArray(result.highlights) ? result.highlights : []`. */
  function Highlights(result: Json): Json {
    var h := Get(result, "highlights");
    if h.Some? && h.value.JArr? then h.value else JArr([])
  }

  /** The description step runs and succeeds: the summary is a string and neither loading nor updating the pub fails. */
  predicate DescriptionWritten(e: Enrichment, failures: map<Step, string>) {
    e.summary.Some? && LoadPub !in failures && UpdatePub !in failures
  }

  /** The changes the attributes of an enrichment make under a dictionary; none without attributes. */
  function EnrichmentChanges(e: Enrichment, dictionary: seq<AttributeDef>): seq<Change> {
    Changes(e.attributes.GetOr([]), IndexByCode(dictionary))
  }

  /** The description step, if it runs, succeeds and the attribute step reaches a successful upsert. */
  predicate EnrichmentWritesValues(e: Enrichment, changeCount: nat, failures: map<Step, string>) {
    (e.summary.None? || DescriptionWritten(e, failures))
    && e.attributes.Some? && AttributesWritten(|e.attributes.value|, changeCount, failures)
  }

  /** What `applyEnrichment` returns or throws: the description's failure first, then the attributes' outcome. */
  function EnrichmentOutcome(e: Enrichment, changeCount: nat, failures: map<Step, string>): Result<()> {
    if e.summary.Some? && LoadPub in failures then Err("Failed to load existing pub metadata: " + failures[LoadPub])
    else if e.summary.Some? && UpdatePub in failures then Err("Failed to update pub description: " + failures[UpdatePub])
    else if e.attributes.Some? then AttributesOutcome(|e.attributes.value|, changeCount, failures)
    else Ok(())
  }

  /** The descriptions after an enrichment: the summary replaces the pub's description when that step succeeds. */
  function EnrichedDescriptions(descriptions: map<string, Option<string>>, pubId: string, e: Enrichment,
                                failures: map<Step, string>): map<string, Option<string>> {
    if DescriptionWritten(e, failures) && pubId in descriptions
    then descriptions[pubId := Some(e.summary.value)] else descriptions
  }

  /** The attribute values after an enrichment: the upsert of its changes when they are written. */
  function EnrichedValues(values: map<(string, string), StoredValue>, dictionary: seq<AttributeDef>, pubId: string,
                          e: Enrichment, timestamp: string, failures: map<Step, string>): map<(string, string), StoredValue> {
    var cs := EnrichmentChanges(e, dictionary);
    if EnrichmentWritesValues(e, |cs|, failures) then UpsertAll(values, pubId, cs, timestamp) else values
  }

  /** The description history entry an enrichment appends, if any. */
  function DescriptionRecord(pubId: string, actor: string, before: Option<string>, e: Enrichment,
                             failures: map<Step, string>): seq<HistoryEntry> {
    if DescriptionWritten(e, failures) && InsertDescriptionHistory !in failures
    then [DescriptionHistory(pubId, actor, before, e.summary.value, e.highlights)]
    else []
  }

  /** The attribute history entry an enrichment appends, if any: both snapshots of the changed attributes. */
  function AttributesRecord(values: map<(string, string), StoredValue>, dictionary: seq<AttributeDef>, pubId: string,
                            actor: string, e: Enrichment, failures: map<Step, string>): seq<HistoryEntry> {
    var cs := EnrichmentChanges(e, dictionary);
    if EnrichmentWritesValues(e, |cs|, failures) && InsertAttributeHistory !in failures
    then [AttributesHistory(pubId, actor, SnapshotOf(ExistingRows(values, pubId, Store.ChangedIds(cs)), IndexById(dictionary)), cs)]
    else []
  }

  /**
   * An enrichment writes attribute values exactly when it returns
   * successfully with attributes that yield at least one change; a failing
   * description step writes nothing and records no attributes; and without
   * a summary the descriptions are untouched.
   */
  lemma EnrichmentWritesIff(values: map<(string, string), StoredValue>, dictionary: seq<AttributeDef>,
                            descriptions: map<string, Option<string>>, pubId: string, actor: string, timestamp: string,
                            e: Enrichment, failures: map<Step, string>)
    ensures var n := |EnrichmentChanges(e, dictionary)|;
      EnrichmentWritesValues(e, n, failures) <==>
        EnrichmentOutcome(e, n, failures).Ok? && e.attributes.Some? && |e.attributes.value| > 0 && n > 0
    ensures e.summary.Some? && !DescriptionWritten(e, failures) ==>
      EnrichmentOutcome(e, |EnrichmentChanges(e, dictionary)|, failures).Err?
      && EnrichedValues(values, dictionary, pubId, e, timestamp, failures) == values
      && AttributesRecord(values, dictionary, pubId, actor, e, failures) == []
      && EnrichedDescriptions(descriptions, pubId, e, failures) == descriptions
    ensures e.summary.None? ==>
      EnrichedDescriptions(descriptions, pubId, e, failures) == descriptions
      && forall before :: DescriptionRecord(pubId, actor, before, e, failures) == []
    ensures e.attributes.None? ==>
      EnrichedValues(values, dictionary, pubId, e, timestamp, failures) == values
      && AttributesRecord(values, dictionary, pubId, actor, e, failures) == []
  {
  }

  /** `typeof result.summary === "string"`. */
  function SummaryOf(result: Json): Option<string> {
    var v := Get(result, "summary");
    if v.Some? && v.value.JStr? then Some(v.value.s) else None
  }

  /** `result.attributes` is truthy. */
  predicate HasAttributes(result: Json) {
    Get(result, "attributes").Some? && Truthy(Get(result, "attributes").value)
  }

  /** `Object.entries(value)` for a parsed object: its fields with repeated keys merged. */
  function EntriesOf(value: Json): (entries: seq<(string, Json)>)
    ensures UniqueKeys(entries)
  {
    if value.JObj? then FromEntries(value.fields) else []
  }
}
