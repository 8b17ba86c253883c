# pubsinbangalore, modelled in Dafny

pubsinbangalore is a directory of pubs in Bengaluru. A Next.js site lists
pubs by locality, filters and sorts them, and shows each pub's attributes
(cover charge, stag entry, opening hours and so on). Visitors vote on a few
crowd-sourced topics, and owners can claim a pub. Behind the site:

- a Python script ingests scraped CSV rows: dedupe, classify, filter, report;
- a TypeScript script imports the ingested rows into the database;
- an AI job queue fills in missing attributes, and its worker applies the
  generated values to the pub's attribute rows;
- a script checks the pages' JSON-LD structured data.

This project models the core of that code in Dafny and proves properties of
the model. Each core source file has its own module:

- `ValueCodec` and `Apply`: the attribute value codec and the apply step of
  `web/src/lib/ai/apply.ts`.
- `AttributeRegistry` and `JobTypes`: the attribute catalogue and the job
  types.
- `Jobs` and `Worker`: the enqueue route and the job runner.
- `Queries`: the Supabase query helpers.
- `LocalityResults`, `LocalityFilters` and `Sorting`: the locality results
  list and its filter URL parameters.
- `OperatingHours`: the opening-hours card.
- `Ratings`: the rating formatters.
- `Votes`, `VotingPanel` and `VoteChips`: the vote fallback and backend, the
  voting panel and the vote chips.
- `Claims`: the claims endpoint.
- `CsvIngest`: the CSV ingest script.
- `PubImport`: the import script.
- `SchemaValidation`: the schema checker.

`Text`, `JsonValue` and `Wrappers` hold the string, JSON-value and
option/result helpers they share.

Pure code is modelled as functions and lemmas. Loops become methods with
invariants, each proved against a specifying function. State that the source
updates in place becomes a class: the apply store, the job queue, the vote
table, the claims table, the URL parameter list, the voting panel and the
vote chips. Each class method is specified by an outcome function of the
old state. The database, the network, the clock, random tokens, regular
expressions, `JSON.parse` and locale formatting are parameters of the
functions that use them.

## Model

| member | source | states |
|---|---|---|
| ValueCodec.CleanTags | web/src/lib/ai/apply.ts:158-161 | every tag kept is trimmed and non-empty, and there are no more tags than input pieces |
| ValueCodec.CleanTagsOfClean | web/src/lib/ai/apply.ts:153 | tags that are already trimmed and non-empty pass through unchanged |
| ValueCodec.NormaliseBoolean | web/src/lib/ai/apply.ts:88-102 | an accepted value fills exactly the boolean slot of a row |
| ValueCodec.NormaliseInteger | web/src/lib/ai/apply.ts:103-111 | an accepted value fills exactly the integer slot |
| ValueCodec.RangeRow | web/src/lib/ai/apply.ts:119-121 | a range with at least one bound fills only the range slot |
| ValueCodec.NormaliseRange | web/src/lib/ai/apply.ts:112-144 | an accepted range (object, array, number or "a-b" string) fills only the range slot |
| ValueCodec.NormaliseRating | web/src/lib/ai/apply.ts:145-150 | an accepted value fills exactly the rating slot |
| ValueCodec.NormaliseTags | web/src/lib/ai/apply.ts:151-166 | an accepted array or comma list fills exactly the tag slot |
| ValueCodec.NormaliseText | web/src/lib/ai/apply.ts:167-172 | an accepted value fills exactly the text slot |
| ValueCodec.NormaliseSchedule | web/src/lib/ai/apply.ts:173-179 | an accepted object fills exactly the schedule slot |
| ValueCodec.NormaliseInferred | web/src/lib/ai/apply.ts:184-202 | under an unknown data type an accepted value fills exactly one slot |
| ValueCodec.Normalise | web/src/lib/ai/apply.ts:75-203 | whatever the data type, an accepted value yields a well-formed row with one filled slot |
| ValueCodec.Denormalise | web/src/lib/ai/apply.ts:23-39 | the decoder as written, used by the apply step; `DecodersNonNull`, `IntegerRoundTrip`, `DeclaredRoundTripAsWritten` and `InferredRoundTrip` state what it gives back, `HalfOpenRangeNotInverted` where it fails |
| ValueCodec.DenormaliseBounds | web/src/lib/ai/apply.ts:28-35 | corrected half of the apply.ts:28-35 finding: a decoder that keeps which bound of a range is set, and agrees with the decoder as written on every row that is not a one-sided range |
| ValueCodec.BooleanAccepts | web/src/lib/ai/apply.ts:88-102 | a boolean attribute accepts a boolean or exactly the eight words after trimming and lower-casing, and maps the true words to true |
| ValueCodec.WordsDisjoint | web/src/lib/ai/apply.ts:94-98 | no word is both a true word and a false word |
| ValueCodec.IntegerRounds | web/src/lib/ai/apply.ts:103-111 | an integer attribute accepts exactly numbers and non-blank numeric strings, and stores the rounded number |
| ValueCodec.RatingKeepsNumber | web/src/lib/ai/apply.ts:145-150 | a rating stores any number unchanged and rejects everything else |
| ValueCodec.TextTrims | web/src/lib/ai/apply.ts:167-172 | a text attribute accepts exactly non-blank strings and stores them trimmed |
| ValueCodec.RangeBoundsRounded | web/src/lib/ai/apply.ts:112-144 | an accepted range has at least one bound and every bound is a whole number |
| ValueCodec.RangeFromObject | web/src/lib/ai/apply.ts:113-121 | an object with numeric min and max is stored with both bounds rounded |
| ValueCodec.RangeAliases | web/src/lib/ai/apply.ts:115-116 | "from" and "end" are read when "min" and "max" are missing |
| ValueCodec.InferredNumber | web/src/lib/ai/apply.ts:187-189 | under an unknown type a number is stored unrounded as both bounds |
| ValueCodec.DecodersNonNull | web/src/lib/ai/apply.ts:23-39 | both decoders give a non-null value for every well-formed row |
| ValueCodec.DeclaredRoundTrip | web/src/lib/ai/apply.ts:28-35 | corrected half of the apply.ts:28-35 finding: for every declared type, decoding an accepted row with the corrected decoder and normalising it again gives back the same row |
| ValueCodec.DeclaredRoundTripAsWritten | web/src/lib/ai/apply.ts:231-237 | for every declared type, decoding an accepted row that is not a one-sided range with the decoder as written and normalising it again gives back the same row |
| ValueCodec.RangeRoundTrip | web/src/lib/ai/apply.ts:28-35 | corrected half of the apply.ts:28-35 finding: the corrected decoder's form of any range of whole bounds normalises back to that range |
| ValueCodec.TagsRoundTrip | web/src/lib/ai/apply.ts:152-155 | a decoded tag array normalises back to the same tags |
| ValueCodec.IntegerRoundTrip | web/src/lib/ai/apply.ts:103-111 | an integer row decoded by the decoder as written normalises back to the same row |
| ValueCodec.InferredRoundTrip | web/src/lib/ai/apply.ts:184-202 | under an unknown type every accepted value except a bare number round-trips through the decoder as written |
| ValueCodec.InferredNumberBecomesSchedule | web/src/lib/ai/apply.ts:187-188 | under an unknown type a number does not round-trip: it comes back as a schedule object |
| ValueCodec.HalfOpenRangeNotInverted | web/src/lib/ai/apply.ts:28-35 | the decoder as written turns the one-sided range [5] into 5, which normalises to min = max = 5 |
| ValueCodec.HalfOpenRangesIndistinguishable | web/src/lib/ai/apply.ts:34 | the decoder as written gives a min-only and a max-only range the same value; the corrected decoder keeps them apart |
| Apply.IndexByCode | web/src/lib/ai/apply.ts:222-227 | the dictionary index has exactly the codes of the dictionary rows |
| Apply.IndexByCodeLast | web/src/lib/ai/apply.ts:222-227 | a code maps to the id and data type of the last row with that code |
| Apply.IndexById | web/src/lib/ai/apply.ts:222-227 | the id index has exactly the ids of the dictionary rows |
| Apply.IndexByIdLast | web/src/lib/ai/apply.ts:222-227 | an id maps to the code of the last row with that id |
| Apply.ChangeOf | web/src/lib/ai/apply.ts:231-251 | an entry yields a change exactly when its code is registered and its value normalises; the change carries the dictionary id, a well-formed row and that row's value under the decoder as written |
| Apply.Changes | web/src/lib/ai/apply.ts:231-251 | every change comes from an entry and every entry that yields a change contributes it |
| Apply.UpsertAll | web/src/lib/ai/apply.ts:281-287 | after the upsert the table holds the old keys plus one key per changed attribute of the pub |
| Apply.UpsertKeepsOthers | web/src/lib/ai/apply.ts:281-287 | rows of other pubs and of unchanged attributes are untouched |
| Apply.UpsertWritesLast | web/src/lib/ai/apply.ts:281-287 | a changed attribute holds the row of its last change, marked as generated and stamped with the run time |
| Apply.UpsertMarksSource | web/src/lib/ai/apply.ts:281-287 | every written row is marked as generated and stamped; every other row is unchanged |
| Apply.ExistingRows | web/src/lib/ai/apply.ts:258-266 | every snapshot row is a stored row of the pub for one of the changed ids |
| Apply.StoredAmongCons | web/src/lib/ai/apply.ts:258-266 | rows stored for the first changed id, followed by rows stored for the remaining ids, are all stored rows for the changed ids |
| Apply.ExistingRowsComplete | web/src/lib/ai/apply.ts:258-266 | every stored row of the pub for a changed id is in the snapshot |
| Apply.SnapshotOf | web/src/lib/ai/apply.ts:268-279 | the before snapshot has unique keys and is empty exactly when no row existed |
| Apply.AfterFields | web/src/lib/ai/apply.ts:289-299 | the after snapshot lists each change's code and decoded value, in order |
| Apply.BeforeNullIffNoPriorRows | web/src/lib/ai/apply.ts:289-299 | the history records a null `before` exactly when the pub had none of the changed attributes |
| Apply.NothingToWrite | web/src/lib/ai/apply.ts:211-253 | an empty attribute object, or one without an accepted change, succeeds and writes nothing |
| Apply.Store.constructor | web/src/lib/ai/apply.ts:7-17 | a store starts with the given tables and an empty history |
| Apply.Store.ChangedIds | web/src/lib/ai/apply.ts:255-256 | the ids of the changes, in change order |
| Apply.Store.ApplyDescription | web/src/lib/ai/apply.ts:41-73 | the load and update failures give their messages; on success the pub's description becomes the summary and one history entry is appended |
| Apply.Store.ApplyAttributes | web/src/lib/ai/apply.ts:205-300 | the values afterwards are the upsert of the accepted changes, and history grows by one entry exactly when something was written |
| Apply.Store.WriteChanges | web/src/lib/ai/apply.ts:253-300 | each failing step gives its message and leaves the values alone; on success the values are the upsert and the history entry records both snapshots |
| Apply.Store.BuildIndexes | web/src/lib/ai/apply.ts:222-227 | the loop builds exactly the two dictionary indexes |
| Apply.Store.BuildSnapshot | web/src/lib/ai/apply.ts:268-279 | the loop builds exactly the before snapshot |
| Apply.Store.ApplyEnrichment | web/src/lib/ai/apply.ts:302-315 | the result is read once into an enrichment, and the reply, descriptions, values and history afterwards are those of `Enrich` |
| Apply.Store.Enrich | web/src/lib/ai/apply.ts:308-314 | a string summary runs the description step, whose failure is the reply and stops before the attributes; otherwise present attributes run the attribute step; the descriptions become the summary exactly when its step succeeds, the values are the upsert of the accepted changes exactly when they are written, and the history grows by the description entry and then the attribute entry |
| Apply.Store.EnrichAttributes | web/src/lib/ai/apply.ts:312-314 | after a description step that did not fail, present attributes give `applyAttributes`' reply, values and history entry; absent attributes change nothing |
| Apply.EnrichmentOf | web/src/lib/ai/apply.ts:308-313 | the summary is kept exactly when it is a string, the highlights are always an array, and the attributes are read exactly when they are truthy |
| Apply.EnrichmentWritesIff | web/src/lib/ai/apply.ts:302-315 | values are written exactly when the enrichment succeeds with attributes that yield a change; a failed description writes no values and no attribute history; without a summary the descriptions and description history are untouched; without attributes the values and attribute history are |
| Apply.AttributesOutcome | web/src/lib/ai/apply.ts:211-300 | the reply of `applyAttributes`: no entries succeed at once, then a failed dictionary load fails, no accepted change succeeds, and otherwise a failed snapshot load or upsert fails with its message; `NothingToWrite`, `Apply.Store.ApplyAttributes` and `EnrichmentWritesIff` state what each case writes |
| Apply.EntriesOf | web/src/lib/ai/apply.ts:211 | the entries of a parsed object have unique keys |
| AttributeRegistry.BuildIndex | web/src/lib/data/attributes.ts:259-261 | the by-code map has exactly the registry's codes, and each key maps to a registry entry with that code |
| AttributeRegistry.Lookup | web/src/lib/data/attributes.ts:259-261 | a lookup finds a registry entry with the asked code, and finds nothing exactly when no entry has it |
| AttributeRegistry.EntryAt | web/src/lib/data/attributes.ts:21-257 | every position of the registry holds a code found at that position |
| AttributeRegistry.TierAt | web/src/lib/data/attributes.ts:21-257 | the first 12 entries are tier 1, the next 10 tier 2, the last 7 tier 3 |
| AttributeRegistry.CodesDistinct | web/src/lib/data/attributes.ts:21-257 | the registry has 29 entries with pairwise distinct codes |
| AttributeRegistry.BuildIndexSize | web/src/lib/data/attributes.ts:259-261 | with distinct codes the map has one key per entry |
| AttributeRegistry.ByCodeMatchesEntries | web/src/lib/data/attributes.ts:259-261 | the by-code map has 29 keys and each entry's code finds that entry |
| AttributeRegistry.ByCodeAt | web/src/lib/data/attributes.ts:259-261 | the code of the entry at any position finds that entry |
| AttributeRegistry.TiersGrouped | web/src/lib/data/attributes.ts:21-257 | the registry lists every tier 1 entry before every tier 2 entry, and tier 2 before tier 3 |
| AttributeRegistry.AdvertisedCodesRegistered | web/src/lib/ai/prompts.ts:33-48 | every code the generator is asked for, and every code of its dry-run answer, is registered |
| AttributeRegistry.PromptCodeFound | web/src/lib/ai/prompts.ts:33-48 | each requested code occurs in the registry |
| AttributeRegistry.DryRunCodeFound | web/src/lib/ai/generate.ts:145-147 | each dry-run code occurs in the registry |
| JobTypes.CoerceJobType | web/src/lib/ai/job-types.ts:16-18 | the result is always one of the six job types: the given value when it names one, otherwise the fallback |
| JobTypes.JobTypeNamesDistinct | web/src/lib/ai/job-types.ts:1-8 | the six job type names are distinct |
| JobTypes.IsJobTypeIff | web/src/lib/ai/job-types.ts:12-14 | `isJobType` holds of exactly the six job type strings |
| JobTypes.CoerceKeepsOrFallsBack | web/src/lib/ai/job-types.ts:16-18 | a recognised job type is kept and anything else gives the fallback |
| JobTypes.CoerceDefault | web/src/lib/ai/job-types.ts:16 | with the default fallback a missing or non-string value becomes `full_enrichment` |
| JobTypes.CoerceIdempotent | web/src/lib/ai/job-types.ts:16-18 | coercing a coerced job type again leaves it unchanged |
| Jobs.StatusNameInjective | web/scripts/run-ai-jobs.ts:53 | distinct job statuses are stored under distinct names |
| Jobs.Updated | web/scripts/run-ai-jobs.ts:56-60 | an updated row keeps its identity, payload and creation time, takes the new status and stamp, and takes each extra column only when the update names it |
| Jobs.ApplyUpdate | web/scripts/run-ai-jobs.ts:62-65 | every row with the id is updated and every other row is unchanged |
| Jobs.Ids | web/scripts/run-ai-jobs.ts:62-65 | the ids of the table, row by row |
| Jobs.UpdateKeepsIds | web/scripts/run-ai-jobs.ts:62-65 | an update keeps every row's id, pub, job type and creation time |
| Jobs.UpdateIgnoresStatus | web/scripts/run-ai-jobs.ts:62-65 | the update has no guard on the current status: even a final status is overwritten |
| Jobs.ParseRequest | web/src/app/api/ai/enqueue/route.ts:7-10 | a body is accepted exactly when it is an object whose `pubId` is a UUID string and whose `jobType` is absent or a string, and the request carries those values |
| Jobs.RequestedType | web/src/app/api/ai/enqueue/route.ts:23 | the queued job type is always one of the six |
| Jobs.PendingMatches | web/src/app/api/ai/enqueue/route.ts:25-31 | the matches are exactly the pending jobs of the pub and job type |
| Jobs.ExistingPending | web/src/app/api/ai/enqueue/route.ts:25-35 | an id is returned only for a pending job of the same pub and job type |
| Jobs.SuccessBody | web/src/app/api/ai/enqueue/route.ts:34 | the success body carries the id and the status "pending" |
| Jobs.JobQueue.constructor | web/src/app/api/ai/enqueue/route.ts:25-46 | a queue starts with the given table |
| Jobs.JobQueue.Enqueue | web/src/app/api/ai/enqueue/route.ts:12-61 | the reply and the new table are those of the enqueue outcome, and the table keeps distinct ids and known job types |
| Jobs.BadRequestWritesNothing | web/src/app/api/ai/enqueue/route.ts:19-21 | a body that fails the schema gives 400 and leaves the table unchanged |
| Jobs.NonUuidRejected | web/src/app/api/ai/enqueue/route.ts:8 | a `pubId` that is missing, not a string or not a UUID is rejected |
| Jobs.DefaultTypeQueued | web/src/app/api/ai/enqueue/route.ts:23 | a missing or unknown job type is queued as `full_enrichment` |
| Jobs.EnqueueOutcomes | web/src/app/api/ai/enqueue/route.ts:12-61 | only a queued reply changes the table, by appending one pending job with a null payload and a known type; a server error comes exactly from a body that cannot be read or a failed insert |
| Jobs.ExistingReturned | web/src/app/api/ai/enqueue/route.ts:33-35 | an existing pending job for the same pub and type is returned and nothing is inserted |
| Jobs.EnqueueIdempotent | web/src/app/api/ai/enqueue/route.ts:25-52 | the same request a second time returns the job the first one inserted and inserts nothing |
| Jobs.PendingMatchesAppend | web/src/app/api/ai/enqueue/route.ts:25-31 | appending a job adds it to the matches exactly when it matches |
| Jobs.EnqueueKeepsNoDuplicate | web/src/app/api/ai/enqueue/route.ts:25-46 | while lookups succeed, the route never creates a second pending job for a pub and job type |
| Jobs.FailedLookupDuplicates | web/src/app/api/ai/enqueue/route.ts:25-37 | a failed lookup is ignored, so the route inserts a duplicate pending job |
| Worker.BatchLimitDefault | web/scripts/run-ai-jobs.ts:22 | without the variable the batch limit is 5 |
| Worker.PendingJobs | web/scripts/run-ai-jobs.ts:40 | exactly the pending jobs, in table order |
| Worker.PendingBatch | web/scripts/run-ai-jobs.ts:36-49 | the batch holds the smaller of the limit and the number of pending jobs, all of them pending, ordered by creation time |
| Worker.OldestFirst | web/scripts/run-ai-jobs.ts:41-42 | a pending job left out of the batch is no older than any job in it |
| Worker.ErrorJson | web/scripts/run-ai-jobs.ts:236 | the error column holds the message under "message" |
| Worker.Mark | web/scripts/run-ai-jobs.ts:51-70 | a failed update changes nothing and throws the job's update error; otherwise every row with the id is updated |
| Worker.MarkJobStatus | web/scripts/run-ai-jobs.ts:51-70 | the table afterwards and the error thrown are those of `Mark` |
| Worker.ResponseValue | web/scripts/run-ai-jobs.ts:198 | the validated object is used when present and not null, else the parsed content or its parse error |
| Worker.SpreadEntries | web/scripts/run-ai-jobs.ts:199 | spreading copies an object's fields and nothing from a number, boolean or null |
| Worker.Spread | web/scripts/run-ai-jobs.ts:215 | a spread gives an object with unique keys |
| Worker.GenerationResult | web/scripts/run-ai-jobs.ts:195-224 | only description, attributes and full_enrichment have a generator |
| Worker.ProcessJob | web/scripts/run-ai-jobs.ts:178-241 | the table afterwards and the escaping error are those of `ProcessNext` |
| Worker.ProcessTouchesOnlyJob | web/scripts/run-ai-jobs.ts:178-241 | processing changes only rows with the job's id and keeps every row's identity |
| Worker.ProcessSettles | web/scripts/run-ai-jobs.ts:178-241 | without an escaping error the job's row ends awaiting review or failed |
| Worker.SuccessAwaitsReview | web/scripts/run-ai-jobs.ts:226-231 | a successful generation ends awaiting review with the result as output, a completion time and no error |
| Worker.MissingPubFails | web/scripts/run-ai-jobs.ts:181-185 | a missing pub ends the job failed with "Pub not found" |
| Worker.UnsupportedTypeFails | web/scripts/run-ai-jobs.ts:218-223 | a job type without a generator ends failed with "Unsupported job_type: " and the type |
| Worker.GenerationErrorFails | web/scripts/run-ai-jobs.ts:234-240 | an error thrown by a generator or a parse ends the job failed with its message |
| Worker.OutcomeUpdateErrorFails | web/scripts/run-ai-jobs.ts:228-240 | a failed outcome update is caught and the job ends failed with the update's error |
| Worker.PubLoadErrorLeavesProcessing | web/scripts/run-ai-jobs.ts:97-99 | a pub that cannot be loaded escapes the job's handler and leaves the job processing |
| Worker.FullEnrichmentPrecedence | web/scripts/run-ai-jobs.ts:215 | in `full_enrichment` a key of the attribute result overrides the same key of the description result |
| Worker.LookupFromEntries | web/scripts/run-ai-jobs.ts:215 | building an object from pairs keeps the last value given for each key |
| Worker.LookupSetOther | web/scripts/run-ai-jobs.ts:215 | setting one key leaves every other key's value unchanged |
| Worker.LookupAppend | web/scripts/run-ai-jobs.ts:215 | in a concatenation the right part's value for a key wins |
| Worker.RunBatch | web/scripts/run-ai-jobs.ts:250-252 | running a batch keeps the table's size |
| Worker.RunPendingJobs | web/scripts/run-ai-jobs.ts:243-258 | a fetch error changes nothing and is fatal; otherwise the table and fatal error are those of running the pending batch |
| Worker.RunBatchStep | web/scripts/run-ai-jobs.ts:250-252 | the run processes the first job, then the rest unless an error escaped |
| Worker.RunBatchSettles | web/scripts/run-ai-jobs.ts:243-253 | a batch that runs to the end leaves each of its jobs awaiting review or failed and every other row unchanged |
| Worker.FatalStopsRun | web/scripts/run-ai-jobs.ts:255-258 | an error escaping a job stops the run before the later jobs |
| Worker.WorkerValue | web/scripts/run-ai-jobs.ts:133-164 | the decoded value is a valid attribute value, and the display text is missing exactly when the value is null |
| Worker.WorkerIgnoresInt | web/scripts/run-ai-jobs.ts:136-164 | the worker never reads the integer slot, so an integer-only row decodes to null where the pub page shows the number |
| Worker.WorkerAgreesOnNormalRows | web/scripts/run-ai-jobs.ts:133-164 | on a row with one non-integer slot the worker and the pub page decode the same value |
| Worker.WorkerPriorityDiffers | web/scripts/run-ai-jobs.ts:139-157 | a row with tags and a rating shows the tags in the worker and the rating on the pub page |
| Worker.DecodeWorker | web/scripts/run-ai-jobs.ts:129-172 | a row without a code is dropped; otherwise label and type default to the code and "text" |
| Worker.WorkerAttributes | web/scripts/run-ai-jobs.ts:128-174 | the list holds the decoded rows with a code, and all of them when every row has one |
| Jobs.EnqueueNext | web/src/app/api/ai/enqueue/route.ts:12-61 | the reply and table of an enqueue request; `EnqueueOutcomes`, `ExistingReturned`, `EnqueueIdempotent` and `BadRequestWritesNothing` state its cases |
| Worker.ProcessNext | web/scripts/run-ai-jobs.ts:178-241 | the table and escaping error after one job; `ProcessSettles`, `ProcessTouchesOnlyJob` and the failure lemmas state its cases |
| Queries.RangeDisplay | web/src/lib/supabase/queries.ts:517-525 | corrected half of the queries.ts:521 finding: the display starts with the lower bound's text and goes on past it exactly when the bounds differ |
| Queries.DetailRangeDisplayDiffers | web/src/lib/supabase/queries.ts:521 | the page's display as written differs from the intended one exactly when the bounds differ and one of them is zero |
| Queries.DetailRangeDisplay | web/src/lib/supabase/queries.ts:517-525 | the page's range display as written, used by `DetailValue`: it agrees with the intended one whenever neither bound is zero |
| Queries.ZeroBoundHidesRange | web/src/lib/supabase/queries.ts:521 | a range from 0 to 1500 shows as "0" on the pub page, where the intended display is "0 – 1500" |
| Queries.DetailValue | web/src/lib/supabase/queries.ts:506-535 | the decoded value is a valid attribute value, and the display text is missing exactly when the value is null |
| Queries.SerialiseAttributeValue | web/src/lib/supabase/queries.ts:167-182 | the text is missing exactly for null and an empty list; a string is itself; a boolean is "Yes" or "No" |
| Queries.SerialiseAgreesWithDisplay | web/src/lib/supabase/queries.ts:508-514 | for a boolean or rating row the serialised fallback equals the decoder's own display |
| Queries.DecodeDetail | web/src/lib/supabase/queries.ts:501-543 | a row without a code is dropped; label and type default to the code and "text"; the display is missing exactly when the value is null |
| Queries.DetailAttributes | web/src/lib/supabase/queries.ts:500-545 | every listed attribute is a decoded row with a code, and there are no more than rows |
| Queries.DetailAttributesComplete | web/src/lib/supabase/queries.ts:500-545 | every row with a code contributes its decoded entry |
| Queries.DetailOfNormalRow | web/src/lib/supabase/queries.ts:506-535 | on a well-formed row the page shows the codec's decoded value, except that a range shows its lower or only bound and a schedule its JSON text |
| Queries.EscapeLike | web/src/lib/supabase/queries.ts:196 | escaping never shortens the text |
| Queries.Literals | web/src/lib/supabase/queries.ts:196-197 | each character of the text read as a literal |
| Queries.EscapeLikeMissesBackslash | web/src/lib/supabase/queries.ts:196 | the search text `a\%` escapes to a pattern whose `%` is still a wildcard |
| Queries.EscapeLikeFixed | web/src/lib/supabase/queries.ts:196 | the corrected escaping makes PostgreSQL read the pattern as exactly the text's characters |
| Queries.EscapeLikeFixedAgrees | web/src/lib/supabase/queries.ts:196 | on a text without a backslash the corrected escaping is the original one |
| Queries.OrderClause | web/src/lib/supabase/queries.ts:216-234 | each sort orders by one column with nulls last |
| Queries.SearchClauses | web/src/lib/supabase/queries.ts:193-198 | there is a search clause exactly when the search text is not blank |
| Queries.When | web/src/lib/supabase/queries.ts:200-214 | a conditional filter adds its clause exactly when the condition holds |
| Queries.ApplyFiltersToQuery | web/src/lib/supabase/queries.ts:184-237 | no options add nothing; otherwise the clauses are the filters followed by the ordering |
| Queries.FilterMember | web/src/lib/supabase/queries.ts:193-214 | every filter clause is the search clause or a bound or flag that the options set |
| Queries.QueryOrderLast | web/src/lib/supabase/queries.ts:216-234 | there is exactly one ordering clause and it comes last |
| Queries.QuerySearchFirst | web/src/lib/supabase/queries.ts:193-198 | a search clause is present exactly for a non-blank search text, and then it comes first |
| Queries.QueryMinCost | web/src/lib/supabase/queries.ts:200-202 | the lower cost bound adds its clause exactly when it is given |
| Queries.QueryMaxCost | web/src/lib/supabase/queries.ts:203-205 | the upper cost bound adds its clause exactly when it is given |
| Queries.QueryFlag | web/src/lib/supabase/queries.ts:206-214 | each amenity flag adds its clause exactly when it is set |
| Queries.OrFilterText | web/src/lib/supabase/queries.ts:196-197 | the `or` filter text as the query builds it, with "%" and "_" escaped; `OrFilterTextAgrees` and `OrFilterMissesBackslash` state where it is and is not literal |
| Queries.OrFilterTextAgrees | web/src/lib/supabase/queries.ts:196-197 | on a search text without a backslash the query's filter text is the intended one |
| Queries.OrFilterMissesBackslash | web/src/lib/supabase/queries.ts:196-197 | the search text `a\%` gives a filter whose patterns do not read as the text's own characters |
| Queries.SearchIsLiteral | web/src/lib/supabase/queries.ts:197 | corrected half of the queries.ts:196 finding: with backslashes escaped too, both patterns of the filter match the search text literally, wildcard characters included |
| Queries.LocalityName | web/src/lib/supabase/queries.ts:314-317 | the name the sample fallback gives a slug; `LocalityNameChars` states it character by character |
| Queries.Capitalize | web/src/lib/supabase/queries.ts:316 | capitalising keeps the length |
| Queries.CapitalizeAll | web/src/lib/supabase/queries.ts:316 | every segment capitalised, in order |
| Queries.NameChars | web/src/lib/supabase/queries.ts:314-317 | the character-wise name keeps the length |
| Queries.LocalityNameChars | web/src/lib/supabase/queries.ts:314-317 | split, capitalise and join equals turning hyphens into spaces and upper-casing the first character and each character after a hyphen |
| Queries.CapitalizeWithoutHyphen | web/src/lib/supabase/queries.ts:316 | within one segment capitalising is the character-wise rule |
| Queries.JoinCapitalized | web/src/lib/supabase/queries.ts:314-317 | joining capitalised segments splits at the first segment |
| Queries.NameCharsSplit | web/src/lib/supabase/queries.ts:314-317 | at the first hyphen the character-wise rule splits into the segment's and the rest's |
| Queries.FirstSlugs | web/src/lib/supabase/queries.ts:310-327 | the slugs are distinct, and are exactly the non-empty locality slugs of the sample rows |
| Queries.SampleLocalities | web/src/lib/supabase/queries.ts:308-327 | one locality per distinct non-empty slug, in order of first appearance |
| Queries.SliceTo | web/src/lib/supabase/queries.ts:449 | a slice is a prefix, as long as the end allows |
| Queries.SamplePage | web/src/lib/supabase/queries.ts:364-450 | a sample page holds at most the limit |
| Queries.FilterLocality | web/src/lib/supabase/queries.ts:381-382 | exactly the sample rows of the locality, in their order |
| Queries.SamplePageEntries | web/src/lib/supabase/queries.ts:381-449 | every pub on a sample page is a row of that locality that passes the filters, carries the page's locality, and the page is ordered by the comparator |
| Queries.SampleEntryAt | web/src/lib/supabase/queries.ts:381-449 | the pub made from the k-th passing row of a locality is a row of that locality that passes the filters, with its index as page position and the locality attached |
| Queries.PageIdIndex | web/src/lib/supabase/queries.ts:409 | the index can be read back from a page id |
| Queries.NewOnes | web/src/lib/supabase/queries.ts:663 | exactly the page's pubs whose slug was not gathered before |
| Queries.SearchPubs | web/src/lib/supabase/queries.ts:637-668 | a blank query finds nothing; with a locality the result is that locality's page; otherwise it is the aggregated pages cut to the limit, and never longer than the limit |
| Queries.AggregateLoop | web/src/lib/supabase/queries.ts:654-665 | the locality loop gathers exactly what the specified aggregation over all localities gathers, stopping once the limit is reached |
| Queries.AggregateDistinct | web/src/lib/supabase/queries.ts:654-665 | the results have distinct slugs when every page does |
| Queries.NewOnesDistinct | web/src/lib/supabase/queries.ts:663 | filtering a page with distinct slugs keeps them distinct |
| Queries.RepeatedSlugSurvives | web/src/lib/supabase/queries.ts:663 | a page that repeats a slug passes the repetition into the results |
| Queries.SliceDistinct | web/src/lib/supabase/queries.ts:667 | cutting distinct results keeps them distinct |
| Queries.TrueCodes | web/src/lib/supabase/queries.ts:268-274 | exactly the codes of rows whose boolean value is true |
| Queries.AttributeCodes | web/src/lib/supabase/queries.ts:268-274 | the loop collects exactly the codes of rows whose boolean value is true, in row order |
| LocalityResults.ParseBudget | web/src/components/search/locality-results.tsx:18-33 | "under1500" has only the upper bound 1500, "1500-2500" the bounds 1500 and 2500, "2500-4000" the bounds 2500 and 4000, "4000plus" only the lower bound 4000; every other value, a missing one included, is "any" with no bounds |
| LocalityResults.ParseBudgetName | web/src/components/search/locality-results.tsx:18-33 | parsing a bucket's own name gives that bucket back |
| LocalityResults.ParseSort | web/src/components/search/locality-results.tsx:35-42 | any sort other than "rating_desc" comes only from its own name |
| LocalityResults.ParseSortName | web/src/components/search/locality-results.tsx:35-42 | parsing a sort's own name gives that sort back |
| LocalityResults.FilterPubs | web/src/components/search/locality-results.tsx:62-101 | the kept pubs are exactly those that pass all six filters, in their order |
| LocalityResults.FilterWithoutCriteria | web/src/components/search/locality-results.tsx:80-100 | without criteria every pub is kept |
| LocalityResults.NoCostDropped | web/src/components/search/locality-results.tsx:86-97 | a pub without any cost is dropped as soon as either budget bound is set |
| LocalityResults.ComparatorIsKeyDifference | web/src/components/search/locality-results.tsx:44-60 | each comparator is the difference of an ascending sort key |
| LocalityResults.SortPubs | web/src/components/search/locality-results.tsx:44-60 | the result is a permutation of the pubs in which the comparator never puts a later pub strictly before an earlier one |
| LocalityResults.GetParam | web/src/components/search/locality-results.tsx:110-117 | a found value is stored under the key, and nothing is found only when no entry has the key |
| LocalityResults.StateOf | web/src/components/search/locality-results.tsx:111-119 | each amenity flag is on exactly when its parameter is "true" |
| LocalityResults.VisiblePubs | web/src/components/search/locality-results.tsx:121-140 | the shown pubs are exactly those that pass the page's criteria, none more often than in the input |
| LocalityResults.SubsequenceMultiset | web/src/components/search/locality-results.tsx:80-100 | a filtered list takes no pub more often than the input has it |
| LocalityResults.AppliedFilters | web/src/components/search/locality-results.tsx:142-152 | at most four labels, none exactly when no filter is active, the budget label first, and each amenity label present exactly when its flag is on |
| LocalityFilters.Without | web/src/components/search/locality-filters.tsx:43 | deleting a key keeps exactly the entries with other keys |
| LocalityFilters.WithoutCommutes | web/src/components/search/locality-filters.tsx:56 | deleting two keys gives the same result in either order |
| LocalityFilters.SetEntry | web/src/components/search/locality-filters.tsx:45 | setting a key leaves the other entries alone and leaves exactly one entry for the key, holding the value |
| LocalityFilters.WithoutCount | web/src/components/search/locality-filters.tsx:43 | after a delete no entry has the key |
| LocalityFilters.WithoutIdempotent | web/src/components/search/locality-filters.tsx:43 | deleting a key twice is deleting it once |
| LocalityFilters.QueryString | web/src/components/search/locality-filters.tsx:49 | the query string is empty exactly when there are no parameters |
| LocalityFilters.Target | web/src/components/search/locality-filters.tsx:49-50 | the target is the bare path without parameters, else the path, "?" and the query string |
| LocalityFilters.ParamList.constructor | web/src/components/search/locality-filters.tsx:41 | the copy starts with the current parameters |
| LocalityFilters.ParamList.Delete | web/src/components/search/locality-filters.tsx:43 | the entries afterwards are those without the key |
| LocalityFilters.ParamList.Set | web/src/components/search/locality-filters.tsx:45 | the entries afterwards are those of setting the key |
| LocalityFilters.UpdateParam | web/src/components/search/locality-filters.tsx:40-52 | null, false and "any" remove the key; any other value becomes its only entry; every other key is untouched, and the page goes to the matching target |
| LocalityFilters.Cleared | web/src/components/search/locality-filters.tsx:56 | exactly the entries whose key is not one of the listed keys |
| LocalityFilters.HandleClear | web/src/components/search/locality-filters.tsx:54-61 | exactly the budget, wifi, valet, redeemable and sort entries are removed, and the page goes to the matching target |
| LocalityFilters.ClearKeepsOthers | web/src/components/search/locality-filters.tsx:54-61 | the clear button keeps the search text and every other parameter outside the five |
| LocalityFilters.GetParamCleared | web/src/components/search/locality-filters.tsx:56 | removing listed keys leaves the lookup of any other key unchanged |
| LocalityFilters.GetParamWithout | web/src/components/search/locality-filters.tsx:43 | deleting one key leaves the lookup of another unchanged |
| Sorting.InsertBy | web/src/components/search/locality-results.tsx:44-60 | inserting into a sorted list keeps it sorted and adds exactly the one element |
| Sorting.InsertedAboveHead | web/src/components/search/locality-results.tsx:44-60 | everything inserted after the head has a key at least the head's |
| Sorting.SortBy | web/src/components/search/locality-results.tsx:44-60 | the result is sorted by the key and is a permutation of the input |
| Sorting.SortedPrefixBound | web/scripts/run-ai-jobs.ts:41-42 | an element after the first k of a sorted list has a key no smaller than theirs |
| Sorting.SubsequenceMembers | web/src/components/search/locality-results.tsx:80-100 | a subsequence is no longer than the whole and all its elements are in the whole |
| Sorting.InsertByWithKey | web/src/components/search/locality-results.tsx:44-60 | inserting an element puts it in front of every element with the same key and leaves their order alone |
| Sorting.SortByStable | web/src/components/search/locality-results.tsx:44-60 | the sort is stable: for every key, the elements with that key come out in the order they went in |
| Text.Lower | web/src/lib/ai/apply.ts:93 | lower-casing keeps the length and maps each character |
| Text.Upper | web/src/lib/supabase/queries.ts:316 | upper-casing keeps the length and maps each character |
| Text.TrimIsTrimmed | web/src/lib/ai/apply.ts:168-169 | a trimmed string has no whitespace at either end, and trimming again changes nothing |
| Text.TrimOfTrimmed | web/src/lib/ai/apply.ts:168-169 | trimming a string without outer whitespace changes nothing |
| Text.TrimEmptyIff | web/src/lib/ai/apply.ts:107 | a string trims to nothing exactly when it is all whitespace |
| Text.IndexOf | web/src/lib/supabase/queries.ts:314-317 | the first position of the character, or the length when it is absent |
| Text.Split | web/src/lib/ai/apply.ts:158-159 | splitting gives at least one piece and no piece holds the separator |
| Text.JoinSplit | web/src/lib/ai/apply.ts:158-159 | joining the pieces of a split with the separator gives back the string |
| Text.NatToString | web/src/lib/supabase/queries.ts:409 | a number's decimal text is digits without a leading zero |
| Text.ParseNatToString | web/src/lib/supabase/queries.ts:409 | reading a number's decimal text back gives the number |
| Text.JsRoundWhole | web/src/lib/ai/apply.ts:105 | rounding a whole number gives it back |
| Text.JsNumberOfDigitString | web/src/lib/ai/apply.ts:107-108 | a non-empty digit string is read as its decimal value |
| Text.JsNumberOfDigits | web/src/lib/ai/apply.ts:107-108 | `Number` reads a number's decimal text back as the number |
| Text.JsNumberOfPadded | web/src/components/pubs/operating-hours-card.tsx:24-27 | a zero-padded two-digit text reads as its number |
| JsonValue.Get | web/src/lib/ai/apply.ts:114-116 | a found property is one of the object's fields, and nothing is found only when no field has the key |
| JsonValue.Lookup | web/src/lib/ai/apply.ts:114-116 | a found value is stored under the key, and nothing is found only when no field has it |
| JsonValue.LookupLast | web/src/lib/ai/apply.ts:114-116 | a key written more than once reads as its last value, as a JavaScript object built from the fields would |
| JsonValue.EscapeChar | web/src/lib/ai/apply.ts:20 | a character stands for itself exactly when it is not a quote, a backslash or a control character |
| JsonValue.Quote | web/src/lib/ai/apply.ts:20 | a JSON string literal starts and ends with a quote |
| JsonValue.Strings | web/src/lib/ai/apply.ts:155 | a list of strings as a JSON array of the same strings |
| JsonValue.GetOfPair | web/src/lib/ai/apply.ts:113-116 | looking up a property of a two-field object finds the matching field |
| JsonValue.KeyIndex | web/src/lib/ai/apply.ts:276 | the first position of the key, or the number of fields |
| JsonValue.SetField | web/src/lib/ai/apply.ts:276 | assigning a property keeps the keys unique, replaces an existing key in place, appends a new one, and the property then holds the value |
| JsonValue.LookupUnique | web/src/lib/ai/apply.ts:276 | with unique keys the lookup finds the one field with the key |
| JsonValue.FromEntries | web/src/lib/ai/apply.ts:289 | building an object from pairs gives unique keys and no more fields than pairs |
| JsonValue.FromEntriesOfUnique | web/src/lib/ai/apply.ts:289 | pairs with distinct keys become the object as they are |
| OperatingHours.Hour12 | web/src/components/pubs/operating-hours-card.tsx:34 | the dial hour is between 1 and 12 and agrees with the hour modulo 12 |
| OperatingHours.JsRemNat | web/src/components/pubs/operating-hours-card.tsx:31-32 | JavaScript's remainder of non-negative whole numbers is the integer remainder |
| OperatingHours.NumberTextNat | web/src/components/pubs/operating-hours-card.tsx:35 | a whole non-negative number prints as its digits |
| OperatingHours.ClockParts | web/src/components/pubs/operating-hours-card.tsx:30-36 | for a minute of the day the hour, minute and dial hour are the integer ones |
| OperatingHours.ClockOfMinute | web/src/components/pubs/operating-hours-card.tsx:30-36 | the clock string of a minute of the day, spelled out in integers |
| OperatingHours.SplitTwo | web/src/components/pubs/operating-hours-card.tsx:23 | two space-free pieces joined by one space split back into those pieces |
| OperatingHours.ClockValueOfParts | web/src/components/pubs/operating-hours-card.tsx:24-27 | "a:b" is read from the numbers of its hour and minute texts |
| OperatingHours.ClockSplit | web/src/components/pubs/operating-hours-card.tsx:24 | "h:mm" splits at its colon |
| OperatingHours.ClockMinutesOf | web/src/components/pubs/operating-hours-card.tsx:24-27 | the digits of a dial hour and padded minutes read back as minutes since midnight |
| OperatingHours.MeridiemSplit | web/src/components/pubs/operating-hours-card.tsx:23-27 | a clock text, a space and "AM" or "PM" is read as the clock with that meridiem |
| OperatingHours.DialOfMinute | web/src/components/pubs/operating-hours-card.tsx:25-27 | the dial hour, minutes and meridiem of a minute of the day add back up to it |
| OperatingHours.ClockRoundTrip | web/src/components/pubs/operating-hours-card.tsx:21-36 | reading back the clock string of any minute of the day gives that minute |
| OperatingHours.ClockShape | web/src/components/pubs/operating-hours-card.tsx:30-36 | the displayed clock has an hour from 1 to 12, two-digit minutes, and "AM" exactly before noon |
| OperatingHours.EmptyRangeNeverOpen | web/src/components/pubs/operating-hours-card.tsx:38-44 | a range that opens when it closes is never open |
| OperatingHours.WrapIsComplement | web/src/components/pubs/operating-hours-card.tsx:38-44 | a range that wraps midnight covers exactly the times the range from its close to its open leaves out |
| OperatingHours.DefaultHours | web/src/components/pubs/operating-hours-card.tsx:62-73 | the default schedule has one range on each of the seven days |
| OperatingHours.FirstCovering | web/src/components/pubs/operating-hours-card.tsx:100-108 | the first of today's ranges that contains now, or none |
| OperatingHours.FirstLater | web/src/components/pubs/operating-hours-card.tsx:112-121 | the first of today's ranges that is not open and opens later today, or none |
| OperatingHours.NextDayOffset | web/src/components/pubs/operating-hours-card.tsx:126-135 | the nearest later day within the week that has a range, or none |
| OperatingHours.ComputeStatus | web/src/components/pubs/operating-hours-card.tsx:83-136 | the badge and next change are those of `Status` with the card's clock reader and the default schedule when none is given |
| OperatingHours.StatusLoops | web/src/components/pubs/operating-hours-card.tsx:97-136 | the three loops compute `Status` for any clock reader |
| OperatingHours.OpenIffCovered | web/src/components/pubs/operating-hours-card.tsx:100-108 | the pub shows OPEN exactly when one of today's ranges contains now |
| OperatingHours.OpenNextIsClose | web/src/components/pubs/operating-hours-card.tsx:103-106 | when open, the next change is the closing time of the first range that contains now |
| OperatingHours.ClosedNextIsOpening | web/src/components/pubs/operating-hours-card.tsx:110-136 | when closed, the next change is an opening later today if one exists, else the first range of the nearest day ahead shifted by whole days, else none |
| OperatingHours.DisplayDropsDays | web/src/components/pubs/operating-hours-card.tsx:139-143 | an opening some days ahead is shown at its time of day |
| OperatingHours.Buckets | web/src/components/pubs/operating-hours-card.tsx:146-158 | the 96 quarter-hour buckets are set exactly where some range of today contains the bucket's first minute |
| OperatingHours.FillBuckets | web/src/components/pubs/operating-hours-card.tsx:147-157 | the nested loops set exactly those buckets, for any clock reader |
| OperatingHours.ParseTimeToMinutes | web/src/components/pubs/operating-hours-card.tsx:21-28 | `parseTimeToMinutes`; `MeridiemSplit` and `ClockRoundTrip` state how it reads a clock text |
| OperatingHours.MinutesToClock | web/src/components/pubs/operating-hours-card.tsx:30-36 | `minutesToClock`; `ClockOfMinute`, `ClockShape` and `ClockRoundTrip` state its text |
| OperatingHours.Status | web/src/components/pubs/operating-hours-card.tsx:83-136 | the card's badge and next change; `OpenIffCovered`, `OpenNextIsClose` and `ClosedNextIsOpening` state them |
| CsvIngest.DigitsOf | scripts/ingest_csv.py:91 | the result holds only digits and is no longer than the input |
| CsvIngest.NormalisePhone | scripts/ingest_csv.py:88-98 | no number exactly when the input has no digit; otherwise the input's own digits behind "+91" when there are exactly ten of them, and behind a bare "+" for every other count, a twelve-digit number starting with 91 included |
| CsvIngest.DigitsOfAppend | scripts/ingest_csv.py:91 | stripping non-digits distributes over concatenation |
| CsvIngest.DigitsOfDigits | scripts/ingest_csv.py:91 | stripping non-digits leaves an all-digit string unchanged |
| CsvIngest.DigitsAfterPlus | scripts/ingest_csv.py:91-98 | the digits of a normalised number are the digits after its "+" |
| CsvIngest.PhoneIdempotent | scripts/ingest_csv.py:88-98 | normalising a normalised phone number gives the same number |
| CsvIngest.PhoneCountryCodeAgnostic | scripts/ingest_csv.py:94-97 | a ten-digit local number and the same number written with "+91" both normalise to "+91" and the ten digits |
| CsvIngest.LocalPhone | scripts/ingest_csv.py:96-97 | a ten-digit local number normalises to "+91" followed by it |
| CsvIngest.PrefixedPhone | scripts/ingest_csv.py:91-97 | a ten-digit number written with "+91" normalises to itself |
| CsvIngest.PlusDigits | scripts/ingest_csv.py:91 | stripping non-digits from "+" followed by digits gives back the digits |
| CsvIngest.KeepSlugChars | scripts/ingest_csv.py:103 | what is kept is only lower-case letters, digits, spaces and hyphens |
| CsvIngest.DropSeparators | scripts/ingest_csv.py:104 | drops a leading run of spaces, underscores and hyphens: the result is a suffix of the input that does not start with one |
| CsvIngest.StripLeadingHyphens | scripts/ingest_csv.py:104 | the result is a suffix of the input that does not start with a hyphen |
| CsvIngest.StripTrailingHyphens | scripts/ingest_csv.py:104 | the result is a prefix of the input that does not end with a hyphen |
| CsvIngest.CollapseIsSlugBody | scripts/ingest_csv.py:103-104 | collapsing separator runs in kept characters leaves only a-z, 0-9 and hyphens with no doubled hyphen, and a leading hyphen only where the input starts with a separator |
| CsvIngest.ConsSlugBody | scripts/ingest_csv.py:103-104 | a kept character in front of slug text stays slug text, unless a hyphen would come before a hyphen |
| CsvIngest.StripIsSlug | scripts/ingest_csv.py:104 | stripping hyphens off such text leaves a slug: no leading, trailing or doubled hyphen |
| CsvIngest.SlugifyIsSlug | scripts/ingest_csv.py:101-105 | every slug holds only a-z, 0-9 and hyphens and has no leading, trailing or doubled hyphen |
| CsvIngest.SlugifyOfSlug | scripts/ingest_csv.py:101-105 | a slug is left as it is |
| CsvIngest.SlugifyIdempotent | scripts/ingest_csv.py:101-105 | slugifying twice gives the same as slugifying once |
| CsvIngest.RoundHalfEven | scripts/ingest_csv.py:112 | Python's round: the result is within one half of the argument |
| CsvIngest.ParseFloat | scripts/ingest_csv.py:108-114 | a number exactly when the cell is present, non-empty and parses; then it is within 0.05 of the parsed value |
| CsvIngest.ParseIntOfDigits | scripts/ingest_csv.py:117-123 | the decimal digits of a count parse back to that count |
| CsvIngest.ParseIntRejects | scripts/ingest_csv.py:117-123 | a missing cell, an empty cell or text that does not parse gives no number, for both parse_int and parse_float |
| CsvIngest.ClassifyPub | scripts/ingest_csv.py:148-157 | a row is kept exactly when its name and description mention a positive keyword or mention no negative keyword |
| CsvIngest.PositiveNameKeeps | scripts/ingest_csv.py:149-154 | a name mentioning a positive keyword keeps the row whatever the description says |
| CsvIngest.PassesReviewFilters | scripts/ingest_csv.py:160-169 | a row passes only when both its review count and its rating parse |
| CsvIngest.ThresholdsMonotone | scripts/ingest_csv.py:165-169 | more reviews and a higher rating never make a passing row fail |
| CsvIngest.DefaultThresholds | scripts/ingest_csv.py:77-81 | with the default thresholds: 50 reviews pass at any rating, a rating of 3.5 passes at any count, fewer than 10 reviews below 3.5 fail, fewer than 50 below 3.0 fail |
| CsvIngest.IsValidCity | scripts/ingest_csv.py:172-175 | a valid row's lower-cased city is bengaluru, bangalore or bengalooru |
| CsvIngest.MissingCountryDefaults | scripts/ingest_csv.py:174 | a row without a country is judged by its city alone when the configured country is lower-case |
| CsvIngest.UpperCountryMatchesNothing | scripts/ingest_csv.py:174-175 | a configured country with an upper-case letter matches no row |
| CsvIngest.ValidMapsUrl | scripts/ingest_csv.py:178-186 | a valid link is non-empty and its parsed scheme is https |
| CsvIngest.Values | scripts/ingest_csv.py:204 | the dictionary's values, one per key, in key insertion order |
| CsvIngest.DedupeStepInvariant | scripts/ingest_csv.py:191-203 | one turn of the loop keeps the dictionary's invariant: keys listed once, each row under its own key, every row seen has its key kept, only seen rows kept, and no row seen outscores the kept row of its key |
| CsvIngest.StepListed | scripts/ingest_csv.py:196-203 | one turn keeps the keys listed once each and exactly the dictionary's keys |
| CsvIngest.StepCovered | scripts/ingest_csv.py:196-203 | after one turn every row seen has its key in the dictionary |
| CsvIngest.StepKeptFrom | scripts/ingest_csv.py:196-203 | after one turn every kept row is one of the rows seen |
| CsvIngest.StepBest | scripts/ingest_csv.py:200-203 | after one turn no row seen has more reviews than the row kept for its key |
| CsvIngest.BestAfterKeep | scripts/ingest_csv.py:200-203 | when the new row scores no higher than the row kept for its key, every row seen still scores no higher than its key's kept row |
| CsvIngest.BestAfterReplace | scripts/ingest_csv.py:200-203 | when the new row outscores the kept row (or its key is new) and takes its place, every row seen scores no higher than its key's kept row |
| CsvIngest.DedupeFoldInvariant | scripts/ingest_csv.py:189-204 | the invariant holds after any number of rows |
| CsvIngest.DedupeLoop | scripts/ingest_csv.py:190-204 | the loop's dictionary and its values agree with the fold over the rows |
| CsvIngest.DedupeRows | scripts/ingest_csv.py:189-204 | dedupe_rows returns the values of the fold keyed by slugified name and postal code or phone, scored by review count |
| CsvIngest.DedupeRowsSpec | scripts/ingest_csv.py:189-204 | the result has one row per key, every input row's key is represented, only input rows are kept, and with no empty row none of a key's rows has more reviews than the kept one |
| CsvIngest.ValuesSpec | scripts/ingest_csv.py:204 | the values of a dictionary that keeps the invariant have the properties above |
| CsvIngest.EmptyRowReplaced | scripts/ingest_csv.py:196-199 | a key whose kept row is empty takes the next row with that key whatever its reviews |
| CsvIngest.SkipReasonOf | scripts/ingest_csv.py:250-258 | no reason exactly when city, classification, thresholds and maps link all pass; otherwise the first failing check, every earlier check having passed |
| CsvIngest.ImportedPlusSkipped | scripts/ingest_csv.py:249-265 | every deduplicated row is either imported or skipped |
| CsvIngest.SortRows | scripts/ingest_csv.py:249-265 | the loop's imported and skipped lists are the passing rows normalised and the failing rows with their first reason, in order, and together as many as the rows |
| CsvIngest.Ingest | scripts/ingest_csv.py:242-277 | the report holds the deduplicated rows sorted into imported and skipped, and its summary counts input rows, deduplicated rows, imported and skipped, with imported + skipped = post_dedupe |
| CsvIngest.ExitCode | scripts/ingest_csv.py:351-362 | the exit status is 0 or 2 |
| CsvIngest.ExitCodeIff | scripts/ingest_csv.py:351-362 | the status is 2 exactly when there are rows and more than 15% of them were skipped; never when there are no rows |
| CsvIngest.Slugify | scripts/ingest_csv.py:101-105 | `slugify`; `SlugifyIsSlug`, `SlugifyOfSlug` and `SlugifyIdempotent` state its result's shape and that it is idempotent |
| CsvIngest.ParseInt | scripts/ingest_csv.py:117-123 | `parse_int`; `ParseIntOfDigits` states that a count's digits parse back to it and `ParseIntRejects` that a missing, empty or unparseable value gives none |
| CsvIngest.MeetsThresholds | scripts/ingest_csv.py:165-169 | the two review thresholds; `ThresholdsMonotone` and `DefaultThresholds` state them |
| CsvIngest.DedupeStep | scripts/ingest_csv.py:192-203 | one turn of the dedupe loop; `DedupeStepInvariant` states the promises it keeps and `StepFirstBest` that it keeps the first of the best rows |
| CsvIngest.DedupeFold | scripts/ingest_csv.py:189-204 | the dictionary after the loop; `DedupeRowsSpec` and `DedupeKeepsFirstOfTies` state what it keeps |
| CsvIngest.StepFirstBest | scripts/ingest_csv.py:196-203 | after one more row, every kept row is still a row seen that every earlier row of its key scores strictly below |
| CsvIngest.DedupeFoldFirstBest | scripts/ingest_csv.py:189-204 | with no empty row, every kept row is a row seen that every earlier row of its key scores strictly below |
| CsvIngest.DedupeKeepsFirstOfTies | scripts/ingest_csv.py:202 | on equal review counts the first row stays: every returned row is an input row that every earlier row of its key scores strictly below |
| SchemaValidation.Messages | web/scripts/validate-schema.ts:19-73 | one message per failed rule, in the same order, each rule's own text |
| SchemaValidation.MessageInjective | web/scripts/validate-schema.ts:23-65 | no two rules share a message |
| SchemaValidation.FingerprintInjective | web/scripts/validate-schema.ts:23-65 | two rules whose messages agree in length and in the eighteenth character from the end are the same rule |
| SchemaValidation.MessageInIff | web/scripts/validate-schema.ts:23-65 | a rule's message is in the list exactly when the rule failed |
| SchemaValidation.MessagesDistinct | web/scripts/validate-schema.ts:23-65 | no message is repeated when no rule is |
| SchemaValidation.FailedAmongMembers | web/scripts/validate-schema.ts:29-66 | exactly the failing rules of a list are reported |
| SchemaValidation.FailedAmongDistinct | web/scripts/validate-schema.ts:29-66 | no failing rule is reported twice |
| SchemaValidation.JsonLdErrorsSpec | web/scripts/validate-schema.ts:19-73 | a falsy or non-object value gives only "must be an object"; on an object exactly the failed rules are reported, none twice |
| SchemaValidation.ObjectRuleListed | web/scripts/validate-schema.ts:29-66 | every rule other than "must be an object" is checked on an object |
| SchemaValidation.NoRuleFailsIff | web/scripts/validate-schema.ts:29-66 | no rule fails exactly when @context and @type are truthy strings, a BarOrPub has a string name, an FAQPage has a mainEntity array and a truthy aggregateRating is typed AggregateRating with numeric ratingValue and reviewCount |
| SchemaValidation.JsonLdValidIff | web/scripts/validate-schema.ts:19-73 | a value is valid exactly when it is a truthy object on which every rule holds |
| SchemaValidation.FailedAmongStep | web/scripts/validate-schema.ts:29-66 | checking one more rule appends its error exactly when it fails |
| SchemaValidation.ObjectErrorsInOrder | web/scripts/validate-schema.ts:29-66 | the errors come out in the order the source checks the rules |
| SchemaValidation.ValidateJsonLd | web/scripts/validate-schema.ts:19-73 | the errors are the failed rules in order, and the value is valid exactly when there are none |
| SchemaValidation.CheckContext | web/scripts/validate-schema.ts:28-33 | the @context step appends "missing" when it is falsy and "not a string" when it is truthy but not a string, nothing else |
| SchemaValidation.CheckType | web/scripts/validate-schema.ts:35-40 | the @type step appends "missing" when it is falsy and "not a string" when it is truthy but not a string, nothing else |
| SchemaValidation.CheckPageType | web/scripts/validate-schema.ts:42-53 | a BarOrPub without a string name and an FAQPage without a mainEntity array each append their error, in that order |
| SchemaValidation.CheckAggregateRating | web/scripts/validate-schema.ts:55-67 | the three rating rules add their errors only when aggregateRating is truthy, in order |
| SchemaValidation.FirstIndex | web/scripts/validate-schema.ts:88 | the position of the first occurrence, or the length when there is none |
| SchemaValidation.Distinct | web/scripts/validate-schema.ts:88 | the same values as the input, none repeated |
| SchemaValidation.FirstIndexOfPrefix | web/scripts/validate-schema.ts:88 | a value occurring in a prefix first occurs at the same place in the whole |
| SchemaValidation.DistinctInFirstOccurrenceOrder | web/scripts/validate-schema.ts:88 | the values come out in the order of their first occurrence |
| SchemaValidation.ExtractJsonStringifyVariables | web/scripts/validate-schema.ts:78-89 | exactly the non-empty captured names, each once, in order of first occurrence |
| SchemaValidation.NonEmpty | web/scripts/validate-schema.ts:84-86 | exactly the non-empty captures are kept |
| SchemaValidation.SpacesFrom | web/scripts/validate-schema.ts:109-111 | the length of the whitespace run at a position: all whitespace, and followed by the end or a non-space |
| SchemaValidation.AssignmentEnd | web/scripts/validate-schema.ts:98 | a match of the assignment pattern ends after where it starts, within the text |
| SchemaValidation.FirstAssignment | web/scripts/validate-schema.ts:98-99 | a match found starts at or after the search start and ends where the pattern does |
| SchemaValidation.NoAssignmentBefore | web/scripts/validate-schema.ts:98-99 | no assignment match starts between the search start and the first match found, nor anywhere after the start when none is found |
| SchemaValidation.FirstAssignmentIsLeftmost | web/scripts/validate-schema.ts:98-99 | the match found is the leftmost one, and none is found only when there is none |
| SchemaValidation.AssignmentEndsOnNonSpace | web/scripts/validate-schema.ts:98-111 | the assignment match takes the whitespace after "=", so the whitespace skip never moves |
| SchemaValidation.TernaryBrace | web/scripts/validate-schema.ts:114-116 | a ternary match yields a position after the start that holds "{" |
| SchemaValidation.FirstClose | web/scripts/validate-schema.ts:128-156 | the first position at or after the start where a "}" outside strings brings the depth back to zero, and no earlier one; none when there is no such position |
| SchemaValidation.FirstCloseIs | web/scripts/validate-schema.ts:128-156 | the first closing position is fixed by being a close with none before it |
| SchemaValidation.MatchingBrace | web/scripts/validate-schema.ts:122-156 | the brace-matching loop returns the first position that closes the literal, or none |
| SchemaValidation.DepthPositiveInside | web/scripts/validate-schema.ts:128-151 | strictly inside a literal opening with "{" the depth stays at least one |
| SchemaValidation.DefinitionStart | web/scripts/validate-schema.ts:97-120 | a literal start found for a variable is a position of the text holding "{" |
| SchemaValidation.StartAfterMatch | web/scripts/validate-schema.ts:101-120 | no start without an assignment match or with one at position 0; otherwise a start found holds "{" |
| SchemaValidation.BraceAfter | web/scripts/validate-schema.ts:113-120 | a brace found lies at or after the position it is searched from and holds "{" |
| SchemaValidation.LiteralFrom | web/scripts/validate-schema.ts:122-157 | a literal cut out is a non-empty slice of the text starting at the opening brace |
| SchemaValidation.LiteralFromIsLiteral | web/scripts/validate-schema.ts:122-157 | the slice cut out from a "{" runs to the first "}" that closes it, with the depth positive strictly inside |
| SchemaValidation.StartAfter | web/scripts/validate-schema.ts:101-120 | the method's start position is the specified one for the assignment match |
| SchemaValidation.BraceAt | web/scripts/validate-schema.ts:113-120 | the method takes the ternary's brace, else the "{" standing at the position, else none, as specified |
| SchemaValidation.VariableDefinitionIsLiteral | web/scripts/validate-schema.ts:96-157 | a definition found runs from its opening "{" to the first "}" that closes it, with the depth positive strictly inside |
| SchemaValidation.AssignmentAtZeroIgnored | web/scripts/validate-schema.ts:101-103 | an assignment at the very start of the file is not found |
| SchemaValidation.FindVariableDefinition | web/scripts/validate-schema.ts:96-157 | returns the variable's object literal as specified, or none |
| SchemaValidation.LiteralStart | web/scripts/validate-schema.ts:97-120 | finds the assignment, skips whitespace, and takes the brace of a ternary or the "{" standing there |
| SchemaValidation.SkipSpaces | web/scripts/validate-schema.ts:109-111 | the whitespace loop stops at the end of the whitespace run |
| SchemaValidation.KeyValueAt | web/scripts/validate-schema.ts:167-173 | a quoted key, a colon and a quote matched at a position end after it, within the text |
| SchemaValidation.HasContext | web/scripts/validate-schema.ts:167 | true exactly when the @context pattern matches at some position |
| SchemaValidation.HasType | web/scripts/validate-schema.ts:173 | true exactly when the @type pattern matches at some position |
| SchemaValidation.ValidateObjectLiteralStructure | web/scripts/validate-schema.ts:163-182 | one message when no schema.org @context literal occurs, one when no string @type does; valid exactly when neither |
| SchemaValidation.LiteralErrorsIff | web/scripts/validate-schema.ts:163-182 | a literal passes exactly when both patterns occur, and each message appears exactly when its pattern never matches |
| SchemaValidation.FlatMapEmptyIff | web/scripts/validate-schema.ts:193-236 | no messages at all exactly when no item has any |
| SchemaValidation.FlatMapStep | web/scripts/validate-schema.ts:193-236 | one more item adds its messages at the end |
| SchemaValidation.TagErrorsEmptyIff | web/scripts/validate-schema.ts:193-217 | a script element is fine exactly when its inner pattern fails, when it is an empty dangerouslySetInnerHTML element, or when its body parses to a value every rule accepts |
| SchemaValidation.VariableErrorsEmptyIff | web/scripts/validate-schema.ts:224-236 | a variable is fine exactly when its literal is found and has both a schema.org @context and a string @type |
| SchemaValidation.PageValidIff | web/scripts/validate-schema.ts:184-260 | a page is valid exactly when it was read, has some JSON-LD to check, and every script element and variable is fine |
| SchemaValidation.InvalidPageHasErrors | web/scripts/validate-schema.ts:184-260 | an invalid page always carries at least one message |
| SchemaValidation.ValidatePage | web/scripts/validate-schema.ts:184-260 | the result is the specified page outcome |
| SchemaValidation.CheckScriptTags | web/scripts/validate-schema.ts:192-218 | the script-element loop collects each element's messages in order |
| SchemaValidation.CheckVariable | web/scripts/validate-schema.ts:225-236 | one variable appends its "could not find definition" message when no literal is found, one message joining the structure messages when there are any, else nothing |
| SchemaValidation.CheckVariables | web/scripts/validate-schema.ts:223-237 | the variable loop appends each variable's message in order |
| SchemaValidation.ExitStatus | web/scripts/validate-schema.ts:278-299 | the exit status is 0 or 1, and 0 exactly when every page is valid |
| PubImport.Chunk | web/scripts/import-pubs.ts:114-120 | the loop's result is the consecutive slices of the input of the given size |
| PubImport.ChunksFlatten | web/scripts/import-pubs.ts:114-120 | the chunks concatenated give back the input |
| PubImport.ChunkSizes | web/scripts/import-pubs.ts:114-120 | every chunk holds between one and the given number of rows, and every chunk but the last exactly that many |
| PubImport.ChunkCount | web/scripts/import-pubs.ts:114-120 | there are no chunks exactly for no rows, and just enough chunks to hold every row |
| PubImport.OrNull | web/scripts/import-pubs.ts:138-148 | a value exactly when the field is present and not null, and then that value |
| PubImport.CheckImported | web/scripts/import-pubs.ts:47 | an empty list of imported rows is rejected with "No imported rows found in ingestion payload."; any other list is accepted unchanged |
| PubImport.RecordFields | web/scripts/import-pubs.ts:122-125 | each entry becomes a string field with the same key and text, in order |
| PubImport.ToJson | web/scripts/import-pubs.ts:122-125 | null exactly for a missing record; otherwise an object with as many fields as the record |
| PubImport.ToJsonLookup | web/scripts/import-pubs.ts:122-125 | the object has a key exactly when the record does, and then holds the record's last text for it |
| PubImport.ToPubUpsertRoundTrip | web/scripts/import-pubs.ts:127-151 | every field of the upsert row is recovered: a payload row with all fields present gives back the same upsert row |
| PubImport.ToPubUpsertForgetsAbsence | web/scripts/import-pubs.ts:138-148 | an absent optional field and a null one give the same upsert row |
| PubImport.ToPubUpsertKeepsRequired | web/scripts/import-pubs.ts:127-151 | name, slug, maps link and status are copied unchanged, and the locality slug is not sent |
| PubImport.IdsBySlug | web/scripts/import-pubs.ts:171-174 | the map holds a slug exactly when a returned row has it, with the id of the last such row |
| PubImport.LastIdForIff | web/scripts/import-pubs.ts:107-110 | a slug has an id exactly when some row has the slug, and the id is that of the last such row |
| PubImport.LoadLocalityMap | web/scripts/import-pubs.ts:97-112 | a failed query gives "Failed to load localities: " and its message; otherwise each slug maps to the id of its last row |
| PubImport.LinksSpec | web/scripts/import-pubs.ts:176-188 | every link is primary and joins a row's pub to that row's locality; every row with a locality slug, a known locality and a returned pub id yields its link; no more links than rows |
| PubImport.Upserts | web/scripts/import-pubs.ts:158 | one upsert row per batch row, in order |
| PubImport.IdsAgree | web/scripts/import-pubs.ts:171-174 | the map filled in the loop is the slug-to-last-id map of the returned rows |
| PubImport.PersistBatch | web/scripts/import-pubs.ts:153-198 | a failed pub upsert fails with "Failed to upsert pubs: "; otherwise the links are built, sent when there are any, and a failed link upsert fails with "Failed to upsert pub_localities: " |
| PubImport.BuildLinks | web/scripts/import-pubs.ts:176-188 | the link loop yields the links of the batch's rows in row order |
| PubImport.ImportFailsAtFirstBadBatch | web/scripts/import-pubs.ts:219-222 | the import fails exactly when some batch fails, and then with the first failing batch's message |
| PubImport.FirstFailureIsFirst | web/scripts/import-pubs.ts:219-222 | no failure exactly when every batch succeeded; otherwise the failure reported is that of a batch with only successes before it |
| PubImport.ImportOutcomeIsFirstFailure | web/scripts/import-pubs.ts:219-222 | running the batches one after another ends with the first batch failure, if any |
| PubImport.ImportPayload | web/scripts/import-pubs.ts:200-225 | no rows fail with the non-empty message, a failed locality query with its message, otherwise the batches are persisted in order until the first failure |
| PubImport.ToPubUpsert | web/scripts/import-pubs.ts:127-151 | the pub row of an ingested pub; `ToPubUpsertRoundTrip`, `ToPubUpsertKeepsRequired` and `ToPubUpsertForgetsAbsence` state it |
| PubImport.ImportOutcome | web/scripts/import-pubs.ts:219-222 | the import's failure, if any; `ImportOutcomeIsFirstFailure` and `ImportFailsAtFirstBadBatch` state it |
| Ratings.FormatReviewCount | web/src/lib/utils/ratings.ts:11-19 | a falsy count gives "No reviews yet"; otherwise the locale-formatted count comes first, the text ends in "+" or "growing", and it ends with "+ and growing" exactly when the count is growing |
| Ratings.NoReviewsIff | web/src/lib/utils/ratings.ts:15 | "No reviews yet" is shown exactly for a falsy count |
| Ratings.FormatGoogleRating | web/src/lib/utils/ratings.ts:25-34 | a falsy rating gives "No rating yet"; otherwise the rating to one decimal, a star, and the review text in parentheses |
| Ratings.GoogleRatingShowsReviews | web/src/lib/utils/ratings.ts:30-33 | a shown rating starts with the rating and ends with the review text in parentheses, "No reviews yet" when the count is falsy |
| Ratings.CombinedRating | web/src/lib/utils/ratings.ts:39-44 | nothing exactly for no ratings; otherwise the average, whose product with the count is the sum |
| Ratings.SumBounds | web/src/lib/utils/ratings.ts:42 | ratings between two bounds sum to between count times each bound |
| Ratings.CombinedRatingBetween | web/src/lib/utils/ratings.ts:39-44 | the average of ratings lies between their bounds |
| Ratings.CombinedRatingOfEqual | web/src/lib/utils/ratings.ts:39-44 | the average of equal ratings is that rating |
| Ratings.TitleCasePointwise | web/src/lib/utils/ratings.ts:65-68 | title casing keeps the length, turns every "-", "_" or space into a space, upper-cases the first letter of each word and lower-cases the rest |
| Ratings.CapitalizePointwise | web/src/lib/utils/ratings.ts:67 | a capitalised word has its first letter upper-cased and every other letter lower-cased |
| Ratings.TitleCaseCons | web/src/lib/utils/ratings.ts:65-68 | title casing splits at the first separator: the first word capitalised, a space, then the rest title-cased |
| Ratings.FormatPlatformName | web/src/lib/utils/ratings.ts:50-69 | a platform whose lower-cased name is a special case gets that spelling; any other is title-cased |
| Ratings.FormatPlatformNameCaseInsensitive | web/src/lib/utils/ratings.ts:50-69 | names differing only in letter case are displayed alike |
| Ratings.FormatPlatformNameOtherwise | web/src/lib/utils/ratings.ts:65-68 | a platform without a special case is shown letter by letter title-cased, with the same length |
| Ratings.FormatPlatformNameAsWritten | web/src/lib/utils/ratings.ts:52-62 | as written: special cases get their spelling, and a lower-cased name that an object inherits ("constructor", "__proto__") returns that inherited member instead of a name |
| Ratings.ConstructorIsNotAName | web/src/lib/utils/ratings.ts:60-61 | as written, "constructor" returns the inherited member, not a string |
| Ratings.InheritedKeysCapitalized | web/src/lib/utils/ratings.ts:65-68 | corrected, a platform spelled "constructor" or "__proto__" in any case is title-cased like any other name |
| Ratings.FormatPlatformNameAgrees | web/src/lib/utils/ratings.ts:50-69 | for every other name the as-written lookup and the corrected one agree |
| Votes.SeededOption | web/src/lib/votes/fallback.ts:38-46 | an option's seeded entry carries its id and its seeded count for today |
| Votes.SeededTopic | web/src/lib/votes/fallback.ts:34-48 | a topic's seeded entry carries its id and one entry per option, in order |
| Votes.SeededVoteStats | web/src/lib/votes/fallback.ts:29-61 | one entry per topic, in order, the total is the sum of every option's overall count, and the stamp is the generation time |
| Votes.SeededVoteStatsShape | web/src/lib/votes/fallback.ts:35-46 | an option without a seed has no votes; with non-negative seeds no option has more votes today than overall; an overall seed at least today's is shown as it is |
| Votes.OptionWithinTotal | web/src/lib/votes/fallback.ts:51-54 | with non-negative counts every option's overall count is at most the total |
| Votes.OptionsOverallNonNegative | web/src/lib/votes/fallback.ts:52 | non-negative option counts sum to a non-negative number |
| Votes.TopicsOverallNonNegative | web/src/lib/votes/fallback.ts:51-54 | non-negative counts give a non-negative total |
| Votes.OptionWithinOptions | web/src/lib/votes/fallback.ts:52 | with non-negative counts an option's count is at most its topic's sum |
| Votes.DefaultSeededTotal | web/src/lib/votes/fallback.ts:14-27 | with the built-in seeds and topics every option shows its seeded overall count and the total is 2370 |
| Votes.TwoOptions | web/src/lib/votes/schema.ts:29-57 | a topic with two options sums their counts |
| Votes.ThreeTopics | web/src/lib/votes/schema.ts:29-57 | three topics sum their option sums |
| Votes.DayStart | web/src/lib/supabase/votes.ts:34-42 | the start of the IST day: at most the current time and less than a day before it, and falling on an IST midnight |
| Votes.DayStartUnique | web/src/lib/supabase/votes.ts:34-42 | there is only one such start |
| Votes.SameDayStart | web/src/lib/supabase/votes.ts:34-42 | every time of the same IST day has the same day start |
| Votes.KeyInjective | web/src/lib/supabase/votes.ts:47 | topics without a colon give distinct keys for distinct topic and option pairs |
| Votes.AggregateVotes | web/src/lib/supabase/votes.ts:44-51 | the counting loop yields the counts of the events' keys |
| Votes.CountsAreMultiplicities | web/src/lib/supabase/votes.ts:44-51 | a key is counted exactly when some event has it, and its count is the number of events with it |
| Votes.Since | web/src/lib/supabase/votes.ts:78-81 | exactly the events created at or after the given time |
| Votes.SinceKeysIncluded | web/src/lib/supabase/votes.ts:78-81 | today's events are among all events, key for key |
| Votes.TopicFromCounts | web/src/lib/supabase/votes.ts:83-93 | a topic's entry carries its id and one entry per option, in order |
| Votes.StatsOf | web/src/lib/supabase/votes.ts:83-99 | one entry per topic from today's and all counts, the total is the number of events, and there is a last-updated time exactly when there are events |
| Votes.StatsOfCounts | web/src/lib/supabase/votes.ts:83-93 | an option's overall votes are the events for its topic and option, today's votes those since the day start, and today's never exceed overall |
| Votes.LastUpdatedIsNewest | web/src/lib/supabase/votes.ts:95-99 | for events newest first the last-updated time is the newest creation time |
| Votes.GetPubVoteStats | web/src/lib/supabase/votes.ts:57-100 | nothing without a backend, the query's failure as an error, otherwise the snapshot of the events with today counted from the IST day start |
| Votes.VotesSince | web/src/lib/supabase/votes.ts:125-136 | the number of one voter's votes on one topic of one pub since a time is at most the number of votes |
| Votes.VoteStore.constructor | web/src/lib/supabase/votes.ts:102-154 | the vote table starts empty |
| Votes.VoteStore.RecordPubVote | web/src/lib/supabase/votes.ts:102-154 | the reply and the table afterwards are the specified outcome: token and configuration checked, today's vote looked up, a new vote inserted when there is none |
| Votes.VotesSinceAppend | web/src/lib/supabase/votes.ts:142-153 | a new vote adds one to its own voter, topic and pub count and nothing to any other |
| Votes.OneVotePerTopicPerDay | web/src/lib/supabase/votes.ts:102-154 | a voter with at most one vote today on a topic still has at most one; a vote is inserted exactly when the reply is "not already voted", and then it is the voter's only vote today; "already voted" exactly when the request is valid and the voter has one vote today |
| Votes.RejectedRequests | web/src/lib/supabase/votes.ts:109-121 | a blank token and a missing backend are refused with their messages, and every refused request leaves the table unchanged |
| Votes.RecordOutcome | web/src/lib/supabase/votes.ts:102-154 | the reply and table of a vote request; `OneVotePerTopicPerDay` and `RejectedRequests` state its cases |
| VotingPanel.LeaderIsFirstMaximum | web/src/components/pubs/voting-panel.tsx:114-119 | the summary leader has the most votes today, and every option before it has strictly fewer |
| VotingPanel.FindTopic | web/src/components/pubs/voting-panel.tsx:112 | a topic found has the id asked for; none is found only when no topic has it |
| VotingPanel.FindOption | web/src/components/pubs/voting-panel.tsx:122 | an option found has the id asked for; none is found only when no option has it |
| VotingPanel.Summarize | web/src/components/pubs/voting-panel.tsx:111-132 | a summary item carries its topic's id, and the leader's votes today, or 0 and 0% for a topic without options |
| VotingPanel.Summary | web/src/components/pubs/voting-panel.tsx:109-133 | no items without stats; otherwise one item per topic of the stats, in order |
| VotingPanel.CountWithinTotal | web/src/components/pubs/voting-panel.tsx:196-199 | with non-negative counts an option's count is between 0 and its card's total in either view |
| VotingPanel.TotalNonNegative | web/src/components/pubs/voting-panel.tsx:196-199 | with non-negative counts a card's total is non-negative |
| VotingPanel.RoundPercent | web/src/components/pubs/voting-panel.tsx:124 | rounding a percentage keeps it between 0 and 100 |
| VotingPanel.LeaderPctBounds | web/src/components/pubs/voting-panel.tsx:124 | the leader's share is 0 when nobody voted today and otherwise a percentage between 0 and 100 |
| VotingPanel.ShareBounds | web/src/components/pubs/voting-panel.tsx:124 | a part of a positive total is a fraction between 0 and 1 |
| VotingPanel.ModeTotalOverall | web/src/components/pubs/voting-panel.tsx:189 | a card's overall total is the options' overall sum used by the stats |
| VotingPanel.ModeTotalTodayAtMost | web/src/components/pubs/voting-panel.tsx:196-199 | with non-negative counts today's total never exceeds the overall total |
| VotingPanel.TotalVotesModes | web/src/components/pubs/voting-panel.tsx:183-192 | the overall total over all topics is the stats' total, and today's is at most that |
| VotingPanel.CardLeadersAreTies | web/src/components/pubs/voting-panel.tsx:218-221 | the card leaders are exactly the options tied at the maximum, and the summary leader is one of them |
| VotingPanel.ButtonLabel | web/src/components/pubs/voting-panel.tsx:222-231 | the label is "Vote" exactly when the button is enabled, and "Submitting..." exactly while its topic is being submitted |
| VotingPanel.HydratedLocksSpec | web/src/components/pubs/voting-panel.tsx:87-107 | a topic is locked after hydration exactly when one of the topics has that id and its stored lock is from today, and then with the stored value |
| VotingPanel.Panel.constructor | web/src/components/pubs/voting-panel.tsx:37-43 | the panel starts with the given stats and their stamp, nothing loading, no error, no locks |
| VotingPanel.Panel.HydrateLocks | web/src/components/pubs/voting-panel.tsx:87-107 | the locks become today's stored locks, the stale stored locks are removed from storage, and nothing else changes |
| VotingPanel.Panel.HandleVote | web/src/components/pubs/voting-panel.tsx:135-181 | a vote is sent exactly when voting is enabled and there is a voter token, with the offline or session message otherwise and nothing else changed; a failure shows its message and keeps the stats; a success takes the returned stats and, unless already voted, locks the topic in state and storage; loading ends either way |
| VotingPanel.StoredUnlessRemoved | web/src/components/pubs/voting-panel.tsx:92-104 | a storage key not removed so far still holds its original value |
| VoteChips.DisplayCounts | web/src/components/pubs/vote-chips.tsx:39-44 | one displayed count per option, its count plus one when it is the selected option |
| VoteChips.DisplayCountsSelected | web/src/components/pubs/vote-chips.tsx:39-44 | an option shows one more than its count exactly when it is selected, and its own count otherwise |
| VoteChips.DisplaySumHits | web/src/components/pubs/vote-chips.tsx:39-44 | the displayed counts add one to the stored sum for every option with the selected id |
| VoteChips.HitsAtMostOne | web/src/components/pubs/vote-chips.tsx:39-44 | with distinct ids the selection matches one option when any has its id, and none otherwise |
| VoteChips.DisplayTotal | web/src/components/pubs/vote-chips.tsx:39-44 | with distinct ids the visitor's vote adds exactly one to the displayed total when it selects an option, and nothing otherwise |
| VoteChips.MaxCount | web/src/components/pubs/vote-chips.tsx:46-49 | no maximum exactly for no options; otherwise a displayed count that no count exceeds |
| VoteChips.LeaderIff | web/src/components/pubs/vote-chips.tsx:86 | an option leads exactly when it shows at least one vote and no option shows more |
| VoteChips.Noun | web/src/components/pubs/vote-chips.tsx:54 | "person" exactly for one voter |
| VoteChips.SummaryLine | web/src/components/pubs/vote-chips.tsx:50-58 | the summary line starts with the displayed count and the matching noun |
| VoteChips.Toggle | web/src/components/pubs/vote-chips.tsx:60-76 | voting for the selected option clears the selection, voting for any other selects it |
| VoteChips.ToggleTwice | web/src/components/pubs/vote-chips.tsx:60-76 | voting twice for the same option undoes the first vote when nothing else was selected |
| VoteChips.Reported | web/src/components/pubs/vote-chips.tsx:60-76 | the vote is reported as "reset" or as the option, and as the option whenever it was not already selected |
| VoteChips.Restored | web/src/components/pubs/vote-chips.tsx:24-37 | a selection is restored exactly when a non-empty stored id belongs to one of the options, and then it is that id |
| VoteChips.Chips.constructor | web/src/components/pubs/vote-chips.tsx:21-22 | the chips start with nothing selected and the given storage |
| VoteChips.Chips.Restore | web/src/components/pubs/vote-chips.tsx:24-37 | the selection becomes the restored stored id, and storage is unchanged |
| VoteChips.Chips.HandleVote | web/src/components/pubs/vote-chips.tsx:60-76 | the selection toggles, the vote is reported, and storage keeps the new selection or drops the key when it is cleared |
| Claims.WithToken | web/src/app/api/claims/route.ts:56-64 | exactly the positions of the claims with the token |
| Claims.Verify | web/src/app/api/claims/route.ts:70-77 | every claim with the id becomes "pending_verification" with its verification time, and every other claim is unchanged |
| Claims.ClaimStore.constructor | web/src/app/api/claims/route.ts:23-33 | the claims table starts with the given claims |
| Claims.ClaimStore.Post | web/src/app/api/claims/route.ts:5-45 | the reply and the claims afterwards are the specified outcome of a POST |
| Claims.ClaimStore.Patch | web/src/app/api/claims/route.ts:47-86 | the reply and the claims afterwards are the specified outcome of a PATCH |
| Claims.PostFilesPendingClaim | web/src/app/api/claims/route.ts:5-45 | success exactly for a payload with slug and email, a client, a known pub and a successful insert; then one pending claim is appended for that pub and email carrying the returned token; any other reply changes nothing; a bad payload is 400 and an unknown pub 404 |
| Claims.PatchVerifiesPendingClaim | web/src/app/api/claims/route.ts:47-86 | a pending claim found by its token becomes "pending_verification" with the time, keeping its token, with every claim of another id untouched; a claim not pending is answered "Already verified." with nothing changed |
| Claims.PatchTwice | web/src/app/api/claims/route.ts:66-68 | verifying the same token again answers "Already verified." and changes nothing |
| Claims.SameTokens | web/src/app/api/claims/route.ts:56-64 | tables whose rows carry the same tokens find the same rows for a token |
| Claims.PatchRejectsMissingToken | web/src/app/api/claims/route.ts:48-64 | a missing token is 400 with nothing changed, and a token no claim has is 404 with nothing changed |
| Claims.PostOutcome | web/src/app/api/claims/route.ts:5-45 | the reply and claims of a POST; `PostFilesPendingClaim` states its cases |
| Claims.PatchOutcome | web/src/app/api/claims/route.ts:47-86 | the reply and claims of a PATCH; `PatchRejectsMissingToken`, `PatchVerifiesPendingClaim` and `PatchTwice` state its cases |
| VotingPanel.LeaderIndex | web/src/components/pubs/voting-panel.tsx:114-119 | the leading option of a topic; `LeaderIsFirstMaximum` and `CardLeadersAreTies` state which one |
| VotingPanel.TotalVotes | web/src/components/pubs/voting-panel.tsx:183-192 | the panel's vote total in either view; `TotalVotesModes` states it |
| VotingPanel.HydratedLocks | web/src/components/pubs/voting-panel.tsx:87-107 | the locks read back from storage; `HydratedLocksSpec` states them |

## Left out

- Network calls, Supabase clients and the file system are not modelled. Their answers are parameters: a query's rows or failure, a write's failure, whether a backend is configured. Retries, concurrency and the order in which concurrent promises settle are not modelled.
- Regular expressions the model does not write out are given as functions. These are the CSV locality pattern, the script-tag patterns and the `JSON.stringify` capture pattern. `JSON.parse`, Python's `urlparse`, `toLocaleString` and `toFixed` are given as functions too.
- JavaScript and Python numbers are exact reals. NaN is "no number". Infinity, hexadecimal and exponent forms, and binary floating-point rounding are not modelled, and `round(x, 1)` is taken on exact decimals. One consequence: Python's `round(3.45, 1)` is 3.5, because the binary float nearest 3.45 lies above it, while `ParseFloat` gives 3.4; so a row rated "3.45" with fewer than 10 reviews passes the review filter in the script and fails it in the model.
- `DigitsOf` and `PyFloat` read ASCII digits only. Python's `\D` and `float()` also accept other Unicode decimal digits, such as Devanagari or full-width ones; the model drops those from phone numbers and does not parse them as numbers.
- Text.NumberText: a non-integer prints its first six fraction digits, cut rather than rounded, where JavaScript prints the shortest text that reads back as the same number (`String(4.1234567)` is "4.1234567"; the model gives "4.123456"). Every number display built on it (JSON text, the pub page's and the worker's displays) inherits this.
- LocalityFilters.QueryString: joins the raw `key=value` pairs with "&". `URLSearchParams.toString()` percent-encodes them (a space becomes "+", "&" becomes "%26"), which the model does not.
- Whitespace and letter case are ASCII only. Unicode whitespace, case mapping and normalisation are not modelled.
- Apply.EntriesOf: a truthy `attributes` that is an array or a string gives no entries. `Object.entries` would give index-keyed entries ("0", "1", …), which yield a change only if the dictionary has a code that is a decimal index.
- Worker.RunPendingJobs: takes the batch limit as a natural number. `BatchLimit` reads `AI_BATCH_LIMIT` as `Number` does (5 when unset), but a negative, fractional or NaN limit is not followed into the query.
- Times are whole milliseconds since the epoch, and ISO and date strings are parameters. The IST day start is computed on milliseconds.
- `normalise_row` and the helpers only it uses are a parameter of the ingest model. These are `parse_working_hours` and `extract_locality` in scripts/ingest_csv.py. The run's timestamp, `load_rows`, `build_parser`, `load_config`, the argument checks of `main`, its output file and its messages are left out. Only the exit-code rule is modelled.
- The import script's argument parsing, file reading, zod validation of anything but the non-empty rule, and console messages are left out.
- PubImport.ImportPayload: requires a positive batch size. `Number(process.env.IMPORT_BATCH_SIZE)` can also be 0, negative, fractional or NaN, which the source does not guard; `BatchSize` gives none for those and the model does not follow them.
- Random voter tokens are not modelled. The panel takes the token as a parameter, and its token-hydration effect (`randomUUID`) is left out.
- The voting panel's stats-fetch effect is left out: it fetches over the network and falls back to the seeded stats. The model's stats come from the constructor or from a vote reply.
- The seeded vote counts are a map of the three built-in topics. Looking up an inherited object member as a topic id is not modelled.
- Votes.KeyInjective: proved only for topic ids without a colon. The "topic::option" key can collide for ids that contain one; the built-in ids do not.
- Claims.ClaimStore.Patch: `maybeSingle` with two or more rows of one token is modelled as "not found". The client actually reports an error, which the route also answers with 404.
- Jobs.JobQueue.Enqueue: `maybeSingle` with two or more pending jobs of one kind for a pub leaves no data, and the route inserts another job. This is modelled as written.
- The worker's progress separator is kept as the byte sequence the source file holds.
- SchemaValidation.ValidateJsonLd: the errors are rule kinds, and `Messages` maps them to the source's texts. `validatePage` reads files and `main` prints results; the model starts from the read result and ends at the exit status.
- SchemaValidation.LiteralStart: the ternary pattern `/^[^?]*\?\s*({)/` takes the first "?" anywhere after the assignment, even one in a later statement. This is modelled as written.
- Queries.RepeatedSlugSurvives: a repeated slug within one locality page survives the search aggregation, because the filter only compares against pubs gathered earlier. Slugs are unique in the pubs table, so this is recorded, not corrected. `AggregateDistinct` proves distinct results from distinct pages.
- Decode priorities differ between `queries.ts`, `apply.ts` and `run-ai-jobs.ts`; each module follows its own file.
- `run-ai-jobs.ts` starts a job with an unconditional status update, not a conditional claim; the model does the same.
- `apply.ts` writes every applied value with the source "ai_generated"; the model does the same.
- `apply.ts` keeps duplicate tags; the model does the same.
- None of the core files has an approve, reject or rerun operation, so the model has none.
- CsvIngest.IsValidCity: its own contract gives one direction only. `MissingCountryDefaults` and `UpperCountryMatchesNothing` cover the country rule.
- CsvIngest.PassesReviewFilters: its own contract states only that both numbers must parse. The thresholds themselves are stated by `ThresholdsMonotone` and `DefaultThresholds` on `MeetsThresholds`.
- Ratings.FormatGoogleRating: the text is built from the parameters standing for `toFixed(1)` and `toLocaleString`, so digits and separators are not modelled.

## Findings

| source | as written | input that shows it | evidently intended | confidence | as-written member | corrected member |
|---|---|---|---|---|---|---|
| web/src/lib/ai/apply.ts:28-35 | a range with only one bound is returned as that bare number | a row with minimum 5 and no maximum decodes to 5, which normalises back to minimum 5 and maximum 5 | decoding keeps which bound was set, so that re-normalising gives back the same row | not executed | ValueCodec.HalfOpenRangeNotInverted | ValueCodec.DeclaredRoundTrip |
| web/src/lib/supabase/queries.ts:196 | the search escapes "%" and "_" but not the backslash | the search text `a\%` becomes `a\\%`, in which "%" is a live wildcard again | every character of the search text matches literally | not executed | Queries.EscapeLikeMissesBackslash | Queries.SearchIsLiteral |
| web/src/lib/supabase/queries.ts:521 | a range is shown as a range only when both bounds are truthy | a cost range from 0 to 1500 is shown as "0" | both bounds are shown whenever they differ, as the worker shows them | not executed | Queries.ZeroBoundHidesRange | Queries.RangeDisplay |
| web/src/lib/utils/ratings.ts:52-62 | the special-case lookup also finds members every object inherits | the platform "constructor" returns the Object constructor function instead of a name | only the listed platforms are special; every other name is title-cased | not executed | Ratings.ConstructorIsNotAName | Ratings.InheritedKeysCapitalized |
