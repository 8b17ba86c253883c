/**
 * Pub votes: the seeded statistics shown when the vote backend is offline,
 * the start of the current day in India Standard Time, the counting of vote
 * events per topic and option, the statistics snapshot built from them, and
 * the once-per-topic-per-day vote recording against the vote-event table.
 * Times are milliseconds since the epoch.
 */
module Votes {
  import opened Wrappers
  import opened Text

  // ---------------------------------------------------------------------------
  // Topics and statistics

  datatype OptionDef = OptionDef(id: string, caption: string)
  datatype TopicDef = TopicDef(id: string, title: string, options: seq<OptionDef>)

  datatype OptionStats = OptionStats(optionId: string, todayVotes: int, overallVotes: int)
  datatype TopicStats = TopicStats(topic: string, options: seq<OptionStats>)
  datatype Snapshot = Snapshot(topics: seq<TopicStats>, totalVotes: int, lastUpdated: Option<int>)

  const DefaultTopics: seq<TopicDef> := [
    TopicDef("stag-entry", "Stag entry", [OptionDef("allowed", "Allowed"), OptionDef("not-allowed", "Not allowed")]),
    TopicDef("cover-charge", "Cover charge", [OptionDef("cover", "Cover charge"), OptionDef("no-cover", "No cover")]),
    TopicDef("cover-redeemable", "Cover is redeemable",
             [OptionDef("redeemable", "Redeemable"), OptionDef("not-redeemable", "Not redeemable")])]

  /** The sum of the options' overall counts, added left to right. */
  function OptionsOverall(options: seq<OptionStats>): int
    decreases |options|
  {
    if options == [] then 0 else OptionsOverall(options[..|options| - 1]) + options[|options| - 1].overallVotes
  }

  /** The sum over all topics of their options' overall counts. */
  function TopicsOverall(topics: seq<TopicStats>): int
    decreases |topics|
  {
    if topics == [] then 0 else TopicsOverall(topics[..|topics| - 1]) + OptionsOverall(topics[|topics| - 1].options)
  }

  // ---------------------------------------------------------------------------
  // Seeded statistics

  /** Seed counts: `(today, overall)` per option per topic. */
  type Seeds = map<string, map<string, (int, int)>>

  const SeededCounts: Seeds := map[
    "stag-entry" := map["allowed" := (22, 420), "not-allowed" := (20, 380)],
    "cover-charge" := map["cover" := (14, 210), "no-cover" := (28, 610)],
    "cover-redeemable" := map["redeemable" := (22, 390), "not-redeemable" := (20, 360)]]

  /** The seed for one option, `{ today: 0, overall: 0 }` when the topic or the option has none. */
  function SeedFor(seeds: Seeds, topicId: string, optionId: string): (int, int) {
    if topicId in seeds && optionId in seeds[topicId] then seeds[topicId][optionId] else (0, 0)
  }

  /** One option's seeded counts: an overall count below today's count is added to it. */
  function SeededOption(seeds: Seeds, topicId: string, optionId: string): (r: OptionStats)
    ensures r.optionId == optionId && r.todayVotes == SeedFor(seeds, topicId, optionId).0
  {
    var (today, overall) := SeedFor(seeds, topicId, optionId);
    OptionStats(optionId, today, if overall >= today then overall else today + overall)
  }

  function SeededTopic(seeds: Seeds, topic: TopicDef): (r: TopicStats)
    ensures r.topic == topic.id && |r.options| == |topic.options|
    ensures forall j :: 0 <= j < |topic.options| ==> r.options[j] == SeededOption(seeds, topic.id, topic.options[j].id)
  {
    TopicStats(topic.id, seq(|topic.options|, j requires 0 <= j < |topic.options| => SeededOption(seeds, topic.id, topic.options[j].id)))
  }

  /** `getSeededVoteStats`: the topics' seeded counts, the sum of the overall counts, and the generation time. */
  function SeededVoteStats(seeds: Seeds, topics: seq<TopicDef>, generatedAt: int): (r: Snapshot)
    ensures |r.topics| == |topics|
    ensures forall i :: 0 <= i < |topics| ==> r.topics[i] == SeededTopic(seeds, topics[i])
    ensures r.totalVotes == TopicsOverall(r.topics) && r.lastUpdated == Some(generatedAt)
  {
    var mapped := seq(|topics|, i requires 0 <= i < |topics| => SeededTopic(seeds, topics[i]));
    Snapshot(mapped, TopicsOverall(mapped), Some(generatedAt))
  }

  /**
   * The seeded statistics mirror the topics and options in order; an option
   * without a seed has no votes; with non-negative seeds no option has more
   * votes today than overall.
   */
  lemma SeededVoteStatsShape(seeds: Seeds, topics: seq<TopicDef>, generatedAt: int, i: nat, j: nat)
    requires i < |topics| && j < |topics[i].options|
    ensures var o := SeededVoteStats(seeds, topics, generatedAt).topics[i].options[j];
            && o.optionId == topics[i].options[j].id
            && (SeedFor(seeds, topics[i].id, o.optionId) == (0, 0) ==> o.todayVotes == 0 && o.overallVotes == 0)
            && (SeedFor(seeds, topics[i].id, o.optionId).0 >= 0 && SeedFor(seeds, topics[i].id, o.optionId).1 >= 0
                ==> 0 <= o.todayVotes <= o.overallVotes)
            && (SeedFor(seeds, topics[i].id, o.optionId).1 >= SeedFor(seeds, topics[i].id, o.optionId).0
                ==> o.overallVotes == SeedFor(seeds, topics[i].id, o.optionId).1)
  {
  }

  /** With non-negative counts, every option's overall count is part of the total. */
  lemma {:induction false} OptionWithinTotal(topics: seq<TopicStats>, i: nat, j: nat)
    requires i < |topics| && j < |topics[i].options|
    requires forall a, b :: 0 <= a < |topics| && 0 <= b < |topics[a].options| ==> topics[a].options[b].overallVotes >= 0
    ensures 0 <= topics[i].options[j].overallVotes <= TopicsOverall(topics)
    decreases |topics|
  {
    var n := |topics| - 1;
    var p := topics[..n];
    TopicsOverallNonNegative(p);
    OptionsOverallNonNegative(topics[n].options);
    if i < n {
      assert p[i] == topics[i];
      OptionWithinTotal(p, i, j);
    } else {
      OptionWithinOptions(topics[n].options, j);
    }
  }

  lemma {:induction false} OptionsOverallNonNegative(options: seq<OptionStats>)
    requires forall b :: 0 <= b < |options| ==> options[b].overallVotes >= 0
    ensures OptionsOverall(options) >= 0
    decreases |options|
  {
    if options != [] {
      OptionsOverallNonNegative(options[..|options| - 1]);
    }
  }

  lemma {:induction false} TopicsOverallNonNegative(topics: seq<TopicStats>)
    requires forall a, b :: 0 <= a < |topics| && 0 <= b < |topics[a].options| ==> topics[a].options[b].overallVotes >= 0
    ensures TopicsOverall(topics) >= 0
    decreases |topics|
  {
    if topics != [] {
      var n := |topics| - 1;
      assert forall a :: 0 <= a < n ==> topics[..n][a] == topics[a];
      TopicsOverallNonNegative(topics[..n]);
      OptionsOverallNonNegative(topics[n].options);
    }
  }

  lemma {:induction false} OptionWithinOptions(options: seq<OptionStats>, j: nat)
    requires j < |options|
    requires forall b :: 0 <= b < |options| ==> options[b].overallVotes >= 0
    ensures options[j].overallVotes <= OptionsOverall(options)
    decreases |options|
  {
    var n := |options| - 1;
    OptionsOverallNonNegative(options[..n]);
    if j < n {
      OptionWithinOptions(options[..n], j);
    }
  }

  /** With the built-in seeds and topics, every option shows its seeded overall count and the total is 2370. */
  lemma DefaultSeededTotal(generatedAt: int)
    ensures var r := SeededVoteStats(SeededCounts, DefaultTopics, generatedAt);
            && (forall i, j :: 0 <= i < |r.topics| && 0 <= j < |r.topics[i].options| ==>
                  r.topics[i].options[j].overallVotes == SeededCounts[DefaultTopics[i].id][DefaultTopics[i].options[j].id].1)
            && r.totalVotes == 2370
  {
    var r := SeededVoteStats(SeededCounts, DefaultTopics, generatedAt);
    var t := r.topics;
    TwoOptions(t[0].options);
    TwoOptions(t[1].options);
    TwoOptions(t[2].options);
    ThreeTopics(t);
  }

  lemma TwoOptions(options: seq<OptionStats>)
    requires |options| == 2
    ensures OptionsOverall(options) == options[0].overallVotes + options[1].overallVotes
  {
    var one := options[..1];
    assert OptionsOverall(options) == OptionsOverall(one) + options[1].overallVotes;
    assert one[..0] == [] && one[0] == options[0];
    assert OptionsOverall(one) == OptionsOverall(one[..0]) + options[0].overallVotes;
  }

  lemma ThreeTopics(topics: seq<TopicStats>)
    requires |topics| == 3
    ensures TopicsOverall(topics) == OptionsOverall(topics[0].options) + OptionsOverall(topics[1].options) + OptionsOverall(topics[2].options)
  {
    var two := topics[..2];
    var one := two[..1];
    assert TopicsOverall(topics) == TopicsOverall(two) + OptionsOverall(topics[2].options);
    assert two[1] == topics[1] && one[0] == topics[0] && one[..0] == [];
    assert TopicsOverall(two) == TopicsOverall(one) + OptionsOverall(topics[1].options);
    assert TopicsOverall(one) == TopicsOverall(one[..0]) + OptionsOverall(topics[0].options);
  }

  // ---------------------------------------------------------------------------
  // The start of today in India Standard Time

  const MinuteMillis := 60000
  const DayMillis := 86400000
  const IstOffsetMinutes := 330
  const IstOffsetMillis := IstOffsetMinutes * MinuteMillis

  /**
   * `getStartOfTodayUtcIso`: shift to IST, truncate to the UTC midnight of
   * that shifted time, shift back.
   */
  function DayStart(now: int): (s: int)
    ensures s <= now < s + DayMillis
    ensures (s + IstOffsetMillis) % DayMillis == 0
  {
    var ist := now + IstOffsetMillis;
    var midnight := ist - ist % DayMillis;
    midnight - IstOffsetMillis
  }

  /** The day start is the only IST midnight in the day up to `now`. */
  lemma DayStartUnique(now: int, s: int)
    requires s <= now < s + DayMillis
    requires (s + IstOffsetMillis) % DayMillis == 0
    ensures s == DayStart(now)
  {
    var d := DayStart(now);
    var a := (s + IstOffsetMillis) / DayMillis;
    var b := (d + IstOffsetMillis) / DayMillis;
    assert s + IstOffsetMillis == a * DayMillis;
    assert d + IstOffsetMillis == b * DayMillis;
  }

  /** Two times share their day start exactly when they fall on the same IST day. */
  lemma SameDayStart(t: int, u: int)
    requires DayStart(t) <= u < DayStart(t) + DayMillis
    ensures DayStart(u) == DayStart(t)
  {
    DayStartUnique(u, DayStart(t));
  }

  // ---------------------------------------------------------------------------
  // Counting vote events

  datatype VoteEvent = VoteEvent(topic: string, optionId: string, createdAt: int)

  /** The count key `${topic}::${option}`. */
  function Key(topic: string, optionId: string): string {
    topic + "::" + optionId
  }

  /** Keys of topics without a ':' identify the topic and the option. */
  lemma KeyInjective(t1: string, o1: string, t2: string, o2: string)
    requires ':' !in t1 && ':' !in t2
    requires Key(t1, o1) == Key(t2, o2)
    ensures t1 == t2 && o1 == o2
  {
    var k := Key(t1, o1);
    assert k[|t1|] == ':' && k[|t2|] == ':';
    assert t1 == k[..|t1|] == t2;
    assert o1 == k[|t1| + 2..] == o2;
  }

  function EventKeys(events: seq<VoteEvent>): (keys: seq<string>)
    ensures |keys| == |events|
    ensures forall i :: 0 <= i < |events| ==> keys[i] == Key(events[i].topic, events[i].optionId)
  {
    if events == [] then []
    else EventKeys(events[..|events| - 1]) + [Key(events[|events| - 1].topic, events[|events| - 1].optionId)]
  }

  function Lookup(counts: map<string, int>, key: string): int {
    if key in counts then counts[key] else 0
  }

  /** The counts after the events, one increment per event of its key. */
  function Counts(events: seq<VoteEvent>): map<string, int>
    decreases |events|
  {
    if events == [] then map[]
    else
      var c := Counts(events[..|events| - 1]);
      var e := events[|events| - 1];
      var key := Key(e.topic, e.optionId);
      c[key := Lookup(c, key) + 1]
  }

  /** `aggregateVotes`: a Map from each key to its number of events, filled in a loop. */
  method AggregateVotes(events: seq<VoteEvent>) returns (counts: map<string, int>)
    ensures counts == Counts(events)
  {
    counts := map[];
    for n := 0 to |events|
      invariant counts == Counts(events[..n])
    {
      assert events[..n + 1][..n] == events[..n];
      var key := Key(events[n].topic, events[n].optionId);
      counts := counts[key := Lookup(counts, key) + 1];
    }
    assert events[..|events|] == events;
  }

  /**
   * The counts are the multiplicities of the events' keys: a key is present
   * exactly when some event has it, with its number of events; so the counts
   * add up to the number of events.
   */
  lemma {:induction false} CountsAreMultiplicities(events: seq<VoteEvent>, key: string)
    ensures key in Counts(events) <==> key in multiset(EventKeys(events))
    ensures Lookup(Counts(events), key) == multiset(EventKeys(events))[key]
    decreases |events|
  {
    if events != [] {
      var p := events[..|events| - 1];
      CountsAreMultiplicities(p, key);
      assert EventKeys(events) == EventKeys(p) + [EventKeys(events)[|events| - 1]];
    }
  }

  // ---------------------------------------------------------------------------
  // The statistics snapshot

  /** The events created at or after `since`, in order. */
  function Since(events: seq<VoteEvent>, since: int): (r: seq<VoteEvent>)
    ensures |r| <= |events|
    ensures forall e :: e in r <==> e in events && e.createdAt >= since
    decreases |events|
  {
    if events == [] then []
    else Since(events[..|events| - 1], since) + (if events[|events| - 1].createdAt >= since then [events[|events| - 1]] else [])
  }

  /** Every key of the events since a time is among the keys of all the events, as often at most. */
  lemma {:induction false} SinceKeysIncluded(events: seq<VoteEvent>, since: int)
    ensures multiset(EventKeys(Since(events, since))) <= multiset(EventKeys(events))
    decreases |events|
  {
    if events != [] {
      var p := events[..|events| - 1];
      var e := events[|events| - 1];
      SinceKeysIncluded(p, since);
      assert EventKeys(events) == EventKeys(p) + [Key(e.topic, e.optionId)];
      if e.createdAt >= since {
        assert EventKeys(Since(events, since)) == EventKeys(Since(p, since)) + [Key(e.topic, e.optionId)];
      } else {
        assert Since(events, since) == Since(p, since);
      }
    }
  }

  function OptionFromCounts(topicId: string, optionId: string, today: map<string, int>, overall: map<string, int>): OptionStats {
    OptionStats(optionId, Lookup(today, Key(topicId, optionId)), Lookup(overall, Key(topicId, optionId)))
  }

  function TopicFromCounts(topic: TopicDef, today: map<string, int>, overall: map<string, int>): (r: TopicStats)
    ensures r.topic == topic.id && |r.options| == |topic.options|
    ensures forall j :: 0 <= j < |topic.options| ==> r.options[j] == OptionFromCounts(topic.id, topic.options[j].id, today, overall)
  {
    TopicStats(topic.id, seq(|topic.options|, j requires 0 <= j < |topic.options| => OptionFromCounts(topic.id, topic.options[j].id, today, overall)))
  }

  /** The snapshot `getPubVoteStats` builds from the pub's events, newest first. */
  function StatsOf(topics: seq<TopicDef>, events: seq<VoteEvent>, dayStart: int): (r: Snapshot)
    ensures |r.topics| == |topics|
    ensures forall i :: 0 <= i < |topics| ==> r.topics[i] == TopicFromCounts(topics[i], Counts(Since(events, dayStart)), Counts(events))
    ensures r.totalVotes == |events|
    ensures r.lastUpdated.None? <==> events == []
  {
    var today := Counts(Since(events, dayStart));
    var overall := Counts(events);
    Snapshot(seq(|topics|, i requires 0 <= i < |topics| => TopicFromCounts(topics[i], today, overall)),
             |events|, if events == [] then None else Some(events[0].createdAt))
  }

  /**
   * Each option of the snapshot counts the events with its key overall and
   * since the day start, so there are never more today than overall, and an
   * option without events has none.
   */
  lemma StatsOfCounts(topics: seq<TopicDef>, events: seq<VoteEvent>, dayStart: int, i: nat, j: nat)
    requires i < |topics| && j < |topics[i].options|
    ensures var o := StatsOf(topics, events, dayStart).topics[i].options[j];
            var key := Key(topics[i].id, topics[i].options[j].id);
            && o.overallVotes == multiset(EventKeys(events))[key]
            && o.todayVotes == multiset(EventKeys(Since(events, dayStart)))[key]
            && 0 <= o.todayVotes <= o.overallVotes
  {
    var key := Key(topics[i].id, topics[i].options[j].id);
    CountsAreMultiplicities(events, key);
    CountsAreMultiplicities(Since(events, dayStart), key);
    SinceKeysIncluded(events, dayStart);
  }

  /** Events sorted newest first, as the query orders them. */
  predicate NewestFirst(events: seq<VoteEvent>) {
    forall i, j :: 0 <= i < j < |events| ==> events[i].createdAt >= events[j].createdAt
  }

  /** For events newest first, `lastUpdated` is the newest creation time. */
  lemma LastUpdatedIsNewest(topics: seq<TopicDef>, events: seq<VoteEvent>, dayStart: int)
    requires NewestFirst(events) && events != []
    ensures var t := StatsOf(topics, events, dayStart).lastUpdated;
            t.Some? && (exists e :: e in events && e.createdAt == t.value)
            && forall e :: e in events ==> e.createdAt <= t.value
  {
    assert events[0] in events;
  }

  /**
   * `getPubVoteStats`: null without a backend, the query's failure as an
   * error, else the snapshot of the events with today's counts taken since
   * the IST day start.
   */
  method GetPubVoteStats(topics: seq<TopicDef>, backend: bool, query: Result<seq<VoteEvent>>, now: int)
    returns (r: Result<Option<Snapshot>>)
    ensures !backend ==> r == Ok(None)
    ensures backend && query.Err? ==> r == Err(query.message)
    ensures backend && query.Ok? ==> r == Ok(Some(StatsOf(topics, query.value, DayStart(now))))
  {
    if !backend {
      return Ok(None);
    }
    if query.Err? {
      return Err(query.message);
    }
    var data := query.value;
    var startOfToday := DayStart(now);
    var todayCounts := AggregateVotes(Since(data, startOfToday));
    var overallCounts := AggregateVotes(data);
    var topicsStats := seq(|topics|, i requires 0 <= i < |topics| => TopicFromCounts(topics[i], todayCounts, overallCounts));
    var lastUpdated := if data == [] then None else Some(data[0].createdAt);
    return Ok(Some(Snapshot(topicsStats, |data|, lastUpdated)));
  }

  // ---------------------------------------------------------------------------
  // Recording a vote

  datatype StoredVote = StoredVote(pubId: string, topic: string, optionId: string, voterToken: string, createdAt: int)

  /** The stored votes of one voter on one topic of one pub since a time. */
  function VotesSince(votes: seq<StoredVote>, pubId: string, topic: string, voterToken: string, since: int): (r: nat)
    ensures r <= |votes|
    decreases |votes|
  {
    if votes == [] then 0
    else
      var v := votes[|votes| - 1];
      VotesSince(votes[..|votes| - 1], pubId, topic, voterToken, since)
        + (if v.pubId == pubId && v.topic == topic && v.voterToken == voterToken && v.createdAt >= since then 1 else 0)
  }

  /**
   * The reply of `recordPubVote` (whether the voter had already voted) and
   * the votes afterwards. The look-up asks for at most one row: with exactly
   * one earlier vote today the voter has already voted; with none, or with
   * several (which the look-up reports as an error code the code ignores),
   * a new vote is inserted.
   */
  function RecordOutcome(votes: seq<StoredVote>, pubId: string, topic: string, optionId: string, voterToken: string,
                         configured: bool, now: int, lookupFailure: Option<string>, insertFailure: Option<string>)
    : (Result<bool>, seq<StoredVote>)
  {
    if Trim(voterToken) == "" then (Err("Voter token is required"), votes)
    else if !configured then (Err("Supabase is not configured"), votes)
    else if lookupFailure.Some? then (Err(lookupFailure.value), votes)
    else if VotesSince(votes, pubId, topic, voterToken, DayStart(now)) == 1 then (Ok(true), votes)
    else if insertFailure.Some? then (Err(insertFailure.value), votes)
    else (Ok(false), votes + [StoredVote(pubId, topic, optionId, voterToken, now)])
  }

  /** The pub vote table. */
  class VoteStore {
    var votes: seq<StoredVote>

    constructor ()
      ensures votes == []
    {
      votes := [];
    }

    /**
     * `recordPubVote`: check the token and the backend, look for today's
     * vote by this voter on this topic, and insert one if there is none.
     */
    method RecordPubVote(pubId: string, topic: string, optionId: string, voterToken: string,
                         configured: bool, now: int, lookupFailure: Option<string>, insertFailure: Option<string>)
      returns (r: Result<bool>)
      modifies this
      ensures (r, votes) == RecordOutcome(old(votes), pubId, topic, optionId, voterToken, configured, now, lookupFailure, insertFailure)
    {
      if Trim(voterToken) == "" {
        return Err("Voter token is required");
      }
      if !configured {
        return Err("Supabase is not configured");
      }
      var dayStartIso := DayStart(now);
      if lookupFailure.Some? {
        return Err(lookupFailure.value);
      }
      var existing := VotesSince(votes, pubId, topic, voterToken, dayStartIso);
      if existing == 1 {
        return Ok(true);
      }
      if insertFailure.Some? {
        return Err(insertFailure.value);
      }
      votes := votes + [StoredVote(pubId, topic, optionId, voterToken, now)];
      return Ok(false);
    }
  }

  lemma VotesSinceAppend(votes: seq<StoredVote>, v: StoredVote, pubId: string, topic: string, voterToken: string, since: int)
    ensures VotesSince(votes + [v], pubId, topic, voterToken, since)
            == VotesSince(votes, pubId, topic, voterToken, since)
               + (if v.pubId == pubId && v.topic == topic && v.voterToken == voterToken && v.createdAt >= since then 1 else 0)
  {
    assert (votes + [v])[..|votes|] == votes;
  }

  /**
   * A vote is inserted exactly when the request is accepted as a first vote;
   * a voter with at most one vote today on a topic still has at most one
   * afterwards, and a first vote leaves exactly one.
   */
  lemma OneVotePerTopicPerDay(votes: seq<StoredVote>, pubId: string, topic: string, optionId: string, voterToken: string,
                              configured: bool, now: int, lookupFailure: Option<string>, insertFailure: Option<string>)
    requires VotesSince(votes, pubId, topic, voterToken, DayStart(now)) <= 1
    ensures var (r, after) := RecordOutcome(votes, pubId, topic, optionId, voterToken, configured, now, lookupFailure, insertFailure);
            && VotesSince(after, pubId, topic, voterToken, DayStart(now)) <= 1
            && (after != votes <==> r == Ok(false))
            && (r == Ok(false) ==> VotesSince(votes, pubId, topic, voterToken, DayStart(now)) == 0
                                   && VotesSince(after, pubId, topic, voterToken, DayStart(now)) == 1)
            && (r == Ok(true) <==> Trim(voterToken) != "" && configured && lookupFailure.None?
                                   && VotesSince(votes, pubId, topic, voterToken, DayStart(now)) == 1)
  {
    var v := StoredVote(pubId, topic, optionId, voterToken, now);
    VotesSinceAppend(votes, v, pubId, topic, voterToken, DayStart(now));
    assert |votes + [v]| != |votes|;
  }

  /** Requests that are turned away change nothing and say why. */
  lemma RejectedRequests(votes: seq<StoredVote>, pubId: string, topic: string, optionId: string, voterToken: string,
                         configured: bool, now: int, lookupFailure: Option<string>, insertFailure: Option<string>)
    ensures var (r, after) := RecordOutcome(votes, pubId, topic, optionId, voterToken, configured, now, lookupFailure, insertFailure);
            && (Trim(voterToken) == "" ==> r == Err("Voter token is required") && after == votes)
            && (Trim(voterToken) != "" && !configured ==> r == Err("Supabase is not configured") && after == votes)
            && (r.Err? ==> after == votes)
  {
  }
}
