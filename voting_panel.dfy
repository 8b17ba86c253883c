/**
 * The pub voting panel: the per-topic summary (leading option and its share
 * of today's votes), the total shown for the chosen view, the leaders and
 * button state of each topic card, the restoring of today's vote locks from
 * browser storage, and the effect of casting a vote.
 */
module VotingPanel {
  import opened Wrappers
  import opened Text
  import opened Votes

  datatype ViewMode = Today | Overall

  function Count(o: OptionStats, mode: ViewMode): int {
    if mode == Today then o.todayVotes else o.overallVotes
  }

  /** `options.reduce((sum, option) => sum + count, 0)` for the view. */
  function ModeTotal(options: seq<OptionStats>, mode: ViewMode): int
    decreases |options|
  {
    if options == [] then 0 else ModeTotal(options[..|options| - 1], mode) + Count(options[|options| - 1], mode)
  }

  predicate NonNegative(options: seq<OptionStats>) {
    forall k :: 0 <= k < |options| ==> 0 <= options[k].todayVotes <= options[k].overallVotes
  }

  // ---------------------------------------------------------------------------
  // The summary

  /**
   * The index of the summary leader: the reduce keeps the first option and
   * replaces it only by one with strictly more votes today.
   */
  function LeaderIndex(options: seq<OptionStats>): (k: nat)
    requires options != []
    ensures k < |options|
    decreases |options|
  {
    if |options| == 1 then 0
    else
      var k := LeaderIndex(options[..|options| - 1]);
      if options[|options| - 1].todayVotes > options[k].todayVotes then |options| - 1 else k
  }

  /** The summary leader has the most votes today, and it is the first option that does. */
  lemma {:induction false} LeaderIsFirstMaximum(options: seq<OptionStats>)
    requires options != []
    ensures forall j :: 0 <= j < |options| ==> options[j].todayVotes <= options[LeaderIndex(options)].todayVotes
    ensures forall j :: 0 <= j < LeaderIndex(options) ==> options[j].todayVotes < options[LeaderIndex(options)].todayVotes
    decreases |options|
  {
    if |options| > 1 {
      var p := options[..|options| - 1];
      LeaderIsFirstMaximum(p);
      assert forall j :: 0 <= j < |p| ==> p[j] == options[j];
    }
  }

  /** `topics.find((topic) => topic.id === id)`. */
  function FindTopic(topics: seq<TopicDef>, id: string): (r: Option<TopicDef>)
    ensures r.Some? ==> r.value in topics && r.value.id == id
    ensures r.None? ==> forall t :: t in topics ==> t.id != id
  {
    if topics == [] then None else if topics[0].id == id then Some(topics[0]) else FindTopic(topics[1..], id)
  }

  function FindOption(options: seq<OptionDef>, id: string): (r: Option<OptionDef>)
    ensures r.Some? ==> r.value in options && r.value.id == id
    ensures r.None? ==> forall o :: o in options ==> o.id != id
  {
    if options == [] then None else if options[0].id == id then Some(options[0]) else FindOption(options[1..], id)
  }

  datatype SummaryItem = SummaryItem(id: string, title: string, leaderLabel: string, votes: int, pct: int)

  /** The leader's share of today's votes in percent, 0 without votes today. */
  function LeaderPct(options: seq<OptionStats>): int {
    var total := ModeTotal(options, Today);
    if total > 0 && options != [] then JsRound((options[LeaderIndex(options)].todayVotes as real) / (total as real) * 100.0) else 0
  }

  /** One summary item: the topic's title, the leader's label and votes, and its share. */
  function Summarize(topics: seq<TopicDef>, stat: TopicStats): (r: SummaryItem)
    ensures r.id == stat.topic
    ensures stat.options == [] ==> r.votes == 0 && r.pct == 0
    ensures stat.options != [] ==> r.votes == stat.options[LeaderIndex(stat.options)].todayVotes
  {
    var meta := FindTopic(topics, stat.topic);
    var title := if meta.Some? then meta.value.title else stat.topic;
    if stat.options == [] then SummaryItem(stat.topic, title, "—", 0, 0)
    else
      var leader := stat.options[LeaderIndex(stat.options)];
      var leaderLabel := if meta.Some? && FindOption(meta.value.options, leader.optionId).Some?
                   then FindOption(meta.value.options, leader.optionId).value.caption
                   else leader.optionId;
      SummaryItem(stat.topic, title, leaderLabel, leader.todayVotes, LeaderPct(stat.options))
  }

  /** The summary of every topic in the stats, none without stats. */
  function Summary(topics: seq<TopicDef>, stats: Option<Snapshot>): (r: seq<SummaryItem>)
    ensures stats.None? ==> r == []
    ensures stats.Some? ==> |r| == |stats.value.topics|
    ensures stats.Some? ==> forall i :: 0 <= i < |r| ==> r[i] == Summarize(topics, stats.value.topics[i])
  {
    if stats.None? then []
    else seq(|stats.value.topics|, i requires 0 <= i < |stats.value.topics| => Summarize(topics, stats.value.topics[i]))
  }

  /** Each option's count is part of the total of non-negative counts. */
  lemma {:induction false} CountWithinTotal(options: seq<OptionStats>, mode: ViewMode, k: nat)
    requires NonNegative(options) && k < |options|
    ensures 0 <= Count(options[k], mode) <= ModeTotal(options, mode)
    decreases |options|
  {
    var p := options[..|options| - 1];
    assert forall j :: 0 <= j < |p| ==> p[j] == options[j];
    TotalNonNegative(p, mode);
    if k < |p| {
      CountWithinTotal(p, mode, k);
    }
  }

  lemma {:induction false} TotalNonNegative(options: seq<OptionStats>, mode: ViewMode)
    requires NonNegative(options)
    ensures ModeTotal(options, mode) >= 0
    decreases |options|
  {
    if options != [] {
      var p := options[..|options| - 1];
      assert forall j :: 0 <= j < |p| ==> p[j] == options[j];
      TotalNonNegative(p, mode);
    }
  }

  lemma RoundPercent(x: real)
    requires 0.0 <= x <= 100.0
    ensures 0 <= JsRound(x) <= 100
  {
  }

  /**
   * The summary share is 0 when nobody voted today; with non-negative counts
   * it is a percentage between 0 and 100.
   */
  lemma LeaderPctBounds(options: seq<OptionStats>)
    requires NonNegative(options)
    ensures ModeTotal(options, Today) == 0 ==> LeaderPct(options) == 0
    ensures 0 <= LeaderPct(options) <= 100
  {
    var total := ModeTotal(options, Today);
    if total > 0 && options != [] {
      var v := options[LeaderIndex(options)].todayVotes;
      CountWithinTotal(options, Today, LeaderIndex(options));
      ShareBounds(v, total);
      RoundPercent((v as real) / (total as real) * 100.0);
    }
  }

  lemma ShareBounds(v: int, total: int)
    requires 0 <= v <= total && total > 0
    ensures 0.0 <= (v as real) / (total as real) <= 1.0
  {
    var q := (v as real) / (total as real);
    assert q * (total as real) == v as real;
  }

  // ---------------------------------------------------------------------------
  // Totals and topic cards

  /** `totalVotes`: the chosen view's counts over all topics, 0 without stats. */
  function TotalVotes(stats: Option<Snapshot>, mode: ViewMode): int {
    if stats.None? then 0 else TopicsTotal(stats.value.topics, mode)
  }

  function TopicsTotal(topics: seq<TopicStats>, mode: ViewMode): int
    decreases |topics|
  {
    if topics == [] then 0 else TopicsTotal(topics[..|topics| - 1], mode) + ModeTotal(topics[|topics| - 1].options, mode)
  }

  lemma {:induction false} ModeTotalOverall(options: seq<OptionStats>)
    ensures ModeTotal(options, Overall) == OptionsOverall(options)
    decreases |options|
  {
    if options != [] {
      ModeTotalOverall(options[..|options| - 1]);
    }
  }

  lemma {:induction false} ModeTotalTodayAtMost(options: seq<OptionStats>)
    requires NonNegative(options)
    ensures ModeTotal(options, Today) <= ModeTotal(options, Overall)
    decreases |options|
  {
    if options != [] {
      var p := options[..|options| - 1];
      assert forall j :: 0 <= j < |p| ==> p[j] == options[j];
      ModeTotalTodayAtMost(p);
    }
  }

  /**
   * The overall total is the sum the seeded statistics report, and with
   * non-negative counts no more votes are shown for today than overall.
   */
  lemma {:induction false} TotalVotesModes(topics: seq<TopicStats>)
    requires forall i :: 0 <= i < |topics| ==> NonNegative(topics[i].options)
    ensures TopicsTotal(topics, Overall) == TopicsOverall(topics)
    ensures TopicsTotal(topics, Today) <= TopicsTotal(topics, Overall)
    decreases |topics|
  {
    if topics != [] {
      var p := topics[..|topics| - 1];
      assert forall j :: 0 <= j < |p| ==> p[j] == topics[j];
      TotalVotesModes(p);
      ModeTotalOverall(topics[|topics| - 1].options);
      ModeTotalTodayAtMost(topics[|topics| - 1].options);
    }
  }

  /** A card flags an option as leader when its count is at least every option's count in the view. */
  predicate CardLeader(options: seq<OptionStats>, k: nat, mode: ViewMode)
    requires k < |options|
  {
    forall j :: 0 <= j < |options| ==> Count(options[k], mode) >= Count(options[j], mode)
  }

  /**
   * All options tied at the maximum are card leaders, the summary leader is
   * one of them in today's view, and an option with fewer votes than another
   * is not.
   */
  lemma CardLeadersAreTies(options: seq<OptionStats>, k: nat, j: nat)
    requires k < |options| && j < |options|
    requires CardLeader(options, k, Today)
    ensures CardLeader(options, j, Today) <==> options[j].todayVotes == options[k].todayVotes
    ensures CardLeader(options, LeaderIndex(options), Today)
  {
    LeaderIsFirstMaximum(options);
  }

  /** Boolean(locks[topic]): a stored, non-empty lock. */
  predicate Locked(locks: map<string, string>, topic: string) {
    topic in locks && locks[topic] != ""
  }

  /** An option's button is disabled while its topic is submitting, when voting is offline, or once the topic is locked. */
  predicate Disabled(topic: string, loadingTopic: Option<string>, enabled: bool, locks: map<string, string>) {
    loadingTopic == Some(topic) || !enabled || Locked(locks, topic)
  }

  function ButtonLabel(topic: string, loadingTopic: Option<string>, enabled: bool, locks: map<string, string>): (r: string)
    ensures r == "Vote" <==> !Disabled(topic, loadingTopic, enabled, locks)
    ensures r == "Submitting..." <==> loadingTopic == Some(topic)
  {
    if loadingTopic == Some(topic) then "Submitting..."
    else if !enabled then "Voting offline"
    else if Locked(locks, topic) then "Voted today"
    else "Vote"
  }

  // ---------------------------------------------------------------------------
  // Vote locks

  const LockPrefix := "pubs-vote-lock:"

  function LockKey(pubSlug: string, topicId: string): string {
    LockPrefix + pubSlug + ":" + topicId
  }

  /** A stored lock is kept when it is non-empty and falls on today's date. */
  predicate Fresh(stored: Option<string>, today: string, dateString: string -> string) {
    stored.Some? && stored.value != "" && dateString(stored.value) == today
  }

  /** A stored lock is removed when it is non-empty but from another day. */
  predicate Stale(stored: Option<string>, today: string, dateString: string -> string) {
    stored.Some? && stored.value != "" && dateString(stored.value) != today
  }

  function Stored(storage: map<string, string>, key: string): Option<string> {
    if key in storage then Some(storage[key]) else None
  }

  /** The locks restored for the topics, later topics overriding earlier ones with the same id. */
  function HydratedLocks(storage: map<string, string>, pubSlug: string, topics: seq<TopicDef>,
                         today: string, dateString: string -> string): map<string, string>
    decreases |topics|
  {
    if topics == [] then map[]
    else
      var locks := HydratedLocks(storage, pubSlug, topics[..|topics| - 1], today, dateString);
      var t := topics[|topics| - 1];
      var stored := Stored(storage, LockKey(pubSlug, t.id));
      if Fresh(stored, today, dateString) then locks[t.id := stored.value] else locks
  }

  /** The storage keys of the topics' stale locks. */
  function StaleKeys(storage: map<string, string>, pubSlug: string, topics: seq<TopicDef>,
                     today: string, dateString: string -> string): set<string>
  {
    set t | t in topics && Stale(Stored(storage, LockKey(pubSlug, t.id)), today, dateString) :: LockKey(pubSlug, t.id)
  }

  /**
   * A topic is locked after hydration exactly when its stored lock is from
   * today, and then with the stored value; nothing else is locked.
   */
  lemma {:induction false} HydratedLocksSpec(storage: map<string, string>, pubSlug: string, topics: seq<TopicDef>,
                                             today: string, dateString: string -> string, id: string)
    ensures id in HydratedLocks(storage, pubSlug, topics, today, dateString) <==>
              (exists t :: t in topics && t.id == id) && Fresh(Stored(storage, LockKey(pubSlug, id)), today, dateString)
    ensures id in HydratedLocks(storage, pubSlug, topics, today, dateString) ==>
              HydratedLocks(storage, pubSlug, topics, today, dateString)[id] == storage[LockKey(pubSlug, id)]
    decreases |topics|
  {
    if topics != [] {
      var p := topics[..|topics| - 1];
      HydratedLocksSpec(storage, pubSlug, p, today, dateString, id);
      assert forall t :: t in topics <==> t in p || t == topics[|topics| - 1];
    }
  }

  /** The panel's client state and the browser's local storage. */
  class Panel {
    var stats: Option<Snapshot>
    var lastUpdated: Option<int>
    var loadingTopic: Option<string>
    var errorMessage: Option<string>
    var locks: map<string, string>
    var storage: map<string, string>

    constructor (initialStats: Option<Snapshot>, storage0: map<string, string>)
      ensures stats == initialStats && lastUpdated == (if initialStats.Some? then initialStats.value.lastUpdated else None)
      ensures loadingTopic == None && errorMessage == None && locks == map[] && storage == storage0
    {
      stats := initialStats;
      lastUpdated := if initialStats.Some? then initialStats.value.lastUpdated else None;
      loadingTopic := None;
      errorMessage := None;
      locks := map[];
      storage := storage0;
    }

    /**
     * The lock hydration effect: keep each topic's lock from today, remove
     * the stored locks from other days, and replace the locks.
     */
    method HydrateLocks(pubSlug: string, topics: seq<TopicDef>, today: string, dateString: string -> string)
      modifies this
      ensures locks == HydratedLocks(old(storage), pubSlug, topics, today, dateString)
      ensures storage == old(storage) - StaleKeys(old(storage), pubSlug, topics, today, dateString)
      ensures stats == old(stats) && lastUpdated == old(lastUpdated)
      ensures loadingTopic == old(loadingTopic) && errorMessage == old(errorMessage)
    {
      var nextLocks: map<string, string> := map[];
      ghost var original := storage;
      for n := 0 to |topics|
        invariant nextLocks == HydratedLocks(original, pubSlug, topics[..n], today, dateString)
        invariant storage == original - StaleKeys(original, pubSlug, topics[..n], today, dateString)
        invariant stats == old(stats) && lastUpdated == old(lastUpdated)
        invariant loadingTopic == old(loadingTopic) && errorMessage == old(errorMessage)
      {
        var topic := topics[n];
        assert topics[..n + 1][..n] == topics[..n];
        assert forall t :: t in topics[..n + 1] <==> t in topics[..n] || t == topic;
        var key := LockKey(pubSlug, topic.id);
        var stored := Stored(storage, key);
        StoredUnlessRemoved(original, pubSlug, topics[..n], today, dateString, topic);
        if stored.None? || stored.value == "" {
          continue;
        }
        if dateString(stored.value) == today {
          nextLocks := nextLocks[topic.id := stored.value];
        } else {
          storage := storage - {key};
        }
      }
      assert topics[..|topics|] == topics;
      locks := nextLocks;
    }

    /**
     * `handleVote`: offline or without a voter token only an error is shown;
     * otherwise the vote is sent and its reply applied: new stats when there
     * are any, and a lock for the topic (kept in storage) unless the voter
     * had already voted; a failed request shows its message.
     */
    method HandleVote(pubSlug: string, topicId: string, enabled: bool, voterToken: Option<string>,
                      reply: Result<VoteReply>, nowIso: string, nowMillis: int)
      returns (sent: bool)
      modifies this
      ensures sent <==> enabled && voterToken.Some? && voterToken.value != ""
      ensures !enabled ==> errorMessage == Some("Voting backend is offline right now.")
      ensures enabled && !sent ==> errorMessage == Some("Unable to initialise voting session. Please refresh.")
      ensures !sent ==> stats == old(stats) && locks == old(locks) && storage == old(storage)
                        && loadingTopic == old(loadingTopic) && lastUpdated == old(lastUpdated)
      ensures sent ==> loadingTopic == None
      ensures sent && reply.Err? ==> errorMessage == Some(reply.message) && stats == old(stats)
                                     && locks == old(locks) && storage == old(storage) && lastUpdated == old(lastUpdated)
      ensures sent && reply.Ok? ==> errorMessage == None
      ensures sent && reply.Ok? ==> stats == (if reply.value.stats.Some? then reply.value.stats else old(stats))
      ensures sent && reply.Ok? ==> lastUpdated == (if reply.value.stats.None? then old(lastUpdated)
                                                    else Some(reply.value.stats.value.lastUpdated.GetOr(nowMillis)))
      ensures sent && reply.Ok? && !reply.value.alreadyVoted ==>
                locks == old(locks)[topicId := nowIso] && storage == old(storage)[LockKey(pubSlug, topicId) := nowIso]
      ensures sent && reply.Ok? && reply.value.alreadyVoted ==> locks == old(locks) && storage == old(storage)
    {
      if !enabled {
        errorMessage := Some("Voting backend is offline right now.");
        return false;
      }
      if voterToken.None? || voterToken.value == "" {
        errorMessage := Some("Unable to initialise voting session. Please refresh.");
        return false;
      }
      loadingTopic := Some(topicId);
      errorMessage := None;
      match reply {
        case Err(message) =>
          errorMessage := Some(message);
        case Ok(payload) =>
          if payload.stats.Some? {
            stats := payload.stats;
            lastUpdated := Some(payload.stats.value.lastUpdated.GetOr(nowMillis));
          }
          if !payload.alreadyVoted {
            storage := storage[LockKey(pubSlug, topicId) := nowIso];
            locks := locks[topicId := nowIso];
          }
      }
      loadingTopic := None;
      return true;
    }
  }

  /** The vote endpoint's reply: the refreshed stats, if any, and whether the voter had already voted. */
  datatype VoteReply = VoteReply(stats: Option<Snapshot>, alreadyVoted: bool)

  /** A storage key not yet removed still holds its original value. */
  lemma StoredUnlessRemoved(original: map<string, string>, pubSlug: string, done: seq<TopicDef>,
                            today: string, dateString: string -> string, topic: TopicDef)
    ensures LockKey(pubSlug, topic.id) !in StaleKeys(original, pubSlug, done, today, dateString) ==>
              Stored(original - StaleKeys(original, pubSlug, done, today, dateString), LockKey(pubSlug, topic.id))
              == Stored(original, LockKey(pubSlug, topic.id))
  {
  }
}
