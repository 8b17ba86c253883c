/**
 * The vote chips: a row of options, one of which the visitor may select
 * (remembered in session storage), shown with its count raised by the
 * visitor's own vote, the leading options highlighted, and a one-line
 * summary per option.
 */
module VoteChips {
  import opened Wrappers
  import opened Text

  datatype ChipOption = ChipOption(id: string, caption: string, count: int)

  /** `option.count + (selectedId === option.id ? 1 : 0)`. */
  function DisplayCount(option: ChipOption, selected: Option<string>): int {
    option.count + (if selected == Some(option.id) then 1 else 0)
  }

  function DisplayCounts(options: seq<ChipOption>, selected: Option<string>): (r: seq<int>)
    ensures |r| == |options|
    ensures forall k :: 0 <= k < |options| ==> r[k] == DisplayCount(options[k], selected)
  {
    seq(|options|, k requires 0 <= k < |options| => DisplayCount(options[k], selected))
  }

  /** The visitor's own vote shows on the selected option and nowhere else. */
  lemma DisplayCountsSelected(options: seq<ChipOption>, selected: Option<string>, k: nat)
    requires k < |options|
    ensures DisplayCounts(options, selected)[k] == options[k].count + 1 <==> selected == Some(options[k].id)
    ensures selected != Some(options[k].id) ==> DisplayCounts(options, selected)[k] == options[k].count
  {
  }

  /** The sum of the displayed counts. */
  function DisplaySum(options: seq<ChipOption>, selected: Option<string>): int
    decreases |options|
  {
    if options == [] then 0 else DisplaySum(options[..|options| - 1], selected) + DisplayCount(options[|options| - 1], selected)
  }

  /** The sum of the stored counts. */
  function CountSum(options: seq<ChipOption>): int
    decreases |options|
  {
    if options == [] then 0 else CountSum(options[..|options| - 1]) + options[|options| - 1].count
  }

  /** The number of options with the selected id. */
  function Hits(options: seq<ChipOption>, selected: Option<string>): nat
    decreases |options|
  {
    if options == [] then 0
    else Hits(options[..|options| - 1], selected) + (if selected == Some(options[|options| - 1].id) then 1 else 0)
  }

  predicate DistinctIds(options: seq<ChipOption>) {
    forall a, b :: 0 <= a < b < |options| ==> options[a].id != options[b].id
  }

  /** The displayed counts add one to the stored counts for every option with the selected id. */
  lemma {:induction false} DisplaySumHits(options: seq<ChipOption>, selected: Option<string>)
    ensures DisplaySum(options, selected) == CountSum(options) + Hits(options, selected)
    decreases |options|
  {
    if options != [] {
      DisplaySumHits(options[..|options| - 1], selected);
    }
  }

  /** With distinct ids the selection hits one option if any has its id, else none. */
  lemma {:induction false} HitsAtMostOne(options: seq<ChipOption>, selected: Option<string>)
    requires DistinctIds(options)
    ensures Hits(options, selected) == (if exists k :: 0 <= k < |options| && selected == Some(options[k].id) then 1 else 0)
    decreases |options|
  {
    if options != [] {
      var n := |options| - 1;
      var p := options[..n];
      assert forall k :: 0 <= k < |p| ==> p[k] == options[k];
      HitsAtMostOne(p, selected);
      if exists k :: 0 <= k < |options| && selected == Some(options[k].id) {
        var k :| 0 <= k < |options| && selected == Some(options[k].id);
        if k < n {
          assert selected == Some(p[k].id);
        }
      }
    }
  }

  /** So with distinct ids the visitor's vote adds exactly one to the displayed total when it selects an option. */
  lemma DisplayTotal(options: seq<ChipOption>, selected: Option<string>)
    requires DistinctIds(options)
    ensures DisplaySum(options, selected) ==
              CountSum(options) + (if exists k :: 0 <= k < |options| && selected == Some(options[k].id) then 1 else 0)
  {
    DisplaySumHits(options, selected);
    HitsAtMostOne(options, selected);
  }

  /** `Math.max(...displayCounts)`, none for no options (where JavaScript gives −Infinity). */
  function MaxCount(counts: seq<int>): (m: Option<int>)
    ensures m.None? <==> counts == []
    ensures m.Some? ==> (exists k :: 0 <= k < |counts| && counts[k] == m.value)
                        && forall k :: 0 <= k < |counts| ==> counts[k] <= m.value
    decreases |counts|
  {
    if counts == [] then None
    else
      var rest := MaxCount(counts[..|counts| - 1]);
      var last := counts[|counts| - 1];
      if rest.None? || last > rest.value then Some(last) else rest
  }

  /** `isLeader`: the displayed count equals the maximum and is positive. */
  predicate IsLeader(options: seq<ChipOption>, selected: Option<string>, k: nat)
    requires k < |options|
  {
    var counts := DisplayCounts(options, selected);
    MaxCount(counts) == Some(counts[k]) && counts[k] > 0
  }

  /** An option leads exactly when no option shows more and it shows at least one vote. */
  lemma LeaderIff(options: seq<ChipOption>, selected: Option<string>, k: nat)
    requires k < |options|
    ensures IsLeader(options, selected, k) <==>
              DisplayCount(options[k], selected) > 0
              && forall j :: 0 <= j < |options| ==> DisplayCount(options[j], selected) <= DisplayCount(options[k], selected)
  {
    var counts := DisplayCounts(options, selected);
    var m := MaxCount(counts);
    if forall j :: 0 <= j < |options| ==> counts[j] <= counts[k] {
      var w :| 0 <= w < |counts| && counts[w] == m.value;
    }
  }

  /** "person" for exactly one voter, "people" otherwise. */
  function Noun(count: int): (r: string)
    ensures r == "person" <==> count == 1
  {
    if count == 1 then "person" else "people"
  }

  /** The summary line `${count} ${noun} voted ${label.toLowerCase()} today`. */
  function SummaryLine(option: ChipOption, selected: Option<string>): (r: string)
    ensures IsPrefix(IntToString(DisplayCount(option, selected)) + " " + Noun(DisplayCount(option, selected)), r)
  {
    var count := DisplayCount(option, selected);
    IntToString(count) + " " + Noun(count) + " voted " + Lower(option.caption) + " today"
  }

  /** Voting for the selected option clears the selection; voting for any other selects it. */
  function Toggle(current: Option<string>, optionId: string): (r: Option<string>)
    ensures r == None <==> current == Some(optionId)
    ensures r != None ==> r == Some(optionId)
  {
    if current == Some(optionId) then None else Some(optionId)
  }

  /** Voting twice for the same option undoes the first vote when nothing else was selected. */
  lemma ToggleTwice(current: Option<string>, optionId: string)
    requires current == None || current == Some(optionId)
    ensures Toggle(Toggle(current, optionId), optionId) == current
  {
  }

  /** What `onVote` is told: "reset" when the selection is cleared, else the option. */
  function Reported(current: Option<string>, optionId: string): (r: string)
    ensures r == "reset" || r == optionId
    ensures current != Some(optionId) ==> r == optionId
  {
    if current == Some(optionId) then "reset" else optionId
  }

  /** A selection restored from storage: only an id that one of the options has. */
  function Restored(stored: Option<string>, options: seq<ChipOption>): (r: Option<string>)
    ensures r.Some? <==> stored.Some? && stored.value != "" && exists k :: 0 <= k < |options| && options[k].id == stored.value
    ensures r.Some? ==> r == stored
  {
    if stored.Some? && stored.value != "" && exists k :: 0 <= k < |options| && options[k].id == stored.value then stored else None
  }

  /** The chips' selection and the browser's session storage. */
  class Chips {
    var selectedId: Option<string>
    var storage: map<string, string>

    constructor (storage0: map<string, string>)
      ensures selectedId == None && storage == storage0
    {
      selectedId := None;
      storage := storage0;
    }

    /** The restoring effect: select the stored id if an option has it, else nothing. */
    method Restore(storageKey: string, options: seq<ChipOption>)
      modifies this
      ensures selectedId == Restored(if storageKey in old(storage) then Some(old(storage)[storageKey]) else None, options)
      ensures storage == old(storage)
    {
      var stored := if storageKey in storage then Some(storage[storageKey]) else None;
      selectedId := Restored(stored, options);
    }

    /** `handleVote`: toggle the selection, keep it in storage (or remove it), and report it. */
    method HandleVote(storageKey: string, optionId: string) returns (reported: string)
      modifies this
      ensures selectedId == Toggle(old(selectedId), optionId)
      ensures reported == Reported(old(selectedId), optionId)
      ensures selectedId.None? ==> storage == old(storage) - {storageKey}
      ensures selectedId.Some? ==> storage == old(storage)[storageKey := optionId]
    {
      if selectedId == Some(optionId) {
        storage := storage - {storageKey};
        selectedId := None;
        return "reset";
      }
      storage := storage[storageKey := optionId];
      selectedId := Some(optionId);
      return optionId;
    }
  }
}
