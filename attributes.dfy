/**
 * The attribute registry: the 29 attribute definitions with their tier and
 * declared data type, and the by-code lookup built from them.
 */
module AttributeRegistry {
  import opened Wrappers

  /** The seven declared attribute data types. */
  datatype DataType = Boolean | TagSet | Text | Integer | IntegerRange | Rating | Schedule

  /** The data type's name as stored in the `attributes.data_type` column. */
  function DataTypeName(t: DataType): string {
    match t
    case Boolean => "boolean"
    case TagSet => "tag_set"
    case Text => "text"
    case Integer => "integer"
    case IntegerRange => "integer_range"
    case Rating => "rating"
    case Schedule => "schedule"
  }

  datatype Tier = Tier1 | Tier2 | Tier3

  function TierRank(t: Tier): nat {
    match t
    case Tier1 => 1
    case Tier2 => 2
    case Tier3 => 3
  }

  /** One registry entry; the prose description and generator guidance are not modelled. */
  datatype Metadata = Metadata(code: string, labelText: string, tier: Tier, dataType: DataType)

  const Entries: seq<Metadata> := [
    Metadata("rooftop_seating", "Rooftop Seating", Tier1, Boolean),
    Metadata("dance_floor", "Dance Floor", Tier1, Boolean),
    Metadata("live_music", "Live Music", Tier1, Boolean),
    Metadata("music_genres", "Music Genres", Tier1, TagSet),
    Metadata("outdoor_seating", "Outdoor Seating", Tier1, Boolean),
    Metadata("craft_beer", "Craft Beer / Microbrewery", Tier1, Boolean),
    Metadata("stag_entry_policy", "Stag Entry Policy", Tier1, Text),
    Metadata("happy_hour_schedule", "Happy Hour Schedule", Tier1, Schedule),
    Metadata("cost_for_two_range", "Cost for Two Range", Tier1, IntegerRange),
    Metadata("parking_available", "Parking Available", Tier1, Boolean),
    Metadata("food_quality_rating", "Food Quality Rating", Tier1, Rating),
    Metadata("cover_charge_range", "Cover Charge Range", Tier1, IntegerRange),
    Metadata("floor_count", "Number of Floors", Tier2, Integer),
    Metadata("theme_nights", "Theme Nights", Tier2, Schedule),
    Metadata("view_type", "View Type", Tier2, TagSet),
    Metadata("couples_entry_policy", "Couples Entry Policy", Tier2, Text),
    Metadata("free_entry_days", "Free Entry Days", Tier2, TagSet),
    Metadata("cover_redeemable", "Redeemable Cover", Tier2, Boolean),
    Metadata("beer_variety", "Beer Variety", Tier2, TagSet),
    Metadata("late_night_hours", "Operating Hours", Tier2, Text),
    Metadata("service_quality_rating", "Service Quality Rating", Tier2, Rating),
    Metadata("happy_hour_deals", "Happy Hour Deals", Tier2, TagSet),
    Metadata("sports_screening", "Sports Screening", Tier3, Boolean),
    Metadata("karaoke", "Karaoke Available", Tier3, Boolean),
    Metadata("buffet_options", "Buffet Options", Tier3, TagSet),
    Metadata("valet_service", "Valet Service", Tier3, Boolean),
    Metadata("food_cuisines", "Food Cuisines", Tier3, TagSet),
    Metadata("crowd_profile", "Crowd Profile", Tier3, Text),
    Metadata("wifi", "WiFi Availability", Tier3, Boolean)
  ]

  /** A Map built from `[code, entry]` pairs: a later entry with the same code replaces an earlier one. */
  function BuildIndex(entries: seq<Metadata>): (m: map<string, Metadata>)
    ensures forall c :: c in m <==> exists i :: 0 <= i < |entries| && entries[i].code == c
    ensures forall c :: c in m ==> m[c].code == c && m[c] in entries
  {
    if entries == [] then map[]
    else
      var last := entries[|entries| - 1];
      var m := BuildIndex(entries[..|entries| - 1]);
      assert forall c :: c in m ==> m[c] in entries by {
        forall c | c in m ensures m[c] in entries {
          var i :| 0 <= i < |entries| - 1 && entries[..|entries| - 1][i] == m[c];
          assert entries[i] == m[c];
        }
      }
      m[last.code := last]
  }

  const ByCode: map<string, Metadata> := BuildIndex(Entries)

  /** `ATTRIBUTE_METADATA_BY_CODE.get(code)`. */
  function Lookup(code: string): (r: Option<Metadata>)
    ensures r.Some? ==> r.value.code == code && r.value in Entries
    ensures r.None? <==> forall i :: 0 <= i < |Entries| ==> Entries[i].code != code
  {
    if code in ByCode then Some(ByCode[code]) else None
  }

  /** The position of a code in the registry, or -1. */
  function CodeIndex(code: string): int {
    if code == "rooftop_seating" then 0
    else if code == "dance_floor" then 1
    else if code == "live_music" then 2
    else if code == "music_genres" then 3
    else if code == "outdoor_seating" then 4
    else if code == "craft_beer" then 5
    else if code == "stag_entry_policy" then 6
    else if code == "happy_hour_schedule" then 7
    else if code == "cost_for_two_range" then 8
    else if code == "parking_available" then 9
    else if code == "food_quality_rating" then 10
    else if code == "cover_charge_range" then 11
    else if code == "floor_count" then 12
    else if code == "theme_nights" then 13
    else if code == "view_type" then 14
    else if code == "couples_entry_policy" then 15
    else if code == "free_entry_days" then 16
    else if code == "cover_redeemable" then 17
    else if code == "beer_variety" then 18
    else if code == "late_night_hours" then 19
    else if code == "service_quality_rating" then 20
    else if code == "happy_hour_deals" then 21
    else if code == "sports_screening" then 22
    else if code == "karaoke" then 23
    else if code == "buffet_options" then 24
    else if code == "valet_service" then 25
    else if code == "food_cuisines" then 26
    else if code == "crowd_profile" then 27
    else if code == "wifi" then 28
    else -1
  }

  /** Each position of the registry holds a code that the index function finds there. */
  lemma EntryAt(i: int)
    requires 0 <= i < |Entries|
    ensures CodeIndex(Entries[i].code) == i
  {
    if i < 5 {
      EntryAtA(i);
    } else if i < 10 {
      EntryAtB(i);
    } else if i < 15 {
      EntryAtC(i);
    } else if i < 20 {
      EntryAtD(i);
    } else if i < 25 {
      EntryAtE(i);
    } else {
      EntryAtF(i);
    }
  }

  lemma EntryAtA(i: int)
    requires 0 <= i < 5
    ensures CodeIndex(Entries[i].code) == i
  {
    if i == 0 {
      assert Entries[0].code == "rooftop_seating";
    } else if i == 1 {
      assert Entries[1].code == "dance_floor";
    } else if i == 2 {
      assert Entries[2].code == "live_music";
    } else if i == 3 {
      assert Entries[3].code == "music_genres";
    } else if i == 4 {
      assert Entries[4].code == "outdoor_seating";
    }
  }

  lemma EntryAtB(i: int)
    requires 5 <= i < 10
    ensures CodeIndex(Entries[i].code) == i
  {
    if i == 5 {
      assert Entries[5].code == "craft_beer";
    } else if i == 6 {
      assert Entries[6].code == "stag_entry_policy";
    } else if i == 7 {
      assert Entries[7].code == "happy_hour_schedule";
    } else if i == 8 {
      assert Entries[8].code == "cost_for_two_range";
    } else if i == 9 {
      assert Entries[9].code == "parking_available";
    }
  }

  lemma EntryAtC(i: int)
    requires 10 <= i < 15
    ensures CodeIndex(Entries[i].code) == i
  {
    if i == 10 {
      assert Entries[10].code == "food_quality_rating";
    } else if i == 11 {
      assert Entries[11].code == "cover_charge_range";
    } else if i == 12 {
      assert Entries[12].code == "floor_count";
    } else if i == 13 {
      assert Entries[13].code == "theme_nights";
    } else if i == 14 {
      assert Entries[14].code == "view_type";
    }
  }

  lemma EntryAtD(i: int)
    requires 15 <= i < 20
    ensures CodeIndex(Entries[i].code) == i
  {
    if i == 15 {
      assert Entries[15].code == "couples_entry_policy";
    } else if i == 16 {
      assert Entries[16].code == "free_entry_days";
    } else if i == 17 {
      assert Entries[17].code == "cover_redeemable";
    } else if i == 18 {
      assert Entries[18].code == "beer_variety";
    } else if i == 19 {
      assert Entries[19].code == "late_night_hours";
    }
  }

  lemma EntryAtE(i: int)
    requires 20 <= i < 25
    ensures CodeIndex(Entries[i].code) == i
  {
    if i == 20 {
      assert Entries[20].code == "service_quality_rating";
    } else if i == 21 {
      assert Entries[21].code == "happy_hour_deals";
    } else if i == 22 {
      assert Entries[22].code == "sports_screening";
    } else if i == 23 {
      assert Entries[23].code == "karaoke";
    } else if i == 24 {
      assert Entries[24].code == "buffet_options";
    }
  }

  lemma EntryAtF(i: int)
    requires 25 <= i < 29
    ensures CodeIndex(Entries[i].code) == i
  {
    if i == 25 {
      assert Entries[25].code == "valet_service";
    } else if i == 26 {
      assert Entries[26].code == "food_cuisines";
    } else if i == 27 {
      assert Entries[27].code == "crowd_profile";
    } else if i == 28 {
      assert Entries[28].code == "wifi";
    }
  }


  lemma TierAt(i: int)
    requires 0 <= i < |Entries|
    ensures Entries[i].tier == if i < 12 then Tier1 else if i < 22 then Tier2 else Tier3
  {
    if i < 6 {
      TierAtA(i);
    } else if i < 12 {
      TierAtB(i);
    } else if i < 22 {
      TierAtC(i);
    } else {
      TierAtD(i);
    }
  }

  lemma TierAtA(i: int)
    requires 0 <= i < 6
    ensures Entries[i].tier == Tier1
  {
    if i == 0 {
    } else if i == 1 {
    } else if i == 2 {
    } else if i == 3 {
    } else if i == 4 {
    } else if i == 5 {
    }
  }

  lemma TierAtB(i: int)
    requires 6 <= i < 12
    ensures Entries[i].tier == Tier1
  {
    if i == 6 {
    } else if i == 7 {
    } else if i == 8 {
    } else if i == 9 {
    } else if i == 10 {
    } else if i == 11 {
    }
  }

  lemma TierAtC(i: int)
    requires 12 <= i < 22
    ensures Entries[i].tier == Tier2
  {
    if i == 12 {
    } else if i == 13 {
    } else if i == 14 {
    } else if i == 15 {
    } else if i == 16 {
    } else if i == 17 {
    } else if i == 18 {
    } else if i == 19 {
    } else if i == 20 {
    } else if i == 21 {
    }
  }

  lemma TierAtD(i: int)
    requires 22 <= i < 29
    ensures Entries[i].tier == Tier3
  {
    if i == 22 {
    } else if i == 23 {
    } else if i == 24 {
    } else if i == 25 {
    } else if i == 26 {
    } else if i == 27 {
    } else if i == 28 {
    }
  }

  predicate DistinctCodes(entries: seq<Metadata>) {
    forall i, j :: 0 <= i < j < |entries| ==> entries[i].code != entries[j].code
  }

  /** The 29 codes are pairwise distinct. */
  lemma CodesDistinct()
    ensures |Entries| == 29
    ensures DistinctCodes(Entries)
  {
    forall i, j | 0 <= i < j < |Entries| ensures Entries[i].code != Entries[j].code {
      EntryAt(i);
      EntryAt(j);
    }
  }

  /** With distinct codes the index has one key per entry. */
  lemma {:induction false} BuildIndexSize(entries: seq<Metadata>)
    requires DistinctCodes(entries)
    ensures |BuildIndex(entries)| == |entries|
  {
    if entries != [] {
      var init := entries[..|entries| - 1];
      var last := entries[|entries| - 1];
      assert DistinctCodes(init);
      BuildIndexSize(init);
      assert last.code !in BuildIndex(init);
    }
  }

  /** The by-code map has exactly as many keys as the registry has entries, and each key finds its own entry. */
  lemma ByCodeMatchesEntries()
    ensures |ByCode| == |Entries| == 29
    ensures forall i :: 0 <= i < |Entries| ==> Entries[i].code in ByCode && ByCode[Entries[i].code] == Entries[i]
  {
    CodesDistinct();
    BuildIndexSize(Entries);
    forall i | 0 <= i < |Entries| ensures Entries[i].code in ByCode && ByCode[Entries[i].code] == Entries[i] {
      ByCodeAt(i);
    }
  }

  lemma ByCodeAt(i: int)
    requires 0 <= i < |Entries|
    ensures Entries[i].code in ByCode && ByCode[Entries[i].code] == Entries[i]
  {
    CodesDistinct();
    IndexFindsEntry(Entries, i);
  }

  /** With distinct codes, the index finds each entry under its own code. */
  lemma IndexFindsEntry(entries: seq<Metadata>, i: int)
    requires 0 <= i < |entries| && DistinctCodes(entries)
    ensures entries[i].code in BuildIndex(entries) && BuildIndex(entries)[entries[i].code] == entries[i]
  {
    var m := BuildIndex(entries);
    var e := m[entries[i].code];
    var j :| 0 <= j < |entries| && entries[j] == e;
  }

  /** Every tier1 entry comes before every tier2 entry, which comes before every tier3 entry. */
  lemma TiersGrouped()
    ensures forall i, j :: 0 <= i < j < |Entries| ==> TierRank(Entries[i].tier) <= TierRank(Entries[j].tier)
  {
    forall i, j | 0 <= i < j < |Entries| ensures TierRank(Entries[i].tier) <= TierRank(Entries[j].tier) {
      TierAt(i);
      TierAt(j);
    }
  }

  /** The codes the attribute generator is asked to fill. */
  const PromptCodes: seq<string> := [
    "rooftop_seating", "dance_floor", "live_music", "music_genres",
    "outdoor_seating", "craft_beer", "parking_available", "cover_redeemable",
    "wifi", "valet_service", "sports_screening", "happy_hour_schedule",
    "happy_hour_deals", "theme_nights"
  ]

  /** The codes the generator's dry-run stub answers with. */
  const DryRunCodes: seq<string> := [
    "live_music", "music_genres", "cover_redeemable"
  ]

  /** Every code advertised to the generator, and every code of the dry-run stub, is registered. */
  lemma AdvertisedCodesRegistered()
    ensures forall k :: 0 <= k < |PromptCodes| ==> Lookup(PromptCodes[k]).Some?
    ensures forall k :: 0 <= k < |DryRunCodes| ==> Lookup(DryRunCodes[k]).Some?
  {
    forall k | 0 <= k < |PromptCodes| ensures Lookup(PromptCodes[k]).Some? {
      PromptCodeFound(k);
    }
    forall k | 0 <= k < |DryRunCodes| ensures Lookup(DryRunCodes[k]).Some? {
      DryRunCodeFound(k);
    }
  }

  lemma PromptCodeFound(k: int)
    requires 0 <= k < |PromptCodes|
    ensures exists i :: 0 <= i < |Entries| && Entries[i].code == PromptCodes[k]
  {
    if k < 7 {
      PromptCodeFoundLow(k);
    } else {
      PromptCodeFoundHigh(k);
    }
  }

  lemma PromptCodeFoundLow(k: int)
    requires 0 <= k < 7
    ensures exists i :: 0 <= i < |Entries| && Entries[i].code == PromptCodes[k]
  {
    if k == 0 {
      assert PromptCodes[0] == "rooftop_seating";
      assert Entries[0].code == PromptCodes[k];
    } else if k == 1 {
      assert PromptCodes[1] == "dance_floor";
      assert Entries[1].code == PromptCodes[k];
    } else if k == 2 {
      assert PromptCodes[2] == "live_music";
      assert Entries[2].code == PromptCodes[k];
    } else if k == 3 {
      assert PromptCodes[3] == "music_genres";
      assert Entries[3].code == PromptCodes[k];
    } else if k == 4 {
      assert PromptCodes[4] == "outdoor_seating";
      assert Entries[4].code == PromptCodes[k];
    } else if k == 5 {
      assert PromptCodes[5] == "craft_beer";
      assert Entries[5].code == PromptCodes[k];
    } else if k == 6 {
      assert PromptCodes[6] == "parking_available";
      assert Entries[9].code == PromptCodes[k];
    }
  }

  lemma PromptCodeFoundHigh(k: int)
    requires 7 <= k < 14
    ensures exists i :: 0 <= i < |Entries| && Entries[i].code == PromptCodes[k]
  {
    if k == 7 {
      assert PromptCodes[7] == "cover_redeemable";
      assert Entries[17].code == PromptCodes[k];
    } else if k == 8 {
      assert PromptCodes[8] == "wifi";
      assert Entries[28].code == PromptCodes[k];
    } else if k == 9 {
      assert PromptCodes[9] == "valet_service";
      assert Entries[25].code == PromptCodes[k];
    } else if k == 10 {
      assert PromptCodes[10] == "sports_screening";
      assert Entries[22].code == PromptCodes[k];
    } else if k == 11 {
      assert PromptCodes[11] == "happy_hour_schedule";
      assert Entries[7].code == PromptCodes[k];
    } else if k == 12 {
      assert PromptCodes[12] == "happy_hour_deals";
      assert Entries[21].code == PromptCodes[k];
    } else if k == 13 {
      assert PromptCodes[13] == "theme_nights";
      assert Entries[13].code == PromptCodes[k];
    }
  }

  lemma DryRunCodeFound(k: int)
    requires 0 <= k < |DryRunCodes|
    ensures exists i :: 0 <= i < |Entries| && Entries[i].code == DryRunCodes[k]
  {
    if k == 0 {
      assert Entries[2].code == DryRunCodes[k];
    } else if k == 1 {
      assert Entries[3].code == DryRunCodes[k];
    } else if k == 2 {
      assert Entries[17].code == DryRunCodes[k];
    }
  }
}
