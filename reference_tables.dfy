// The static reference tables of the backend: average core-skill ratings
// per Premier band and per Faceit Elo band, and the Leetify tier ranges.
// These tables are not the ones `analyze_player_data` loads; here they are
// concrete instances of its first-match lookups.
module ReferenceTables {
  import opened Wrappers
  import opened Bands
  import opened DataProcessing

  const Premier: RankTable := [
    (Band(1000, 4999), map["aim" := 31.0, "positioning" := 46.0, "utility" := 47.0]),
    (Band(5000, 9999), map["aim" := 48.0, "positioning" := 50.0, "utility" := 49.0]),
    (Band(10000, 14999), map["aim" := 58.0, "positioning" := 51.0, "utility" := 51.0]),
    (Band(15000, 19999), map["aim" := 66.0, "positioning" := 53.0, "utility" := 52.0]),
    (Band(20000, 24999), map["aim" := 74.0, "positioning" := 55.0, "utility" := 54.0]),
    (Band(25000, 99999), map["aim" := 82.0, "positioning" := 57.0, "utility" := 56.0])
  ]

  const Faceit: RankTable := [
    (Band(100, 500), map["aim" := 33.0, "positioning" := 49.0, "utility" := 28.0]),
    (Band(501, 750), map["aim" := 46.0, "positioning" := 53.0, "utility" := 31.0]),
    (Band(751, 900), map["aim" := 53.0, "positioning" := 54.0, "utility" := 31.0]),
    (Band(901, 1050), map["aim" := 59.0, "positioning" := 55.0, "utility" := 32.0]),
    (Band(1051, 1200), map["aim" := 65.0, "positioning" := 58.0, "utility" := 33.0]),
    (Band(1201, 1350), map["aim" := 68.0, "positioning" := 60.0, "utility" := 34.0]),
    (Band(1351, 1530), map["aim" := 71.0, "positioning" := 61.0, "utility" := 35.0]),
    (Band(1531, 1750), map["aim" := 74.0, "positioning" := 62.0, "utility" := 36.0]),
    (Band(1751, 2000), map["aim" := 75.0, "positioning" := 62.0, "utility" := 37.0]),
    (Band(2001, 99999), map["aim" := 81.0, "positioning" := 64.0, "utility" := 39.0])
  ]

  const LeetifyTiers: TierTable := [
    ("poor", (-999.0, -5.12)),
    ("subpar", (-5.12, -2.09)),
    ("average", (-2.09, 2.09)),
    ("good", (2.09, 5.12)),
    ("great", (5.12, 999.0))
  ]

  // ---------------------------------------------------------------------
  // Rank bands

  lemma PremierAdjacent()
    ensures Adjacent(Premier)
  {
  }

  lemma FaceitAdjacent()
    ensures Adjacent(Faceit)
  {
  }

  /** Every Premier rating from 1000 to 99999 falls in exactly one band, the one lookup returns. */
  lemma PremierCovers(x: int)
    requires 1000 <= x <= 99999
    ensures FirstContaining(Premier, x).Some?
    ensures forall j :: 0 <= j < |Premier| && Contains(Premier[j].0, x) ==> j == FirstContaining(Premier, x).value
  {
    PremierAdjacent();
    UniqueBand(Premier, x);
  }

  /** Every Faceit Elo from 100 to 99999 falls in exactly one band, the one lookup returns. */
  lemma FaceitCovers(x: int)
    requires 100 <= x <= 99999
    ensures FirstContaining(Faceit, x).Some?
    ensures forall j :: 0 <= j < |Faceit| && Contains(Faceit[j].0, x) ==> j == FirstContaining(Faceit, x).value
  {
    FaceitAdjacent();
    UniqueBand(Faceit, x);
  }

  /** Ratings outside the tables' spans match no band. */
  lemma OutsideTables(x: int)
    ensures (x < 1000 || x > 99999) ==> FirstContaining(Premier, x).None?
    ensures (x < 100 || x > 99999) ==> FirstContaining(Faceit, x).None?
  {
    PremierAdjacent();
    FaceitAdjacent();
    if x < 1000 || x > 99999 { OutsideSpan(Premier, x); }
    if x < 100 || x > 99999 { OutsideSpan(Faceit, x); }
  }

  /** No two bands of either table overlap. */
  lemma TablesDisjoint(j: nat, k: nat, x: int)
    ensures j < |Premier| && k < |Premier| && j != k ==> !(Contains(Premier[j].0, x) && Contains(Premier[k].0, x))
    ensures j < |Faceit| && k < |Faceit| && j != k ==> !(Contains(Faceit[j].0, x) && Contains(Faceit[k].0, x))
  {
    PremierAdjacent();
    FaceitAdjacent();
    if j < |Premier| && k < |Premier| && j != k { AdjacentDisjoint(Premier, j, k, x); }
    if j < |Faceit| && k < |Faceit| && j != k { AdjacentDisjoint(Faceit, j, k, x); }
  }

  /** The default band is in the Premier table, so the default lookup always succeeds. */
  lemma DefaultBandPresent()
    ensures FirstWithBounds(Premier, 10000, 14999) == Some(2)
  {
  }

  // ---------------------------------------------------------------------
  // Reference values

  /** Each row has `key`, and its value never drops from one band to the next. */
  predicate StepsUp(t: RankTable, key: string) {
    (forall i :: 0 <= i < |t| ==> key in t[i].1) &&
    (forall i :: 0 < i < |t| ==> t[i - 1].1[key] <= t[i].1[key])
  }

  /** A value that never drops between neighbours never drops between any two bands. */
  lemma {:induction false} StepsUpOrdered(t: RankTable, key: string, j: nat, k: nat)
    requires StepsUp(t, key) && j <= k < |t|
    ensures t[j].1[key] <= t[k].1[key]
    decreases k - j
  {
    if j < k {
      StepsUpOrdered(t, key, j, k - 1);
    }
  }

  lemma PremierAimStepsUp()
    ensures StepsUp(Premier, "aim")
  {
    forall i | 0 <= i < |Premier| ensures "aim" in Premier[i].1 {
    }
    forall i | 0 < i < |Premier| ensures Premier[i - 1].1["aim"] <= Premier[i].1["aim"] {
    }
  }

  lemma PremierPositioningStepsUp()
    ensures StepsUp(Premier, "positioning")
  {
    forall i | 0 <= i < |Premier| ensures "positioning" in Premier[i].1 {
    }
    forall i | 0 < i < |Premier| ensures Premier[i - 1].1["positioning"] <= Premier[i].1["positioning"] {
    }
  }

  lemma PremierUtilityStepsUp()
    ensures StepsUp(Premier, "utility")
  {
    forall i | 0 <= i < |Premier| ensures "utility" in Premier[i].1 {
    }
    forall i | 0 < i < |Premier| ensures Premier[i - 1].1["utility"] <= Premier[i].1["utility"] {
    }
  }

  lemma FaceitAimStepsUp()
    ensures StepsUp(Faceit, "aim")
  {
    forall i | 0 <= i < |Faceit| ensures "aim" in Faceit[i].1 {
    }
    forall i | 0 < i < |Faceit| ensures Faceit[i - 1].1["aim"] <= Faceit[i].1["aim"] {
    }
  }

  lemma FaceitPositioningStepsUp()
    ensures StepsUp(Faceit, "positioning")
  {
    forall i | 0 <= i < |Faceit| ensures "positioning" in Faceit[i].1 {
    }
    forall i | 0 < i < |Faceit| ensures Faceit[i - 1].1["positioning"] <= Faceit[i].1["positioning"] {
    }
  }

  lemma FaceitUtilityStepsUp()
    ensures StepsUp(Faceit, "utility")
  {
    forall i | 0 <= i < |Faceit| ensures "utility" in Faceit[i].1 {
    }
    forall i | 0 < i < |Faceit| ensures Faceit[i - 1].1["utility"] <= Faceit[i].1["utility"] {
    }
  }

  /** A higher band never has a lower aim, positioning or utility reference. */
  lemma ReferenceValuesMonotone(key: string, j: nat, k: nat)
    requires key == "aim" || key == "positioning" || key == "utility"
    ensures j <= k < |Premier| ==> Premier[j].1[key] <= Premier[k].1[key]
    ensures j <= k < |Faceit| ==> Faceit[j].1[key] <= Faceit[k].1[key]
  {
    PremierAimStepsUp();
    PremierPositioningStepsUp();
    PremierUtilityStepsUp();
    FaceitAimStepsUp();
    FaceitPositioningStepsUp();
    FaceitUtilityStepsUp();
    if j <= k < |Premier| { StepsUpOrdered(Premier, key, j, k); }
    if j <= k < |Faceit| { StepsUpOrdered(Faceit, key, j, k); }
  }

  /**
   * The static rows use lower-case keys while the analysis reads `Aim`, so
   * every row of them would stop the analysis with a KeyError for "Aim".
   */
  lemma StaticRowsLackAim(rating: Metrics)
    ensures forall i :: 0 <= i < |Premier| ==> MissingKey(Premier[i].1, rating) == Some(KeyError("Aim"))
    ensures forall i :: 0 <= i < |Faceit| ==> MissingKey(Faceit[i].1, rating) == Some(KeyError("Aim"))
  {
    assert ReferenceFields[0].1 == "Aim";
    forall i | 0 <= i < |Premier| ensures FirstMissing(ReferenceFields, Premier[i].1, 0) == Some(0) {
      assert "Aim" !in Premier[i].1;
    }
    forall i | 0 <= i < |Faceit| ensures FirstMissing(ReferenceFields, Faceit[i].1, 0) == Some(0) {
      assert "Aim" !in Faceit[i].1;
    }
  }

  /** A row of the static tables is non-empty and lacks "Aim". */
  lemma StaticRow(row: Metrics, rating: Metrics)
    requires (exists j :: 0 <= j < |Faceit| && row == Faceit[j].1) ||
             (exists j :: 0 <= j < |Premier| && row == Premier[j].1)
    ensures row != map[] && MissingKey(row, rating) == Some(KeyError("Aim"))
  {
    StaticRowsLackAim(rating);
    FaceitAimStepsUp();
    PremierAimStepsUp();
  }

  /** Run on the static tables, an analysis that finds a reference fails with KeyError "Aim". */
  lemma StaticTablesRaise(rating: Metrics, ranks: Ranks, stats: Metrics, tiers: TierTable,
                          round2: real -> real, r: Result<Analysis, Error>)
    requires Outcome(rating, ranks, stats, Premier, Faceit, tiers, round2, r)
    requires Selection(ranks, Premier, Faceit).Some?
    ensures r == Err(KeyError("Aim"))
  {
    StaticRow(Selection(ranks, Premier, Faceit).value.row, rating);
  }

  // ---------------------------------------------------------------------
  // Leetify tiers

  /** A boundary shared by two tiers goes to the one listed first. */
  lemma TierBoundaries()
    ensures TierOf(LeetifyTiers, -5.12) == "poor"
    ensures TierOf(LeetifyTiers, -2.09) == "subpar"
    ensures TierOf(LeetifyTiers, 2.09) == "average"
    ensures TierOf(LeetifyTiers, 5.12) == "good"
  {
    assert TierIndex(LeetifyTiers, -5.12) == Some(0);
    assert TierIndex(LeetifyTiers, -2.09) == Some(1);
    assert TierIndex(LeetifyTiers, 2.09) == Some(2);
    assert TierIndex(LeetifyTiers, 5.12) == Some(3);
  }

  /** Values from -999 to 999 all get a tier; values beyond get "unknown". */
  lemma TierSpan(v: real)
    ensures -999.0 <= v <= 999.0 ==> TierOf(LeetifyTiers, v) != Unknown
    ensures (v < -999.0 || v > 999.0) ==> TierOf(LeetifyTiers, v) == Unknown
  {
  }
}
