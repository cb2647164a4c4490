// The backend's `analyze_player_data`: pick a reference row for the
// player's rank, then fill an analysis dictionary with the differences from
// that reference and tiered raw ratings. The reference tables, which the
// backend loads from a search index, are parameters here, and Python's
// `round(x, 2)` is the parameter `round2`.
module DataProcessing {
  import opened Wrappers
  import opened Decimal
  import opened Bands

  /** A dictionary of numeric metrics: a player's rating or stats, or a reference row. */
  type Metrics = map<string, real>

  /** A rank table: reference rows keyed by rank band, in the table's order. */
  type RankTable = seq<(Band, Metrics)>

  /** The entries of the profile's `ranks` dictionary that the analysis reads; a missing entry is None. */
  datatype Ranks = Ranks(faceitElo: Option<int>, faceit: Option<int>, premier: Option<int>)

  /** The player profile; each entry is None when the dictionary lacks that key. */
  datatype Profile = Profile(rating: Option<Metrics>, ranks: Option<Ranks>, stats: Option<Metrics>)

  /** The values the analysis dictionary holds. */
  datatype Value =
    | Null
    | Num(x: real)
    | Text(s: string)
    | Numbers(nums: Metrics)
    | Names(names: map<string, string>)
    | Tiers(tiers: TierTable)

  type Analysis = map<string, Value>

  /** Python's KeyError, raised by a dictionary lookup of a missing key. */
  datatype Error = KeyError(key: string)

  // ---------------------------------------------------------------------
  // Keys

  const MetricNames: map<string, string> := map[
    "aim" := "Aim",
    "positioning" := "Positioning",
    "utility" := "Utility",
    "accuracy_head" := "Headshot Accuracy",
    "accuracy_enemy_spotted" := "Spotted Accuracy",
    "spray_accuracy" := "Spray Accuracy",
    "counter_strafing_good_shots_ratio" := "Counter-Strafing",
    "preaim" := "Crosshair Placement",
    "reaction_time_ms" := "Time to Damage",
    "flashbang_hit_foe_per_flashbang" := "Flash Effectiveness",
    "he_foes_damage_avg" := "Average HE Damage",
    "utility_on_death_avg" := "Utility on Death",
    "ct_leetify" := "CT Side Rating",
    "t_leetify" := "T Side Rating",
    "clutch" := "Clutch",
    "opening" := "Opening Duels"
  ]

  const InitialKeys: set<string> := {
    "aim_diff", "positioning_diff", "utility_diff", "reference_values",
    "reference_rank", "leetify_tiers", "metric_names"
  }

  /**
   * The `reference_values` dictionary literal: each entry's output name and
   * the reference key it reads, in evaluation order.
   */
  const ReferenceFields: seq<(string, string)> := [
    ("aim", "Aim"), ("positioning", "Positioning"), ("utility", "Utility"),
    ("accuracy_head", "accuracy_head"), ("accuracy_enemy_spotted", "accuracy_enemy_spotted"),
    ("spray_accuracy", "spray_accuracy"),
    ("counter_strafing_good_shots_ratio", "counter_strafing_good_shots_ratio"),
    ("preaim", "preaim"), ("reaction_time_ms", "reaction_time_ms"),
    ("flashbang_hit_foe_per_flashbang", "flashbang_hit_foe_per_flashbang"),
    ("he_foes_damage_avg", "he_foes_damage_avg"), ("utility_on_death_avg", "utility_on_death_avg")
  ]

  /** The three core-skill diffs: each diff key and the rating key it reads, in evaluation order. */
  const CoreSkillFields: seq<(string, string)> := [
    ("aim_diff", "aim"), ("positioning_diff", "positioning"), ("utility_diff", "utility")
  ]

  const DetailedMetrics: seq<string> := [
    "accuracy_enemy_spotted", "accuracy_head", "counter_strafing_good_shots_ratio",
    "flashbang_hit_foe_avg_duration", "flashbang_hit_foe_per_flashbang",
    "flashbang_hit_friend_per_flashbang", "flashbang_leading_to_kill",
    "he_foes_damage_avg", "he_friends_damage_avg", "preaim",
    "reaction_time_ms", "spray_accuracy", "utility_on_death_avg"
  ]

  const RawMetrics: seq<string> := ["clutch", "opening", "ct_leetify", "t_leetify"]

  function DiffKey(m: string): string { m + "_diff" }

  function TierKey(m: string): string { m + "_tier" }

  /** `k` is `{m}_diff` for one of `metrics`. */
  predicate IsDiffKeyOf(k: string, metrics: seq<string>) {
    |k| >= 5 && k[|k| - 5..] == "_diff" && k[..|k| - 5] in metrics
  }

  /** `k` is one of `metrics` or `{m}_tier` for one of them. */
  predicate IsRawKeyOf(k: string, metrics: seq<string>) {
    k in metrics || (|k| >= 5 && k[|k| - 5..] == "_tier" && k[..|k| - 5] in metrics)
  }

  predicate IsDiffKey(k: string) { IsDiffKeyOf(k, DetailedMetrics) }

  predicate IsRawKey(k: string) { IsRawKeyOf(k, RawMetrics) }

  lemma DiffKeyInjective(m: string, n: string)
    ensures DiffKey(m) == DiffKey(n) ==> m == n
  {
    if DiffKey(m) == DiffKey(n) {
      assert m == DiffKey(m)[..|m|] && n == DiffKey(n)[..|n|];
    }
  }

  lemma TierKeyInjective(m: string, n: string)
    ensures TierKey(m) == TierKey(n) ==> m == n
  {
    if TierKey(m) == TierKey(n) {
      assert m == TierKey(m)[..|m|] && n == TierKey(n)[..|n|];
    }
  }

  lemma DiffKeyOf(m: string, metrics: seq<string>)
    requires m in metrics
    ensures IsDiffKeyOf(DiffKey(m), metrics)
  {
    var k := DiffKey(m);
    assert k[|k| - 5..] == "_diff" && k[..|k| - 5] == m;
  }

  lemma TierKeyOf(m: string, metrics: seq<string>)
    requires m in metrics
    ensures IsRawKeyOf(m, metrics) && IsRawKeyOf(TierKey(m), metrics)
  {
    var k := TierKey(m);
    assert k[|k| - 5..] == "_tier" && k[..|k| - 5] == m;
  }

  /** The key a detailed metric's diff is stored under is a diff key and no raw key. */
  lemma DiffKeyShape(m: string)
    requires m in DetailedMetrics
    ensures IsDiffKey(DiffKey(m)) && !IsRawKey(DiffKey(m))
  {
    DiffKeyOf(m, DetailedMetrics);
    var k := DiffKey(m);
    assert k[|k| - 5..] == "_diff";
    assert k !in RawMetrics by {
      assert k[|k| - 1] == 'f';
    }
  }

  /** The keys a raw metric is stored under are raw keys and no diff keys. */
  lemma RawKeyShape(m: string)
    requires m in RawMetrics
    ensures IsRawKey(m) && !IsDiffKey(m)
    ensures IsRawKey(TierKey(m)) && !IsDiffKey(TierKey(m))
  {
    TierKeyOf(m, RawMetrics);
    var k := TierKey(m);
    assert k[|k| - 5..] == "_tier";
  }

  /** A raw key is never a diff key. */
  lemma RawNotDiff(k: string)
    requires IsRawKey(k)
    ensures !IsDiffKey(k)
  {
    if k in RawMetrics {
      RawKeyShape(k);
    } else {
      assert k[|k| - 5..] == "_tier";
    }
  }

  /** No metric of the list is the tier key of one of them. */
  predicate NoTierClash(metrics: seq<string>) {
    forall m, n :: m in metrics && n in metrics ==> m != TierKey(n)
  }

  lemma NoTierClashAt(metrics: seq<string>, p: nat, q: nat)
    requires NoTierClash(metrics) && p < |metrics| && q < |metrics|
    ensures metrics[p] != TierKey(metrics[q])
  {
    assert metrics[p] in metrics && metrics[q] in metrics;
  }

  lemma RawMetricsNoClash()
    ensures NoTierClash(RawMetrics)
  {
    forall m, n | m in RawMetrics && n in RawMetrics ensures m != TierKey(n) {
      var k := TierKey(n);
      assert k[|k| - 1] == 'r';
    }
  }

  /** A key whose last letter ends no raw metric and is not the 'r' of "_tier" is no raw key. */
  lemma NotRawByLastChar(k: string)
    requires k != [] && k[|k| - 1] !in {'h', 'g', 'y', 'r'}
    ensures !IsRawKey(k)
  {
    forall m | m in RawMetrics ensures m[|m| - 1] in {'h', 'g', 'y'} {
    }
  }

  /** None of the initial keys is a diff key or a raw key. */
  lemma InitialKeysFixed(k: string)
    requires k in InitialKeys
    ensures !IsDiffKey(k) && !IsRawKey(k)
  {
    NotRawByLastChar(k);
    if k == "aim_diff" {
      assert k[..|k| - 5] == "aim";
    } else if k == "positioning_diff" {
      assert k[..|k| - 5] == "positioning";
    } else if k == "utility_diff" {
      assert k[..|k| - 5] == "utility";
    } else {
      assert k[|k| - 1] != 'f';
    }
  }

  /** The analysis before any reference is consulted. */
  function InitialAnalysis(tiers: TierTable): (a: Analysis)
    ensures a.Keys == InitialKeys
    ensures a["leetify_tiers"] == Tiers(tiers) && a["metric_names"] == Names(MetricNames)
    ensures a["reference_rank"] == Null && a["reference_values"] == Null
    ensures a["aim_diff"] == Null && a["positioning_diff"] == Null && a["utility_diff"] == Null
  {
    map[
      "aim_diff" := Null,
      "positioning_diff" := Null,
      "utility_diff" := Null,
      "reference_values" := Null,
      "reference_rank" := Null,
      "leetify_tiers" := Tiers(tiers),
      "metric_names" := Names(MetricNames)
    ]
  }

  // ---------------------------------------------------------------------
  // Choosing the reference row

  /** Python truthiness of an optional integer: present and not zero. */
  predicate Truthy(v: Option<int>) {
    v.Some? && v.value != 0
  }

  /** `str()` of the Faceit level, which may be missing. */
  function LevelText(level: Option<int>): string {
    match level
    case None => "None"
    case Some(l) => IntToString(l)
  }

  /** A band written `{low}-{high}`. */
  function BandText(b: Band): string {
    IntToString(b.low) + "-" + IntToString(b.high)
  }

  /** Distinct bands are written differently: the '-' after the low bound is
      the first '-' past the first character, so it splits the text uniquely. */
  lemma BandTextInjective(b: Band, c: Band)
    requires BandText(b) == BandText(c)
    ensures b == c
  {
    var x, y := IntToString(b.low), IntToString(c.low);
    var t := BandText(b);
    assert t == x + "-" + IntToString(b.high) && t == y + "-" + IntToString(c.high);
    if |x| < |y| {
      assert t[|x|] == '-' && t[|x|] == y[|x|];
      IntToStringDigitsAfterSign(c.low, |x|);
    } else if |y| < |x| {
      assert t[|y|] == '-' && t[|y|] == x[|y|];
      IntToStringDigitsAfterSign(b.low, |y|);
    } else {
      assert x == t[..|x|] == y;
      assert IntToString(b.high) == t[|x| + 1..] == IntToString(c.high);
      IntToStringInjective(b.low, c.low);
      IntToStringInjective(b.high, c.high);
    }
  }

  /** The reference row and the rank label shown with it. */
  datatype Selected = Selected(row: Metrics, rank: string)

  /**
   * The reference chosen for the player's ranks: the first Faceit band
   * holding the Faceit Elo when that is truthy; otherwise the first Premier
   * band holding the Premier rating when that is truthy; otherwise the
   * Premier band that is exactly 10000-14999.
   */
  function Selection(ranks: Ranks, premierTable: RankTable, faceitTable: RankTable): (s: Option<Selected>)
    ensures Truthy(ranks.faceitElo) ==>
              (s.Some? <==> exists j :: 0 <= j < |faceitTable| && Contains(faceitTable[j].0, ranks.faceitElo.value))
    ensures !Truthy(ranks.faceitElo) && Truthy(ranks.premier) ==>
              (s.Some? <==> exists j :: 0 <= j < |premierTable| && Contains(premierTable[j].0, ranks.premier.value))
    ensures !Truthy(ranks.faceitElo) && !Truthy(ranks.premier) ==>
              (s.Some? <==> exists j :: 0 <= j < |premierTable| && premierTable[j].0 == Band(10000, 14999))
    ensures s.Some? ==> (exists j :: 0 <= j < |faceitTable| && s.value.row == faceitTable[j].1) ||
                        (exists j :: 0 <= j < |premierTable| && s.value.row == premierTable[j].1)
  {
    if Truthy(ranks.faceitElo) then
      match FirstContaining(faceitTable, ranks.faceitElo.value)
      case Some(i) => Some(Selected(faceitTable[i].1, "Faceit Level " + LevelText(ranks.faceit)))
      case None => None
    else if Truthy(ranks.premier) then
      match FirstContaining(premierTable, ranks.premier.value)
      case Some(i) => Some(Selected(premierTable[i].1, "Premier " + BandText(premierTable[i].0)))
      case None => None
    else
      match FirstWithBounds(premierTable, 10000, 14999)
      case Some(i) => Some(Selected(premierTable[i].1, "Premier: " + BandText(premierTable[i].0) + " (Default)"))
      case None => None
  }

  /**
   * The loops over the band tables: each stops at the first band that
   * matches and sets the reference and its label together.
   */
  method SelectReference(ranks: Ranks, premierTable: RankTable, faceitTable: RankTable)
    returns (reference: Option<Metrics>, referenceRank: Option<string>)
    ensures Selection(ranks, premierTable, faceitTable).None? ==> reference.None? && referenceRank.None?
    ensures Selection(ranks, premierTable, faceitTable).Some? ==>
              reference == Some(Selection(ranks, premierTable, faceitTable).value.row) &&
              referenceRank == Some(Selection(ranks, premierTable, faceitTable).value.rank)
  {
    reference, referenceRank := None, None;
    if Truthy(ranks.faceitElo) {
      var elo := ranks.faceitElo.value;
      var i := 0;
      while i < |faceitTable|
        invariant 0 <= i <= |faceitTable|
        invariant FirstContainingFrom(faceitTable, elo, i) == FirstContaining(faceitTable, elo)
        invariant reference.None? && referenceRank.None?
      {
        var (band, v) := faceitTable[i];
        if band.low <= elo <= band.high {
          reference := Some(v);
          referenceRank := Some("Faceit Level " + LevelText(ranks.faceit));
          break;
        }
        i := i + 1;
      }
    } else if Truthy(ranks.premier) {
      var premier := ranks.premier.value;
      var i := 0;
      while i < |premierTable|
        invariant 0 <= i <= |premierTable|
        invariant FirstContainingFrom(premierTable, premier, i) == FirstContaining(premierTable, premier)
        invariant reference.None? && referenceRank.None?
      {
        var (band, v) := premierTable[i];
        if band.low <= premier <= band.high {
          reference := Some(v);
          referenceRank := Some("Premier " + BandText(band));
          break;
        }
        i := i + 1;
      }
    } else {
      var i := 0;
      while i < |premierTable|
        invariant 0 <= i <= |premierTable|
        invariant FirstWithBoundsFrom(premierTable, 10000, 14999, i) == FirstWithBounds(premierTable, 10000, 14999)
        invariant reference.None? && referenceRank.None?
      {
        var (band, v) := premierTable[i];
        if band.low == 10000 && band.high == 14999 {
          reference := Some(v);
          referenceRank := Some("Premier: " + BandText(band) + " (Default)");
          break;
        }
        i := i + 1;
      }
    }
  }

  /** With a truthy Faceit Elo the Premier table is never consulted. */
  lemma FaceitIgnoresPremier(ranks: Ranks, premierTable: RankTable, otherPremier: RankTable, faceitTable: RankTable)
    requires Truthy(ranks.faceitElo)
    ensures Selection(ranks, premierTable, faceitTable) == Selection(ranks, otherPremier, faceitTable)
    ensures Selection(ranks, premierTable, faceitTable).Some? ==>
              Selection(ranks, premierTable, faceitTable).value.rank == "Faceit Level " + LevelText(ranks.faceit)
  {
  }

  /** Without a truthy Faceit Elo the Faceit table is never consulted. */
  lemma PremierIgnoresFaceit(ranks: Ranks, premierTable: RankTable, faceitTable: RankTable, otherFaceit: RankTable)
    requires !Truthy(ranks.faceitElo)
    ensures Selection(ranks, premierTable, faceitTable) == Selection(ranks, premierTable, otherFaceit)
  {
  }

  /** The selected row is the row of the first band that holds the rating. */
  lemma SelectedRowIsFirstMatch(ranks: Ranks, premierTable: RankTable, faceitTable: RankTable, j: nat)
    requires Truthy(ranks.faceitElo) || Truthy(ranks.premier)
    requires var t := if Truthy(ranks.faceitElo) then faceitTable else premierTable;
             var x := if Truthy(ranks.faceitElo) then ranks.faceitElo.value else ranks.premier.value;
             j < |t| && Contains(t[j].0, x) && forall i :: 0 <= i < j ==> !Contains(t[i].0, x)
    ensures var t := if Truthy(ranks.faceitElo) then faceitTable else premierTable;
            Selection(ranks, premierTable, faceitTable).Some? &&
            Selection(ranks, premierTable, faceitTable).value.row == t[j].1
  {
    var t := if Truthy(ranks.faceitElo) then faceitTable else premierTable;
    var x := if Truthy(ranks.faceitElo) then ranks.faceitElo.value else ranks.premier.value;
    var r := FirstContaining(t, x);
    assert r.Some?;
    assert r.value == j;
  }

  /** A Premier label names the first band the rating falls in, the band whose row is selected. */
  lemma PremierLabel(ranks: Ranks, premierTable: RankTable, faceitTable: RankTable, j: nat)
    requires !Truthy(ranks.faceitElo) && Truthy(ranks.premier)
    requires j < |premierTable| && Contains(premierTable[j].0, ranks.premier.value)
    requires forall i :: 0 <= i < j ==> !Contains(premierTable[i].0, ranks.premier.value)
    ensures Selection(ranks, premierTable, faceitTable).Some?
    ensures Selection(ranks, premierTable, faceitTable).value.row == premierTable[j].1
    ensures Selection(ranks, premierTable, faceitTable).value.rank
              == "Premier " + IntToString(premierTable[j].0.low) + "-" + IntToString(premierTable[j].0.high)
  {
    var r := FirstContaining(premierTable, ranks.premier.value);
    assert r.Some?;
    assert r.value == j;
  }

  /** With no usable rank the row is that of the first band that is exactly 10000-14999, and the label names it. */
  lemma DefaultRowIsFirstMatch(ranks: Ranks, premierTable: RankTable, faceitTable: RankTable, j: nat)
    requires !Truthy(ranks.faceitElo) && !Truthy(ranks.premier)
    requires j < |premierTable| && premierTable[j].0 == Band(10000, 14999)
    requires forall i :: 0 <= i < j ==> premierTable[i].0 != Band(10000, 14999)
    ensures Selection(ranks, premierTable, faceitTable).Some?
    ensures Selection(ranks, premierTable, faceitTable).value.row == premierTable[j].1
    ensures Selection(ranks, premierTable, faceitTable).value.rank == "Premier: " + BandText(Band(10000, 14999)) + " (Default)"
  {
    var r := FirstWithBounds(premierTable, 10000, 14999);
    assert r.Some?;
    assert r.value == j;
  }

  /** With no usable rank the label names the default band, written "10000-14999" (`DefaultBandText`). */
  lemma DefaultLabel(ranks: Ranks, premierTable: RankTable, faceitTable: RankTable)
    requires !Truthy(ranks.faceitElo) && !Truthy(ranks.premier)
    requires Selection(ranks, premierTable, faceitTable).Some?
    ensures Selection(ranks, premierTable, faceitTable).value.rank == "Premier: " + BandText(Band(10000, 14999)) + " (Default)"
  {
    var i := FirstWithBounds(premierTable, 10000, 14999).value;
    assert premierTable[i].0 == Band(10000, 14999);
  }

  /** The default band written out. */
  lemma DefaultBandText()
    ensures BandText(Band(10000, 14999)) == "10000-14999"
  {
    assert NatToString(1) == "1";
    assert NatToString(10) == NatToString(1) + "0";
    assert NatToString(100) == NatToString(10) + "0";
    assert NatToString(1000) == NatToString(100) + "0";
    assert NatToString(10000) == NatToString(1000) + "0";
    assert NatToString(14) == NatToString(1) + "4";
    assert NatToString(149) == NatToString(14) + "9";
    assert NatToString(1499) == NatToString(149) + "9";
    assert NatToString(14999) == NatToString(1499) + "9";
  }

  // ---------------------------------------------------------------------
  // Tiers

  /** `get_tier`: the first tier in table order whose closed range holds the value. */
  method GetTier(tiers: TierTable, value: real) returns (tier: string)
    ensures tier == TierOf(tiers, value)
  {
    var i := 0;
    while i < |tiers|
      invariant 0 <= i <= |tiers|
      invariant TierIndexFrom(tiers, value, i) == TierIndex(tiers, value)
    {
      var (name, (low, high)) := tiers[i];
      if low <= value <= high {
        return name;
      }
      i := i + 1;
    }
    return "unknown";
  }

  // ---------------------------------------------------------------------
  // Reference values and missing keys

  /** The first field at or after `from` whose key (second component) the dictionary lacks. */
  function FirstMissing(fields: seq<(string, string)>, m: Metrics, from: nat): (r: Option<nat>)
    requires from <= |fields|
    decreases |fields| - from
    ensures r.Some? ==> from <= r.value < |fields| && fields[r.value].1 !in m
    ensures r.Some? ==> forall j :: from <= j < r.value ==> fields[j].1 in m
    ensures r.None? <==> forall j :: from <= j < |fields| ==> fields[j].1 in m
  {
    if from == |fields| then None
    else if fields[from].1 !in m then Some(from)
    else FirstMissing(fields, m, from + 1)
  }

  predicate DistinctNames(fields: seq<(string, string)>) {
    forall i, j :: 0 <= i < j < |fields| ==> fields[i].0 != fields[j].0
  }

  /**
   * Evaluating a dictionary literal whose entries read `row`: KeyError for
   * the first key, in order, that the row lacks; otherwise each output name
   * holds the value read for it, and there are no other entries.
   */
  function Collect(fields: seq<(string, string)>, row: Metrics): (r: Result<Metrics, Error>)
    requires DistinctNames(fields)
    ensures r.Err? <==> exists i :: 0 <= i < |fields| && fields[i].1 !in row
    ensures r.Err? ==> exists i :: 0 <= i < |fields| && r.error == KeyError(fields[i].1) &&
                         fields[i].1 !in row && forall j :: 0 <= j < i ==> fields[j].1 in row
    ensures r.Ok? ==> forall i :: 0 <= i < |fields| ==>
                        fields[i].1 in row && fields[i].0 in r.value && r.value[fields[i].0] == row[fields[i].1]
    ensures r.Ok? ==> forall k :: k in r.value ==> exists i :: 0 <= i < |fields| && k == fields[i].0
  {
    match FirstMissing(fields, row, 0)
    case Some(i) => Err(KeyError(fields[i].1))
    case None => Ok(map i | 0 <= i < |fields| :: fields[i].0 := row[fields[i].1])
  }

  lemma ReferenceFieldsDistinct()
    ensures DistinctNames(ReferenceFields)
  {
  }

  /** The `reference_values` dictionary built from the reference row. */
  function ReferenceValues(row: Metrics): Result<Metrics, Error> {
    ReferenceFieldsDistinct();
    Collect(ReferenceFields, row)
  }

  /**
   * The KeyError the analysis raises once a reference is found: the first
   * reference key `reference_values` lacks, else the first core-skill
   * rating key the rating lacks.
   */
  function MissingKey(row: Metrics, rating: Metrics): (e: Option<Error>)
    ensures e.None? <==> (forall i :: 0 <= i < |ReferenceFields| ==> ReferenceFields[i].1 in row) &&
                         (forall i :: 0 <= i < |CoreSkillFields| ==> CoreSkillFields[i].1 in rating)
    ensures e.None? ==> ReferenceValues(row).Ok? && CoreKeysPresent(row, rating)
  {
    assert ReferenceFields[0].1 == "Aim" && ReferenceFields[1].1 == "Positioning" && ReferenceFields[2].1 == "Utility";
    assert CoreSkillFields[0].1 == "aim" && CoreSkillFields[1].1 == "positioning" && CoreSkillFields[2].1 == "utility";
    match FirstMissing(ReferenceFields, row, 0)
    case Some(i) => Some(KeyError(ReferenceFields[i].1))
    case None =>
      match FirstMissing(CoreSkillFields, rating, 0)
      case Some(i) => Some(KeyError(CoreSkillFields[i].1))
      case None => None
  }

  // ---------------------------------------------------------------------
  // Filling the analysis

  /**
   * The loop over the detailed metrics: `{m}_diff` is set to the rounded
   * difference for every metric both the stats and the reference row hold;
   * every other key keeps its entry.
   */
  method AddDiffs(a0: Analysis, metrics: seq<string>, stats: Metrics, row: Metrics, round2: real -> real)
    returns (a: Analysis)
    ensures forall k :: !IsDiffKeyOf(k, metrics) ==> (k in a <==> k in a0) && (k in a ==> a[k] == a0[k])
    ensures forall m :: m in metrics && m in stats && m in row ==>
              DiffKey(m) in a && a[DiffKey(m)] == Num(round2(stats[m] - row[m]))
    ensures forall m :: m in metrics && !(m in stats && m in row) ==>
              (DiffKey(m) in a <==> DiffKey(m) in a0) && (DiffKey(m) in a ==> a[DiffKey(m)] == a0[DiffKey(m)])
  {
    a := a0;
    var i := 0;
    while i < |metrics|
      invariant 0 <= i <= |metrics|
      invariant forall k :: !IsDiffKeyOf(k, metrics) ==> (k in a <==> k in a0) && (k in a ==> a[k] == a0[k])
      invariant forall j :: 0 <= j < i && metrics[j] in stats && metrics[j] in row ==>
                  DiffKey(metrics[j]) in a &&
                  a[DiffKey(metrics[j])] == Num(round2(stats[metrics[j]] - row[metrics[j]]))
      invariant forall m :: m in metrics && !(m in stats && m in row) ==>
                  (DiffKey(m) in a <==> DiffKey(m) in a0) && (DiffKey(m) in a ==> a[DiffKey(m)] == a0[DiffKey(m)])
    {
      var metric := metrics[i];
      if metric in stats && metric in row {
        var key := DiffKey(metric);
        DiffKeyOf(metric, metrics);
        var next := a[key := Num(round2(stats[metric] - row[metric]))];
        forall k | !IsDiffKeyOf(k, metrics) ensures (k in next <==> k in a) && (k in next ==> next[k] == a[k]) {
          assert k != key;
        }
        forall m | m in metrics && !(m in stats && m in row)
          ensures (DiffKey(m) in next <==> DiffKey(m) in a) && (DiffKey(m) in next ==> next[DiffKey(m)] == a[DiffKey(m)])
        {
          DiffKeyInjective(m, metric);
        }
        forall j | 0 <= j <= i && metrics[j] in stats && metrics[j] in row
          ensures DiffKey(metrics[j]) in next && next[DiffKey(metrics[j])] == Num(round2(stats[metrics[j]] - row[metrics[j]]))
        {
          DiffKeyInjective(metrics[j], metric);
        }
        a := next;
      }
      i := i + 1;
    }
  }

  /**
   * The loop over the raw metrics: every raw metric the rating holds is
   * stored rounded, with the tier of that rounded value under `{m}_tier`;
   * every other key keeps its entry.
   */
  method AddRawMetrics(a0: Analysis, metrics: seq<string>, rating: Metrics, tiers: TierTable, round2: real -> real)
    returns (a: Analysis)
    requires NoTierClash(metrics)
    ensures forall k :: !IsRawKeyOf(k, metrics) ==> (k in a <==> k in a0) && (k in a ==> a[k] == a0[k])
    ensures forall m :: m in metrics && m in rating ==>
              m in a && a[m] == Num(round2(rating[m])) &&
              TierKey(m) in a && a[TierKey(m)] == Text(TierOf(tiers, round2(rating[m])))
    ensures forall m :: m in metrics && m !in rating ==>
              (m in a <==> m in a0) && (m in a ==> a[m] == a0[m]) &&
              (TierKey(m) in a <==> TierKey(m) in a0) && (TierKey(m) in a ==> a[TierKey(m)] == a0[TierKey(m)])
  {
    a := a0;
    var i := 0;
    while i < |metrics|
      invariant 0 <= i <= |metrics|
      invariant forall k :: !IsRawKeyOf(k, metrics) ==> (k in a <==> k in a0) && (k in a ==> a[k] == a0[k])
      invariant forall j :: 0 <= j < i && metrics[j] in rating ==>
                  metrics[j] in a && a[metrics[j]] == Num(round2(rating[metrics[j]])) &&
                  TierKey(metrics[j]) in a &&
                  a[TierKey(metrics[j])] == Text(TierOf(tiers, round2(rating[metrics[j]])))
      invariant forall m :: m in metrics && m !in rating ==>
                  (m in a <==> m in a0) && (m in a ==> a[m] == a0[m]) &&
                  (TierKey(m) in a <==> TierKey(m) in a0) && (TierKey(m) in a ==> a[TierKey(m)] == a0[TierKey(m)])
    {
      var metric := metrics[i];
      if metric in rating {
        var value := round2(rating[metric]);
        var tier := GetTier(tiers, value);
        var key := TierKey(metric);
        TierKeyOf(metric, metrics);
        var next := a[metric := Num(value)][key := Text(tier)];
        forall k | !IsRawKeyOf(k, metrics) ensures (k in next <==> k in a) && (k in next ==> next[k] == a[k]) {
          assert k != key && k != metric;
        }
        forall m | m in metrics && m !in rating
          ensures (m in next <==> m in a) && (m in next ==> next[m] == a[m]) &&
                  (TierKey(m) in next <==> TierKey(m) in a) && (TierKey(m) in next ==> next[TierKey(m)] == a[TierKey(m)])
        {
          assert m != metric && m != key && TierKey(m) != metric;
          TierKeyInjective(m, metric);
        }
        forall j | 0 <= j <= i && metrics[j] in rating
          ensures metrics[j] in next && next[metrics[j]] == Num(round2(rating[metrics[j]])) &&
                  TierKey(metrics[j]) in next &&
                  next[TierKey(metrics[j])] == Text(TierOf(tiers, round2(rating[metrics[j]])))
        {
          var n := metrics[j];
          if n != metric {
            NoTierClashAt(metrics, j, i);
            NoTierClashAt(metrics, i, j);
            TierKeyInjective(n, metric);
            assert next[n] == a[n] && next[TierKey(n)] == a[TierKey(n)];
          }
        }
        a := next;
      }
      i := i + 1;
    }
  }

  // ---------------------------------------------------------------------
  // The whole analysis

  /** The keys the three core-skill diffs read. */
  predicate CoreKeysPresent(row: Metrics, rating: Metrics) {
    "Aim" in row && "Positioning" in row && "Utility" in row &&
    "aim" in rating && "positioning" in rating && "utility" in rating
  }

  predicate Has(a: Analysis, k: string, v: Value) {
    k in a && a[k] == v
  }

  /**
   * The analysis once a non-empty reference row `row`, labelled `rank`, was
   * found and no key is missing: the label, the reference values, the three
   * core-skill diffs, a diff for every detailed metric both the stats and the
   * row hold, every raw metric the rating holds with its tier, the tier
   * table and the metric names, and no other entries.
   */
  ghost predicate Filled(a: Analysis, rank: string, values: Metrics, row: Metrics, rating: Metrics, stats: Metrics,
                         tiers: TierTable, round2: real -> real)
    requires CoreKeysPresent(row, rating)
  {
    && Has(a, "reference_rank", Text(rank))
    && Has(a, "reference_values", Numbers(values))
    && Has(a, "aim_diff", Num(round2(rating["aim"] - row["Aim"])))
    && Has(a, "positioning_diff", Num(round2(rating["positioning"] - row["Positioning"])))
    && Has(a, "utility_diff", Num(round2(rating["utility"] - row["Utility"])))
    && Has(a, "leetify_tiers", Tiers(tiers))
    && Has(a, "metric_names", Names(MetricNames))
    && (forall m :: m in DetailedMetrics ==> (DiffKey(m) in a <==> m in stats && m in row))
    && (forall m :: m in DetailedMetrics && m in stats && m in row ==> a[DiffKey(m)] == Num(round2(stats[m] - row[m])))
    && (forall m :: m in RawMetrics ==> (m in a <==> m in rating) && (TierKey(m) in a <==> m in rating))
    && (forall m :: m in RawMetrics && m in rating ==>
          a[m] == Num(round2(rating[m])) && a[TierKey(m)] == Text(TierOf(tiers, round2(rating[m]))))
    && (forall k :: k in a ==> k in InitialKeys || IsDiffKey(k) || IsRawKey(k))
  }

  /**
   * What `analyze_player_data` returns for a profile with all three parts:
   * the initial analysis unchanged when no non-empty reference row is found;
   * otherwise the KeyError of the first missing key, or the filled analysis.
   */
  ghost predicate Outcome(rating: Metrics, ranks: Ranks, stats: Metrics, premierTable: RankTable,
                          faceitTable: RankTable, tiers: TierTable, round2: real -> real,
                          r: Result<Analysis, Error>)
  {
    var s := Selection(ranks, premierTable, faceitTable);
    if s.None? || s.value.row == map[] then
      r == Ok(InitialAnalysis(tiers))
    else
      match MissingKey(s.value.row, rating)
      case Some(e) => r == Err(e)
      case None =>
        r.Ok? && Filled(r.value, s.value.rank, ReferenceValues(s.value.row).value, s.value.row, rating, stats, tiers, round2)
  }

  /** The missing key, told apart by where the analysis raises it. */
  lemma MissingKeyCases(row: Metrics, rating: Metrics)
    ensures ReferenceValues(row).Err? ==> MissingKey(row, rating) == Some(ReferenceValues(row).error)
    ensures ReferenceValues(row).Ok? ==>
              "Aim" in row && "Positioning" in row && "Utility" in row &&
              MissingKey(row, rating) ==
                if "aim" !in rating then Some(KeyError("aim"))
                else if "positioning" !in rating then Some(KeyError("positioning"))
                else if "utility" !in rating then Some(KeyError("utility"))
                else None
  {
    ReferenceFieldsDistinct();
    assert ReferenceFields[0].1 == "Aim" && ReferenceFields[1].1 == "Positioning" && ReferenceFields[2].1 == "Utility";
    assert CoreSkillFields[0].1 == "aim" && CoreSkillFields[1].1 == "positioning" && CoreSkillFields[2].1 == "utility";
  }

  /**
   * The body of `if reference:` in `analyze_player_data`, from the initial
   * analysis, a non-empty reference row and its label.
   */
  method Fill(rank: string, row: Metrics, rating: Metrics, stats: Metrics, tiers: TierTable, round2: real -> real)
    returns (r: Result<Analysis, Error>)
    ensures MissingKey(row, rating).Some? ==> r == Err(MissingKey(row, rating).value)
    ensures MissingKey(row, rating).None? ==>
              r.Ok? && Filled(r.value, rank, ReferenceValues(row).value, row, rating, stats, tiers, round2)
  {
    MissingKeyCases(row, rating);
    var analysis := InitialAnalysis(tiers);
    analysis := analysis["reference_rank" := Text(rank)];
    var values := ReferenceValues(row);
    if values.Err? {
      return Err(values.error);
    }
    analysis := analysis["reference_values" := Numbers(values.value)];
    StoredReference(tiers, rank, values.value);
    r := FillDiffs(analysis, rank, values.value, row, rating, stats, tiers, round2);
  }

  /** The entries of the analysis that the core-skill diffs leave as they are. */
  predicate Settled(a: Analysis, rank: string, values: Metrics, tiers: TierTable) {
    && a.Keys == InitialKeys
    && Has(a, "reference_rank", Text(rank))
    && Has(a, "reference_values", Numbers(values))
    && Has(a, "leetify_tiers", Tiers(tiers))
    && Has(a, "metric_names", Names(MetricNames))
  }

  /** Storing the label and the reference values settles those entries. */
  lemma StoredReference(tiers: TierTable, rank: string, values: Metrics)
    ensures Settled(InitialAnalysis(tiers)["reference_rank" := Text(rank)]["reference_values" := Numbers(values)],
                    rank, values, tiers)
  {
    var a := InitialAnalysis(tiers);
    assert a.Keys == InitialKeys && Has(a, "leetify_tiers", Tiers(tiers)) && Has(a, "metric_names", Names(MetricNames));
    var b := a["reference_rank" := Text(rank)];
    assert b.Keys == InitialKeys && Has(b, "leetify_tiers", Tiers(tiers)) && Has(b, "metric_names", Names(MetricNames));
  }

  /** The rest of `if reference:`, once `reference_values` is built. */
  method FillDiffs(analysis0: Analysis, rank: string, values: Metrics, row: Metrics, rating: Metrics,
                   stats: Metrics, tiers: TierTable, round2: real -> real)
    returns (r: Result<Analysis, Error>)
    requires "Aim" in row && "Positioning" in row && "Utility" in row
    requires Settled(analysis0, rank, values, tiers)
    ensures "aim" !in rating ==> r == Err(KeyError("aim"))
    ensures "aim" in rating && "positioning" !in rating ==> r == Err(KeyError("positioning"))
    ensures "aim" in rating && "positioning" in rating && "utility" !in rating ==> r == Err(KeyError("utility"))
    ensures CoreKeysPresent(row, rating) ==> r.Ok? && Filled(r.value, rank, values, row, rating, stats, tiers, round2)
  {
    var analysis := analysis0;
    if "aim" !in rating {
      return Err(KeyError("aim"));
    }
    var aim := Num(round2(rating["aim"] - row["Aim"]));
    analysis := analysis["aim_diff" := aim];
    assert Settled(analysis, rank, values, tiers) && Has(analysis, "aim_diff", aim);
    if "positioning" !in rating {
      return Err(KeyError("positioning"));
    }
    var positioning := Num(round2(rating["positioning"] - row["Positioning"]));
    analysis := analysis["positioning_diff" := positioning];
    assert Settled(analysis, rank, values, tiers) && Has(analysis, "aim_diff", aim) &&
           Has(analysis, "positioning_diff", positioning);
    if "utility" !in rating {
      return Err(KeyError("utility"));
    }
    var utility := Num(round2(rating["utility"] - row["Utility"]));
    analysis := analysis["utility_diff" := utility];
    assert Settled(analysis, rank, values, tiers) && Has(analysis, "aim_diff", aim) &&
           Has(analysis, "positioning_diff", positioning) && Has(analysis, "utility_diff", utility);
    forall k | k in analysis ensures !IsDiffKey(k) && !IsRawKey(k) {
      InitialKeysFixed(k);
    }
    analysis := FillMetrics(analysis, row, rating, stats, tiers, round2);
    return Ok(analysis);
  }

  /**
   * The two metric loops, run on an analysis that holds no diff key and no
   * raw key yet: they add those keys and keep every other entry.
   */
  method FillMetrics(core: Analysis, row: Metrics, rating: Metrics, stats: Metrics, tiers: TierTable, round2: real -> real)
    returns (a: Analysis)
    requires forall k :: k in core ==> !IsDiffKey(k) && !IsRawKey(k)
    ensures forall k :: k in core ==> k in a && a[k] == core[k]
    ensures forall k :: k in a ==> k in core || IsDiffKey(k) || IsRawKey(k)
    ensures forall m :: m in DetailedMetrics ==> (DiffKey(m) in a <==> m in stats && m in row)
    ensures forall m :: m in DetailedMetrics && m in stats && m in row ==> a[DiffKey(m)] == Num(round2(stats[m] - row[m]))
    ensures forall m :: m in RawMetrics ==> (m in a <==> m in rating) && (TierKey(m) in a <==> m in rating)
    ensures forall m :: m in RawMetrics && m in rating ==>
              a[m] == Num(round2(rating[m])) && a[TierKey(m)] == Text(TierOf(tiers, round2(rating[m])))
  {
    forall m | m in DetailedMetrics ensures DiffKey(m) !in core {
      DiffKeyShape(m);
    }
    var diffs := AddDiffs(core, DetailedMetrics, stats, row, round2);
    forall m | m in RawMetrics ensures m !in diffs && TierKey(m) !in diffs {
      RawKeyShape(m);
    }
    RawMetricsNoClash();
    a := AddRawMetrics(diffs, RawMetrics, rating, tiers, round2);
    forall k | k in core ensures k in a && a[k] == core[k] {
      assert !IsRawKey(k);
    }
    forall m | m in DetailedMetrics ensures DiffKey(m) in a <==> DiffKey(m) in diffs {
      DiffKeyShape(m);
    }
  }

  /** `analyze_player_data` with the reference tables given as arguments. */
  method AnalyzePlayerData(profile: Profile, premierTable: RankTable, faceitTable: RankTable,
                           tiers: TierTable, round2: real -> real)
    returns (r: Result<Analysis, Error>)
    ensures profile.rating.None? ==> r == Err(KeyError("rating"))
    ensures profile.rating.Some? && profile.ranks.None? ==> r == Err(KeyError("ranks"))
    ensures profile.rating.Some? && profile.ranks.Some? && profile.stats.None? ==> r == Err(KeyError("stats"))
    ensures profile.rating.Some? && profile.ranks.Some? && profile.stats.Some? ==>
              Outcome(profile.rating.value, profile.ranks.value, profile.stats.value,
                      premierTable, faceitTable, tiers, round2, r)
  {
    if profile.rating.None? { return Err(KeyError("rating")); }
    if profile.ranks.None? { return Err(KeyError("ranks")); }
    if profile.stats.None? { return Err(KeyError("stats")); }
    var rating, ranks, stats := profile.rating.value, profile.ranks.value, profile.stats.value;
    var reference, referenceRank := SelectReference(ranks, premierTable, faceitTable);
    if reference.Some? && reference.value != map[] {
      r := Fill(referenceRank.value, reference.value, rating, stats, tiers, round2);
    } else {
      r := Ok(InitialAnalysis(tiers));
    }
  }

  // ---------------------------------------------------------------------
  // Properties of the outcome

  /**
   * Without a non-empty reference row the analysis is returned as first
   * built: the diffs, the reference values and the label stay None, and no
   * diff, raw-metric or tier key is added.
   */
  lemma NoReferenceKeepsInitial(rating: Metrics, ranks: Ranks, stats: Metrics, premierTable: RankTable,
                                faceitTable: RankTable, tiers: TierTable, round2: real -> real,
                                r: Result<Analysis, Error>)
    requires Outcome(rating, ranks, stats, premierTable, faceitTable, tiers, round2, r)
    requires Selection(ranks, premierTable, faceitTable).None? ||
             Selection(ranks, premierTable, faceitTable).value.row == map[]
    ensures r.Ok? && r.value.Keys == InitialKeys
    ensures forall k :: k in r.value ==> !IsDiffKey(k) && !IsRawKey(k)
    ensures r.value["aim_diff"] == Null && r.value["positioning_diff"] == Null && r.value["utility_diff"] == Null
    ensures r.value["reference_values"] == Null && r.value["reference_rank"] == Null
  {
    forall k | k in r.value ensures !IsDiffKey(k) && !IsRawKey(k) {
      InitialKeysFixed(k);
    }
  }

  /** A KeyError is raised only once a non-empty reference row was found. */
  lemma ErrorNeedsReference(rating: Metrics, ranks: Ranks, stats: Metrics, premierTable: RankTable,
                            faceitTable: RankTable, tiers: TierTable, round2: real -> real,
                            r: Result<Analysis, Error>)
    requires Outcome(rating, ranks, stats, premierTable, faceitTable, tiers, round2, r)
    requires r.Err?
    ensures Selection(ranks, premierTable, faceitTable).Some?
    ensures Selection(ranks, premierTable, faceitTable).value.row != map[]
    ensures MissingKey(Selection(ranks, premierTable, faceitTable).value.row, rating) == Some(r.error)
  {
  }

  /** The tier table and the metric names are in every analysis returned. */
  lemma TablesAlwaysPresent(rating: Metrics, ranks: Ranks, stats: Metrics, premierTable: RankTable,
                            faceitTable: RankTable, tiers: TierTable, round2: real -> real,
                            r: Result<Analysis, Error>)
    requires Outcome(rating, ranks, stats, premierTable, faceitTable, tiers, round2, r)
    requires r.Ok?
    ensures Has(r.value, "leetify_tiers", Tiers(tiers)) && Has(r.value, "metric_names", Names(MetricNames))
  {
  }

  /**
   * Every stored raw metric is a number and its tier is the tier of that
   * same stored number, whatever the rounding does.
   */
  lemma TierOfStoredValue(rating: Metrics, ranks: Ranks, stats: Metrics, premierTable: RankTable,
                          faceitTable: RankTable, tiers: TierTable, round2: real -> real,
                          r: Result<Analysis, Error>, m: string)
    requires Outcome(rating, ranks, stats, premierTable, faceitTable, tiers, round2, r)
    requires r.Ok? && m in RawMetrics && m in r.value
    ensures r.value[m].Num? && TierKey(m) in r.value
    ensures r.value[TierKey(m)] == Text(TierOf(tiers, r.value[m].x))
  {
    var s := Selection(ranks, premierTable, faceitTable);
    if s.None? || s.value.row == map[] {
      NoReferenceKeepsInitial(rating, ranks, stats, premierTable, faceitTable, tiers, round2, r);
      RawKeyShape(m);
      assert false;
    }
  }
}
