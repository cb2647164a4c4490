// How the results page labels a difference from the reference average.
// `renderDiffMetric` uses a three-way sign rule with an optional swap for
// metrics where lower is better; the three core skills (aim, positioning,
// utility) use their own two-way rule. JavaScript numbers are modelled as
// reals.
module Performance {
  import opened Wrappers

  datatype Standing = Above | Below | Average

  /** The standing `renderDiffMetric` shows for `diff`. */
  function Performance(diff: real, isReversed: bool): (p: Standing)
    ensures !isReversed ==> (p == Above <==> diff > 0.0) && (p == Below <==> diff < 0.0)
    ensures isReversed ==> (p == Above <==> diff < 0.0) && (p == Below <==> diff > 0.0)
    ensures p == Average <==> diff == 0.0
  {
    if isReversed then
      (if diff < 0.0 then Above else if diff > 0.0 then Below else Average)
    else
      (if diff > 0.0 then Above else if diff < 0.0 then Below else Average)
  }

  function Swap(p: Standing): Standing {
    match p
    case Above => Below
    case Below => Above
    case Average => Average
  }

  /** The `+` written before a positive diff; nothing otherwise. */
  function SignPrefix(diff: real): (s: string)
    ensures s == "+" <==> diff > 0.0
    ensures s == "" <==> diff <= 0.0
  {
    if diff > 0.0 then "+" else ""
  }

  /** The CSS class of the label span: `performance-` and the standing in lower case. */
  function CssClass(p: Standing): (c: string)
    ensures |c| > |"performance-"| && c[..|"performance-"|] == "performance-"
  {
    "performance-" + match p
      case Above => "above"
      case Below => "below"
      case Average => "average"
  }

  /**
   * `renderDiffMetric` renders nothing when the analysis has no value for
   * the key, and otherwise the sign prefix and the standing.
   */
  function DiffMetric(diff: Option<real>, isReversed: bool): (r: Option<(string, Standing)>)
    ensures r.None? <==> diff.None?
    ensures r.Some? ==> (r.value.0 == "+" <==> diff.value > 0.0)
    ensures r.Some? ==> (r.value.0 == "" <==> diff.value <= 0.0)
    ensures r.Some? ==> (r.value.1 == Average <==> diff.value == 0.0)
    ensures r.Some? ==> (r.value.1 == Above <==> if isReversed then diff.value < 0.0 else diff.value > 0.0)
    ensures r.Some? ==> (r.value.1 == Below <==> if isReversed then diff.value > 0.0 else diff.value < 0.0)
  {
    match diff
    case None => None
    case Some(d) => Some((SignPrefix(d), Performance(d, isReversed)))
  }

  /** The standing a core skill shows: zero counts as below average. */
  function CoreSkill(diff: real): (p: Standing)
    ensures p != Average
    ensures p == Above <==> diff > 0.0
  {
    if diff > 0.0 then Above else Below
  }

  /** Reversing a metric swaps Above and Below and keeps Average. */
  lemma ReversedSwaps(diff: real)
    ensures Performance(diff, true) == Swap(Performance(diff, false))
  {
  }

  /** Reversing a metric labels `diff` as the plain rule labels `-diff`. */
  lemma ReversedIsNegated(diff: real)
    ensures Performance(diff, true) == Performance(-diff, false)
  {
  }

  /** Negating the diff swaps the standing. */
  lemma NegationSwaps(diff: real, isReversed: bool)
    ensures Performance(-diff, isReversed) == Swap(Performance(diff, isReversed))
  {
  }

  /** A `+` is written exactly when the plain rule says Above. */
  lemma PrefixMeansAbove(diff: real)
    ensures SignPrefix(diff) == "+" <==> Performance(diff, false) == Above
  {
  }

  /** The two-way core-skill rule agrees with the plain rule except at zero. */
  lemma CoreSkillAgrees(diff: real)
    ensures diff != 0.0 ==> CoreSkill(diff) == Performance(diff, false)
    ensures diff == 0.0 ==> CoreSkill(diff) == Below && Performance(diff, false) == Average
  {
  }
}
