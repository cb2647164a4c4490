// `extractScore` of frontend/src/App.js: the number in the first match of
// `/\*\*Overall Score:\s*(\d+)\/100\*\*/i`, or nothing.
module Score {
  import opened Wrappers
  import opened Decimal
  import opened JsText

  /** The words between the opening "**" and the white space: matched ignoring case. */
  const Label: string := "Overall Score:"

  /** What the `i` flag compares: ASCII letters folded to upper case. Without
      the `u` flag a non-ASCII character never folds onto an ASCII one, so no
      other character matches a letter of `Label`. */
  function Upper(c: char): char {
    if 'a' <= c <= 'z' then (c as int - 32) as char else c
  }

  predicate SameIgnoringCase(c: char, p: char) { Upper(c) == Upper(p) }

  /** `s` opens with "**" and the label, ignoring case. */
  predicate LabelFirst(s: string) {
    && 2 + |Label| <= |s|
    && s[0] == '*' && s[1] == '*'
    && forall k :: 0 <= k < |Label| ==> SameIgnoringCase(s[2 + k], Label[k])
  }

  /** "/100**" stands at `e`. */
  predicate CloseAt(s: string, e: nat) {
    && e + 6 <= |s|
    && s[e] == '/' && s[e + 1] == '1' && s[e + 2] == '0' && s[e + 3] == '0'
    && s[e + 4] == '*' && s[e + 5] == '*'
  }

  /** End of the greedy `\s*` that starts at `j`. */
  function SpaceRunEnd(s: string, j: nat): (e: nat)
    requires j <= |s|
    ensures j <= e <= |s| && (e == |s| || !IsSpace(s[e]))
    ensures forall k :: j <= k < e ==> IsSpace(s[k])
    decreases |s| - j
  {
    if j < |s| && IsSpace(s[j]) then SpaceRunEnd(s, j + 1) else j
  }

  /** End of the greedy `\d+` that starts at `j` (`j` itself when no digit stands there). */
  function DigitRunEnd(s: string, j: nat): (e: nat)
    requires j <= |s|
    ensures j <= e <= |s| && (e == |s| || !IsDigit(s[e]))
    ensures forall k :: j <= k < e ==> IsDigit(s[k])
    decreases |s| - j
  {
    if j < |s| && IsDigit(s[j]) then DigitRunEnd(s, j + 1) else j
  }

  /** The expression anchored at the start of `s`: the captured number, if it
      matches. Neither greedy run can give a character back to help what
      follows it match, so the first attempt decides. */
  function MatchHere(s: string): Option<nat> {
    if !LabelFirst(s) then None
    else
      var d := SpaceRunEnd(s, 2 + |Label|);
      var e := DigitRunEnd(s, d);
      if d < e && CloseAt(s, e) then Some(DigitsValue(s[d..e])) else None
  }

  /** The expression tried at position `i`; it looks at nothing before `i`. */
  function ScoreAt(s: string, i: nat): Option<nat>
    requires i <= |s|
  {
    MatchHere(s[i..])
  }

  /** The leftmost position at or after `from` where the expression matches. */
  function FirstMatch(s: string, from: nat): (r: Option<nat>)
    requires from <= |s|
    ensures r.Some? ==> from <= r.value <= |s| && ScoreAt(s, r.value).Some?
    ensures r.Some? ==> forall k :: from <= k < r.value ==> ScoreAt(s, k).None?
    ensures r.None? ==> forall k :: from <= k <= |s| ==> ScoreAt(s, k).None?
    decreases |s| - from
  {
    if ScoreAt(s, from).Some? then Some(from)
    else if from == |s| then None
    else FirstMatch(s, from + 1)
  }

  /** `extractScore(text)`: `parseInt` of the digits of the first match. */
  function ExtractScore(text: string): Option<nat> {
    match FirstMatch(text, 0)
    case Some(k) => ScoreAt(text, k)
    case None => None
  }

  /** The score is the number of the leftmost match, whatever follows it. */
  lemma ExtractScoreIsLeftmost(text: string, k: nat)
    requires k <= |text| && ScoreAt(text, k).Some?
    requires forall j :: 0 <= j < k ==> ScoreAt(text, j).None?
    ensures ExtractScore(text) == ScoreAt(text, k)
  {
    var r := FirstMatch(text, 0);
    assert r.Some?;
  }

  /** No score exactly when the expression matches nowhere. */
  lemma ExtractScoreAbsent(text: string)
    ensures ExtractScore(text).None? <==> forall k :: 0 <= k <= |text| ==> ScoreAt(text, k).None?
  {
  }

  /** A text without '*' has no score. */
  lemma StarFreeHasNoScore(text: string)
    requires '*' !in text
    ensures ExtractScore(text) == None
  {
    forall k | 0 <= k <= |text| ensures ScoreAt(text, k).None? {
      if k < |text| { assert text[k..][0] == text[k]; }
    }
  }

  /** The greedy space run ends at the first non-space. */
  lemma {:induction false} SpaceRunEndIs(s: string, j: nat, e: nat)
    requires j <= e <= |s| && (e == |s| || !IsSpace(s[e]))
    requires forall k :: j <= k < e ==> IsSpace(s[k])
    ensures SpaceRunEnd(s, j) == e
    decreases e - j
  {
    if j < e { SpaceRunEndIs(s, j + 1, e); }
  }

  /** The greedy digit run ends at the first non-digit. */
  lemma {:induction false} DigitRunEndIs(s: string, j: nat, e: nat)
    requires j <= e <= |s| && (e == |s| || !IsDigit(s[e]))
    requires forall k :: j <= k < e ==> IsDigit(s[k])
    ensures DigitRunEnd(s, j) == e
    decreases e - j
  {
    if j < e { DigitRunEndIs(s, j + 1, e); }
  }

  /** The match found from its parts: the label, a space run up to `d`, a
      digit run from `d` to `e`, and "/100**" at `e`. */
  lemma MatchHereFromParts(s: string, d: nat, e: nat, n: nat)
    requires LabelFirst(s)
    requires 2 + |Label| <= d < e <= |s|
    requires forall k :: 2 + |Label| <= k < d ==> IsSpace(s[k])
    requires forall k :: d <= k < e ==> IsDigit(s[k])
    requires CloseAt(s, e)
    requires DigitsValue(s[d..e]) == n
    ensures MatchHere(s) == Some(n)
  {
    SpaceRunEndIs(s, 2 + |Label|, d);
    DigitRunEndIs(s, d, e);
  }

  /** Conversely, a match consists of exactly those parts: the label, a
      space run, a non-empty digit run whose value is the capture, and "/100**". */
  lemma MatchHereParts(s: string, n: nat)
    requires MatchHere(s) == Some(n)
    ensures LabelFirst(s)
    ensures exists d: nat, e: nat ::
              && 2 + |Label| <= d < e <= |s|
              && (forall k :: 2 + |Label| <= k < d ==> IsSpace(s[k]))
              && (forall k :: d <= k < e ==> IsDigit(s[k]))
              && CloseAt(s, e)
              && DigitsValue(s[d..e]) == n
  {
    var d := SpaceRunEnd(s, 2 + |Label|);
    var e := DigitRunEnd(s, d);
    assert CloseAt(s, e) && DigitsValue(s[d..e]) == n;
  }

  /** A score found is the capture of the leftmost match: no earlier position matches. */
  lemma ExtractScoreFound(text: string, n: nat)
    requires ExtractScore(text) == Some(n)
    ensures exists k :: 0 <= k <= |text| && ScoreAt(text, k) == Some(n) &&
                        forall j :: 0 <= j < k ==> ScoreAt(text, j).None?
  {
    var k := FirstMatch(text, 0).value;
    assert ScoreAt(text, k) == Some(n);
  }

  /** A score line: "**", the label as written (`words`), white space, the
      decimal text of `n` and "/100**". */
  function ScoreLine(words: string, ws: string, n: nat): string {
    "**" + words + ws + NatToString(n) + "/100**"
  }

  /** A score line matches, capturing `n`, whatever follows it. */
  lemma MatchHereRendered(words: string, ws: string, n: nat, rest: string)
    requires |words| == |Label| && forall k :: 0 <= k < |Label| ==> SameIgnoringCase(words[k], Label[k])
    requires AllSpace(ws)
    ensures MatchHere(ScoreLine(words, ws, n) + rest) == Some(n)
  {
    var digits := NatToString(n);
    var close := "/100**" + rest;
    var s := ScoreLine(words, ws, n) + rest;
    var b := 2 + |Label|;
    var d := b + |ws|;
    var e := d + |digits|;
    assert forall k :: 0 <= k < |words| ==> s[2 + k] == words[k];
    assert forall k :: 0 <= k < |ws| ==> s[b + k] == ws[k];
    assert forall k :: 0 <= k < |digits| ==> s[d + k] == digits[k];
    assert s[e..] == close;
    assert s[d..e] == digits;
    DigitsValueOfNatToString(n);
    MatchHereFromParts(s, d, e, n);
  }

  /** A report whose first '*' opens a score line yields that line's score,
      out of the range 0..100 or not. */
  lemma ExtractScoreRendered(prefix: string, words: string, ws: string, n: nat, rest: string)
    requires '*' !in prefix
    requires |words| == |Label| && forall k :: 0 <= k < |Label| ==> SameIgnoringCase(words[k], Label[k])
    requires AllSpace(ws)
    ensures ExtractScore(prefix + ScoreLine(words, ws, n) + rest) == Some(n)
  {
    var tail := ScoreLine(words, ws, n) + rest;
    var text := prefix + ScoreLine(words, ws, n) + rest;
    MatchHereRendered(words, ws, n, rest);
    var p := |prefix|;
    assert text[p..] == tail;
    forall j | 0 <= j < p ensures ScoreAt(text, j).None? { assert text[j..][0] == prefix[j]; }
    ExtractScoreIsLeftmost(text, p);
  }

  /** A report without a score line. */
  lemma ExampleNoScore()
    ensures ExtractScore("no score here") == None
  {
    StarFreeHasNoScore("no score here");
  }
}
