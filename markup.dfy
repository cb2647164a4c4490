/** `formatRecommendations` of frontend/src/App.js: the generated recommendation
    text becomes an HTML string, one `<li>` or `<p>` fragment per line, with
    `**bold**` and `*italic*` rewritten to `<strong>` and `<em>`. */
module Markup {
  import opened Wrappers
  import opened Decimal
  import opened JsText

  // ---------------------------------------------------------------------------
  // `.replace(/\*\*(.*?)\*\*/g, '<strong>$1</strong>')`

  predicate DoubleStarAt(s: string, k: int) {
    0 <= k && k + 1 < |s| && s[k] == '*' && s[k + 1] == '*'
  }

  /** `k` can end the lazy group `(.*?)` that starts at `from`: "**" stands at
      `k` and `.` accepts every character from `from` up to `k`. */
  predicate LazyCloseAt(s: string, from: nat, k: int) {
    from <= k && DoubleStarAt(s, k) && forall m :: from <= m < k ==> !IsLineTerminator(s[m])
  }

  /** Where the lazy group starting at `from` ends: the smallest closing "**". */
  function BoldClose(s: string, from: nat): (r: Option<nat>)
    requires from <= |s|
    ensures r.Some? ==> LazyCloseAt(s, from, r.value)
    ensures r.Some? ==> forall k :: from <= k < r.value ==> !LazyCloseAt(s, from, k)
    ensures r.None? ==> forall k :: !LazyCloseAt(s, from, k)
    decreases |s| - from
  {
    if from + 1 >= |s| then None
    else if DoubleStarAt(s, from) then Some(from)
    else if IsLineTerminator(s[from]) then None
    else
      var r := BoldClose(s, from + 1);
      assert forall k :: LazyCloseAt(s, from, k) ==> k == from || LazyCloseAt(s, from + 1, k);
      r
  }

  /** One step of the global bold rewrite at the start of `s`: what it emits
      and where the scan resumes. A match of `\*\*(.*?)\*\*` is replaced and
      the scan resumes after it; otherwise one character is copied. */
  function BoldStep(s: string): (step: (string, nat))
    requires s != []
    ensures 0 < step.1 <= |s|
  {
    if DoubleStarAt(s, 0) && BoldClose(s, 2).Some? then
      var j := BoldClose(s, 2).value;
      ("<strong>" + s[2..j] + "</strong>", j + 2)
    else ([s[0]], 1)
  }

  /** The global bold rewrite, scanning left to right. */
  function Bold(s: string): string
    decreases |s|
  {
    if s == [] then [] else
      var step := BoldStep(s);
      step.0 + Bold(s[step.1..])
  }

  // ---------------------------------------------------------------------------
  // `.replace(/\*([^*]+)\*/g, '<em>$1</em>')`

  /** The first '*' at or after `from`. */
  function NextStar(s: string, from: nat): (r: Option<nat>)
    requires from <= |s|
    ensures r.Some? ==> from <= r.value < |s| && s[r.value] == '*'
    ensures r.Some? ==> forall k :: from <= k < r.value ==> s[k] != '*'
    ensures r.None? ==> forall k :: from <= k < |s| ==> s[k] != '*'
    decreases |s| - from
  {
    if from == |s| then None
    else if s[from] == '*' then Some(from)
    else NextStar(s, from + 1)
  }

  /** Where `\*([^*]+)\*` matching at 0 ends: the closing '*' after a non-empty, star-free group. */
  function ItalicClose(s: string): (r: Option<nat>)
    requires s != [] && s[0] == '*'
    ensures r.Some? <==> exists j :: 1 < j < |s| && s[j] == '*' && forall k :: 1 <= k < j ==> s[k] != '*'
    ensures r.Some? ==> 1 < r.value < |s| && s[r.value] == '*' && forall k :: 1 <= k < r.value ==> s[k] != '*'
  {
    match NextStar(s, 1)
    case Some(j) => if j > 1 then Some(j) else None
    case None => None
  }

  /** One step of the global italic rewrite at the start of `s`. */
  function ItalicStep(s: string): (step: (string, nat))
    requires s != []
    ensures 0 < step.1 <= |s|
  {
    if s[0] == '*' && ItalicClose(s).Some? then
      var j := ItalicClose(s).value;
      ("<em>" + s[1..j] + "</em>", j + 1)
    else ([s[0]], 1)
  }

  /** The global italic rewrite, scanning left to right like `Bold`. */
  function Italic(s: string): string
    decreases |s|
  {
    if s == [] then [] else
      var step := ItalicStep(s);
      step.0 + Italic(s[step.1..])
  }

  /** Both inline rewrites, bold first. */
  function Inline(s: string): string {
    Italic(Bold(s))
  }

  // ---------------------------------------------------------------------------
  // Lines

  /** `line.trim().startsWith('* ')`. */
  predicate IsBullet(line: string) {
    var t := Trim(line);
    |t| >= 2 && t[0] == '*' && t[1] == ' '
  }

  // `line.replace(/^\s*\*\s*/, '')`: leading space, one '*' and the space after it go.
  function StripBullet(line: string): string {
    var t := TrimStart(line);
    if t != [] && t[0] == '*' then TrimStart(t[1..]) else line
  }

  /** The fragment one line of the split becomes; `index` is its position in the split. */
  function FormatLine(line: string, index: nat): string {
    if IsBullet(line) then
      "<li key=\"" + NatToString(index) + "\">" + Inline(StripBullet(line)) + "</li>"
    else
      var formatted := Inline(line);
      if formatted == "" then "" else "<p key=\"" + NatToString(index) + "\">" + formatted + "</p>"
  }

  /** `lines.map(f).join('')`, where `f` gets each line and its index, the first line having index `first`. */
  function MapJoin(f: (string, nat) -> string, lines: seq<string>, first: nat): string
    decreases |lines|
  {
    if lines == [] then "" else f(lines[0], first) + MapJoin(f, lines[1..], first + 1)
  }

  /** `lines.map((line, index) => ...).join('')` with the formatter's line callback. */
  function FormatLines(lines: seq<string>, first: nat): string {
    MapJoin(FormatLine, lines, first)
  }

  /** `formatRecommendations(text)`; `None` stands for `null` and `undefined`. */
  function FormatRecommendations(text: Option<string>): string {
    if text.None? || text.value == "" then "" else FormatLines(SplitLines(text.value), 0)
  }

  // ---------------------------------------------------------------------------
  // Rewriting laws

  /** Text without '*' passes through the bold rewrite untouched. */
  lemma {:induction false} BoldCopiesStarFree(p: string, t: string)
    requires '*' !in p
    ensures Bold(p + t) == p + Bold(t)
    decreases |p|
  {
    if p != [] {
      var s := p + t;
      assert s[0] == p[0] && s[1..] == p[1..] + t;
      assert !DoubleStarAt(s, 0);
      BoldCopiesStarFree(p[1..], t);
      assert [p[0]] + p[1..] == p;
    } else {
      assert p + t == t;
    }
  }

  /** A '*' that opens no bold match is copied as it is, and the scan moves on by one. */
  lemma BoldNoMatchCopies(s: string)
    requires s != [] && !(DoubleStarAt(s, 0) && BoldClose(s, 2).Some?)
    ensures Bold(s) == [s[0]] + Bold(s[1..])
  {
  }

  /** A '*' that opens no italic match is copied as it is, and the scan moves on by one. */
  lemma ItalicNoMatchCopies(s: string)
    requires s != [] && !(s[0] == '*' && ItalicClose(s).Some?)
    ensures Italic(s) == [s[0]] + Italic(s[1..])
  {
  }

  /** Text without '*' passes through the italic rewrite untouched. */
  lemma {:induction false} ItalicCopiesStarFree(p: string, t: string)
    requires '*' !in p
    ensures Italic(p + t) == p + Italic(t)
    decreases |p|
  {
    if p != [] {
      var s := p + t;
      assert s[0] == p[0] && s[1..] == p[1..] + t;
      ItalicCopiesStarFree(p[1..], t);
      assert [p[0]] + p[1..] == p;
    } else {
      assert p + t == t;
    }
  }

  /** A line without '*' is left as it is by both rewrites. */
  lemma InlineStarFree(s: string)
    requires '*' !in s
    ensures Bold(s) == s && Italic(s) == s && Inline(s) == s
  {
    BoldCopiesStarFree(s, []);
    ItalicCopiesStarFree(s, []);
    assert s + [] == s;
  }

  /** `x` is what the lazy `(.*?)` captures between "**" and "**": no line
      terminator, and no "**" closes earlier (a trailing '*' of `x` would
      form one with the closing pair). */
  predicate LazyBody(x: string) {
    forall k :: 0 <= k < |x| ==> !IsLineTerminator(x[k]) && !DoubleStarAt(x + "*", k)
  }

  /** The leftmost "**x**" with the shortest `x` becomes `<strong>x</strong>`. */
  lemma BoldRewrites(x: string, rest: string)
    requires LazyBody(x)
    ensures Bold("**" + x + "**" + rest) == "<strong>" + x + "</strong>" + Bold(rest)
  {
    var s := "**" + x + "**" + rest;
    var e := 2 + |x|;
    assert s[2..e] == x && s[e + 2..] == rest;
    assert LazyCloseAt(s, 2, e) by {
      forall m | 2 <= m < e ensures !IsLineTerminator(s[m]) { assert s[m] == x[m - 2]; }
    }
    assert DoubleStarAt(s, 0);
    var r := BoldClose(s, 2);
    assert r.Some?;
    forall k | 2 <= k < e ensures !LazyCloseAt(s, 2, k) {
      assert s[k] == (x + "*")[k - 2] && s[k + 1] == (x + "*")[k - 1];
      assert !DoubleStarAt(x + "*", k - 2);
    }
    assert r.value == e;
  }

  /** "*y*" with a non-empty, star-free `y` becomes `<em>y</em>`. */
  lemma ItalicRewrites(y: string, rest: string)
    requires y != [] && '*' !in y
    ensures Italic("*" + y + "*" + rest) == "<em>" + y + "</em>" + Italic(rest)
  {
    var s := "*" + y + "*" + rest;
    var e := 1 + |y|;
    assert s[1..e] == y && s[e + 1..] == rest && s[e] == '*';
    forall k | 1 <= k < e ensures s[k] != '*' { assert s[k] == y[k - 1]; }
    assert ItalicClose(s) == Some(e);
  }

  /** A rewrite never shortens its input. */
  lemma {:induction false} BoldLonger(s: string)
    ensures |Bold(s)| >= |s|
    decreases |s|
  {
    if s != [] {
      BoldLonger(s[BoldStep(s).1..]);
    }
  }

  lemma {:induction false} ItalicLonger(s: string)
    ensures |Italic(s)| >= |s|
    decreases |s|
  {
    if s != [] {
      ItalicLonger(s[ItalicStep(s).1..]);
    }
  }

  /** The inline rewrites give the empty string exactly for the empty line. */
  lemma InlineEmpty(s: string)
    ensures Inline(s) == "" <==> s == ""
  {
    BoldLonger(s);
    ItalicLonger(Bold(s));
  }

  // ---------------------------------------------------------------------------
  // Lines

  /** Leading space before a '*' is trimmed up to the '*'. */
  lemma TrimToStar(ws: string, u: string)
    requires AllSpace(ws) && u != [] && u[0] == '*'
    ensures TrimStart(ws + u) == u
  {
    TrimStartSpacePrefix(ws, u);
    assert !IsSpace('*');
  }

  /** Trimming text that starts with a non-space, after some space, leaves that text. */
  lemma TrimToBody(ws: string, body: string)
    requires AllSpace(ws) && (body == [] || !IsSpace(body[0]))
    ensures TrimStart(ws + body) == body
  {
    TrimStartSpacePrefix(ws, body);
  }

  /** The bullet marker regex removes the leading space, the '*' and the space
      after it, and nothing more. */
  lemma StripBulletRemovesMarker(ws: string, ws2: string, body: string)
    requires AllSpace(ws) && AllSpace(ws2)
    requires body == [] || !IsSpace(body[0])
    ensures StripBullet(ws + "*" + ws2 + body) == body
  {
    var u := "*" + ws2 + body;
    assert ws + "*" + ws2 + body == ws + u;
    TrimToStar(ws, u);
    assert u[1..] == ws2 + body;
    TrimToBody(ws2, body);
  }

  /** A line whose trimmed form starts with "* " is a list item keyed by its index,
      holding the rewritten text after the marker. */
  lemma BulletLine(ws: string, ws2: string, body: string, index: nat)
    requires AllSpace(ws) && AllSpace(ws2)
    requires body != [] && !IsSpace(body[0])
    ensures FormatLine(ws + "* " + ws2 + body, index)
         == "<li key=\"" + NatToString(index) + "\">" + Inline(body) + "</li>"
  {
    var line := ws + "* " + ws2 + body;
    var u := "* " + ws2 + body;
    assert line == ws + u;
    TrimStartSpacePrefix(ws, u);
    assert TrimStart(u) == u;
    var t := TrimEnd(u);
    assert u[2 + |ws2|] == body[0];
    TrimEndKeeps(u, 2 + |ws2|);
    assert t[0] == u[0] && t[1] == u[1];
    assert IsBullet(line);
    assert AllSpace(" " + ws2) by {
      forall i | 0 <= i < |" " + ws2| ensures IsSpace((" " + ws2)[i]) {
        if i > 0 { assert (" " + ws2)[i] == ws2[i - 1]; }
      }
    }
    assert line == ws + "*" + (" " + ws2) + body;
    StripBulletRemovesMarker(ws, " " + ws2, body);
  }

  /** Only the exact empty line is dropped. */
  lemma FormatLineEmpty(line: string, index: nat)
    ensures FormatLine(line, index) == "" <==> line == ""
  {
    InlineEmpty(line);
  }

  /** Any other non-empty line becomes a paragraph keyed by its index,
      holding the line after both inline rewrites. */
  lemma ParagraphLine(line: string, index: nat)
    requires line != "" && !IsBullet(line)
    ensures FormatLine(line, index) == "<p key=\"" + NatToString(index) + "\">" + Inline(line) + "</p>"
  {
    InlineEmpty(line);
  }

  /** A single '*' in otherwise star-free text opens no match, so both rewrites leave the text as it is. */
  lemma LoneStarCopied(p: string, q: string)
    requires '*' !in p && '*' !in q
    ensures Inline(p + "*" + q) == p + "*" + q
  {
    var u := "*" + q;
    assert p + "*" + q == p + u;
    assert u[1..] == q;
    InlineStarFree(q);
    assert !DoubleStarAt(u, 0) by { if |u| > 1 { assert u[1] == q[0]; } }
    BoldNoMatchCopies(u);
    BoldCopiesStarFree(p, u);
    assert Bold(p + u) == p + u;
    forall j | 1 <= j < |u| ensures u[j] != '*' { assert u[j] == q[j - 1]; }
    ItalicNoMatchCopies(u);
    ItalicCopiesStarFree(p, u);
  }

  /** White space holds no '*'. */
  lemma SpaceIsStarFree(ws: string)
    requires AllSpace(ws)
    ensures '*' !in ws
  {
    forall i | 0 <= i < |ws| ensures ws[i] != '*' { assert IsSpace(ws[i]); }
  }

  /** A '*' between white space trims to "*" alone, which is no bullet. */
  lemma LoneStarNotBullet(ws: string, w: string)
    requires AllSpace(ws) && AllSpace(w)
    ensures !IsBullet(ws + "*" + w)
  {
    var u := "*" + w;
    assert ws + "*" + w == ws + u;
    TrimToStar(ws, u);
    TrimEndSpaceSuffix("*", w);
    assert TrimEnd("*") == "*" by { assert !IsSpace('*'); }
  }

  /** A marker with nothing after it is no bullet, since `trim` also drops the
      space after the '*': the line becomes a paragraph holding it unchanged. */
  lemma LoneMarkerIsParagraph(ws: string, ws2: string, index: nat)
    requires AllSpace(ws) && AllSpace(ws2)
    ensures FormatLine(ws + "* " + ws2, index) == "<p key=\"" + NatToString(index) + "\">" + ws + "* " + ws2 + "</p>"
  {
    var w := " " + ws2;
    assert AllSpace(w) by {
      forall i | 0 <= i < |w| ensures IsSpace(w[i]) {
        if i > 0 { assert w[i] == ws2[i - 1]; }
      }
    }
    var line := ws + "* " + ws2;
    assert line == ws + "*" + w;
    LoneStarNotBullet(ws, w);
    SpaceIsStarFree(ws);
    SpaceIsStarFree(w);
    LoneStarCopied(ws, w);
    ParagraphLine(line, index);
  }

  /** A line of white space only is not dropped: it becomes a paragraph holding it. */
  lemma BlankLineIsParagraph(line: string, index: nat)
    requires line != [] && AllSpace(line)
    ensures FormatLine(line, index) == "<p key=\"" + NatToString(index) + "\">" + line + "</p>"
  {
    TrimStartAllSpace(line);
    assert forall i | 0 <= i < |line| :: line[i] != '*' by {
      forall i | 0 <= i < |line| ensures line[i] != '*' { assert IsSpace(line[i]); }
    }
    InlineStarFree(line);
  }

  /** The fragments of consecutive groups of lines follow each other, the
      indices of the second group continuing where the first stopped. */
  lemma {:induction false} MapJoinAppend(f: (string, nat) -> string, a: seq<string>, b: seq<string>, first: nat)
    ensures MapJoin(f, a + b, first) == MapJoin(f, a, first) + MapJoin(f, b, first + |a|)
    decreases |a|
  {
    if a == [] {
      assert a + b == b;
    } else {
      assert (a + b)[0] == a[0] && (a + b)[1..] == a[1..] + b;
      MapJoinAppend(f, a[1..], b, first + 1);
    }
  }

  /** Hence the formatted text of two groups of lines is the two formatted texts one after the other. */
  lemma FormatLinesAppend(a: seq<string>, b: seq<string>, first: nat)
    ensures FormatLines(a + b, first) == FormatLines(a, first) + FormatLines(b, first + |a|)
  {
    MapJoinAppend(FormatLine, a, b, first);
  }

  /** One line alone gives its own fragment. */
  lemma FormatLinesSingle(line: string, index: nat)
    ensures FormatLines([line], index) == FormatLine(line, index)
  {
    assert [line][1..] == [];
    assert MapJoin(FormatLine, [line], index) == FormatLine(line, index) + MapJoin(FormatLine, [], index + 1);
  }

  /** Absent or empty text gives the empty string. */
  lemma FormatRecommendationsEmpty()
    ensures FormatRecommendations(None) == ""
    ensures FormatRecommendations(Some("")) == ""
  {
  }

  /** The text made of the lines `ls` becomes the fragments of `ls`, in order,
      the i-th keyed "i". */
  lemma FormatRecommendationsOfLines(ls: seq<string>)
    requires |ls| >= 1 && (forall i :: 0 <= i < |ls| ==> '\n' !in ls[i])
    ensures FormatRecommendations(Some(JoinLines(ls))) == FormatLines(ls, 0)
  {
    SplitJoinLines(ls);
    if |ls| > 1 {
      assert JoinLines(ls) == ls[0] + "\n" + JoinLines(ls[1..]);
    } else if ls[0] == "" {
      FormatLineEmpty("", 0);
      FormatLinesSingle("", 0);
      assert ls == [""];
    }
  }
}
