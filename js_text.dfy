/** The JavaScript string built-ins the recommendation formatter relies on:
    the `\s` class (the same set `String.prototype.trim` removes), the line
    terminators the regular-expression `.` refuses, and `split('\n')`. */
module JsText {

  /** A line terminator: what `.` in a regular expression does not match. */
  predicate IsLineTerminator(c: char) {
    c == '\n' || c == '\r' || c == '\U{2028}' || c == '\U{2029}'
  }

  /** White space in ECMAScript's sense (WhiteSpace and LineTerminator): the
      characters `\s` matches and `trim` removes. */
  const SpaceChars: set<char> := {
    '\t', '\U{B}', '\U{C}', ' ', '\U{A0}', '\U{FEFF}', '\U{1680}',
    '\U{2000}', '\U{2001}', '\U{2002}', '\U{2003}', '\U{2004}', '\U{2005}',
    '\U{2006}', '\U{2007}', '\U{2008}', '\U{2009}', '\U{200A}',
    '\U{202F}', '\U{205F}', '\U{3000}',
    '\n', '\r', '\U{2028}', '\U{2029}'
  }

  predicate IsSpace(c: char) {
    c in SpaceChars
  }

  predicate AllSpace(s: string) { forall i :: 0 <= i < |s| ==> IsSpace(s[i]) }

  /** `s.trimStart()`: drop the longest all-space prefix. */
  function TrimStart(s: string): (r: string)
    ensures |r| <= |s|
    decreases |s|
  {
    if s != [] && IsSpace(s[0]) then TrimStart(s[1..]) else s
  }

  /** `s.trimEnd()`: drop the longest all-space suffix. */
  function TrimEnd(s: string): (r: string)
    ensures |r| <= |s|
    decreases |s|
  {
    if s != [] && IsSpace(s[|s| - 1]) then TrimEnd(s[..|s| - 1]) else s
  }

  /** What `trimStart` removes is an all-space prefix, and what it keeps starts with a non-space. */
  lemma {:induction false} TrimStartSpec(s: string)
    ensures TrimStart(s) == s[|s| - |TrimStart(s)|..]
    ensures AllSpace(s[..|s| - |TrimStart(s)|])
    ensures TrimStart(s) == [] || !IsSpace(TrimStart(s)[0])
    decreases |s|
  {
    if s != [] && IsSpace(s[0]) {
      TrimStartSpec(s[1..]);
      var n := |s| - |TrimStart(s)|;
      forall i | 0 <= i < n ensures IsSpace(s[..n][i]) {
        if i > 0 { assert s[..n][i] == s[1..][..n - 1][i - 1]; }
      }
    }
  }

  /** `trimEnd` keeps a prefix that reaches past every non-space character. */
  lemma {:induction false} TrimEndKeeps(s: string, m: nat)
    requires m < |s| && !IsSpace(s[m])
    ensures |TrimEnd(s)| > m && TrimEnd(s) == s[..|TrimEnd(s)|]
    decreases |s|
  {
    if s != [] && IsSpace(s[|s| - 1]) {
      TrimEndKeeps(s[..|s| - 1], m);
      assert s[..|s| - 1][..|TrimEnd(s)|] == s[..|TrimEnd(s)|];
    }
  }

  /** What `trimEnd` removes is an all-space suffix, and what it keeps ends with a non-space. */
  lemma {:induction false} TrimEndSpec(s: string)
    ensures TrimEnd(s) == s[..|TrimEnd(s)|]
    ensures AllSpace(s[|TrimEnd(s)|..])
    ensures TrimEnd(s) == [] || !IsSpace(TrimEnd(s)[|TrimEnd(s)| - 1])
    decreases |s|
  {
    if s != [] && IsSpace(s[|s| - 1]) {
      var u := s[..|s| - 1];
      TrimEndSpec(u);
      var n := |TrimEnd(s)|;
      assert u[..n] == s[..n];
      forall i | n <= i < |s| ensures IsSpace(s[i]) {
        if i < |s| - 1 { assert u[n..][i - n] == s[i]; }
      }
      assert AllSpace(s[n..]) by {
        forall i | 0 <= i < |s| - n ensures IsSpace(s[n..][i]) { assert s[n..][i] == s[n + i]; }
      }
    }
  }

  /** Trimming the end of `t + ws`, where `ws` is all space, trims `t`. */
  lemma {:induction false} TrimEndSpaceSuffix(t: string, ws: string)
    requires AllSpace(ws)
    ensures TrimEnd(t + ws) == TrimEnd(t)
    decreases |ws|
  {
    if ws != [] {
      var u := t + ws;
      assert u != [] && u[|u| - 1] == ws[|ws| - 1];
      var w := ws[..|ws| - 1];
      assert u[..|u| - 1] == t + w;
      assert AllSpace(w) by {
        forall i | 0 <= i < |w| ensures IsSpace(w[i]) { assert w[i] == ws[i]; }
      }
      TrimEndSpaceSuffix(t, w);
    } else {
      assert t + ws == t;
    }
  }

  /** Text of white space only trims to nothing. */
  lemma {:induction false} TrimStartAllSpace(s: string)
    requires AllSpace(s)
    ensures TrimStart(s) == []
    decreases |s|
  {
    if s != [] {
      assert IsSpace(s[0]);
      assert AllSpace(s[1..]) by {
        forall i | 0 <= i < |s| - 1 ensures IsSpace(s[1..][i]) { assert s[1..][i] == s[i + 1]; }
      }
      TrimStartAllSpace(s[1..]);
    }
  }

  /** `s.trim()`. */
  function Trim(s: string): string {
    TrimEnd(TrimStart(s))
  }

  /** Trimming the start of `ws + t`, where `ws` is all space, trims `t`. */
  lemma {:induction false} TrimStartSpacePrefix(ws: string, t: string)
    requires AllSpace(ws)
    ensures TrimStart(ws + t) == TrimStart(t)
    decreases |ws|
  {
    if ws != [] {
      var u := ws + t;
      assert u != [] && IsSpace(u[0]);
      assert TrimStart(u) == TrimStart(u[1..]);
      assert u[1..] == ws[1..] + t;
      TrimStartSpacePrefix(ws[1..], t);
    } else {
      assert ws + t == t;
    }
  }

  /** The pieces are separated by '\n' in `s`, in order. */
  function JoinLines(lines: seq<string>): string
    decreases |lines|
  {
    if lines == [] then ""
    else if |lines| == 1 then lines[0]
    else lines[0] + "\n" + JoinLines(lines[1..])
  }

  /** `s.split('\n')`: the maximal '\n'-free pieces of `s`, at least one. */
  function SplitLines(s: string): (lines: seq<string>)
    ensures |lines| >= 1
    ensures forall i :: 0 <= i < |lines| ==> '\n' !in lines[i]
    ensures JoinLines(lines) == s
    decreases |s|
  {
    if s == [] then [""]
    else
      var rest := SplitLines(s[1..]);
      if s[0] == '\n' then [""] + rest
      else [[s[0]] + rest[0]] + rest[1..]
  }

  /** Splitting the joined pieces gives the pieces back, when none of them holds '\n'. */
  lemma {:induction false} SplitJoinLines(lines: seq<string>)
    requires |lines| >= 1
    requires forall i :: 0 <= i < |lines| ==> '\n' !in lines[i]
    ensures SplitLines(JoinLines(lines)) == lines
    decreases |lines|, |lines[0]|
  {
    var l := lines[0];
    if |lines| == 1 {
      SplitNoNewline(l);
    } else if l == [] {
      var tail := lines[1..];
      assert JoinLines(lines) == "\n" + JoinLines(tail);
      assert ("\n" + JoinLines(tail))[1..] == JoinLines(tail);
      SplitJoinLines(tail);
      assert [""] + tail == lines;
    } else {
      var shorter := [l[1..]] + lines[1..];
      assert shorter[1..] == lines[1..];
      assert JoinLines(lines) == [l[0]] + JoinLines(shorter);
      assert ([l[0]] + JoinLines(shorter))[1..] == JoinLines(shorter);
      SplitJoinLines(shorter);
      assert [l[0]] + l[1..] == l;
      assert [[l[0]] + shorter[0]] + shorter[1..] == lines;
    }
  }

  /** A '\n'-free text splits into itself alone. */
  lemma {:induction false} SplitNoNewline(s: string)
    requires '\n' !in s
    ensures SplitLines(s) == [s]
    decreases |s|
  {
    if s != [] {
      assert '\n' !in s[1..] by {
        forall i | 0 <= i < |s[1..]| ensures s[1..][i] != '\n' { assert s[1..][i] == s[i + 1]; }
      }
      SplitNoNewline(s[1..]);
      assert [s[0]] + s[1..] == s;
    }
  }
}
