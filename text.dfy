/** The Python string operations the parsers rely on: whitespace splitting
    (`str.split()` with no argument), stripping, substring tests, `str.replace`,
    ASCII case mapping and the code-point order used by `sorted` and `list.sort`. */
module Text {

  /** Python's `str.isspace()`: the characters that `str.split()` and
      `str.strip()` treat as whitespace. */
  predicate IsSpace(c: char) {
    || c == ' '
    || ('\t' <= c <= '\r')
    || ('\U{1C}' <= c <= '\U{1F}')
    || c == '\U{85}' || c == '\U{A0}' || c == '\U{1680}'
    || ('\U{2000}' <= c <= '\U{200A}')
    || c == '\U{2028}' || c == '\U{2029}' || c == '\U{202F}' || c == '\U{205F}' || c == '\U{3000}'
  }

  predicate IsBlank(s: string) {
    forall i | 0 <= i < |s| :: IsSpace(s[i])
  }

  /** A token of `str.split()`: a non-empty run of non-whitespace characters. */
  predicate IsWord(w: string) {
    w != [] && forall i | 0 <= i < |w| :: !IsSpace(w[i])
  }

  /** Length of the longest whitespace-free prefix of `s`. */
  function WordLen(s: string): (n: nat)
    ensures n <= |s|
    ensures forall i | 0 <= i < n :: !IsSpace(s[i])
    ensures n < |s| ==> IsSpace(s[n])
  {
    if s == [] || IsSpace(s[0]) then 0 else 1 + WordLen(s[1..])
  }

  /** Python's `s.split()`: the maximal whitespace-free runs of `s`, in order. */
  function Split(s: string): (r: seq<string>)
    ensures forall i | 0 <= i < |r| :: IsWord(r[i])
    decreases |s|
  {
    if s == [] then []
    else if IsSpace(s[0]) then Split(s[1..])
    else
      var n := WordLen(s);
      [s[..n]] + Split(s[n..])
  }

  /** Python's `s.lstrip()`. */
  function LStrip(s: string): (r: string)
    ensures |r| <= |s| && r == s[|s| - |r|..]
    ensures IsBlank(s[..|s| - |r|])
    ensures r == [] || !IsSpace(r[0])
  {
    if s != [] && IsSpace(s[0]) then
      var tail := s[1..];
      var r := LStrip(tail);
      assert tail[|tail| - |r|..] == s[|s| - |r|..];
      assert s[..|s| - |r|] == [s[0]] + tail[..|tail| - |r|];
      r
    else s
  }

  /** Python's `s.rstrip()`. */
  function RStrip(s: string): (r: string)
    ensures |r| <= |s| && r == s[..|r|]
    ensures IsBlank(s[|r|..])
    ensures r == [] || !IsSpace(r[|r| - 1])
  {
    if s != [] && IsSpace(s[|s| - 1]) then
      var init := s[..|s| - 1];
      var r := RStrip(init);
      assert init[..|r|] == s[..|r|];
      assert s[|r|..] == init[|r|..] + [s[|s| - 1]];
      r
    else s
  }

  /** Python's `s.strip()`. */
  function Strip(s: string): string {
    RStrip(LStrip(s))
  }

  /** `s.strip()` is falsy exactly for the all-whitespace lines. */
  lemma StripEmptyIffBlank(s: string)
    ensures Strip(s) == [] <==> IsBlank(s)
  {
    var l := LStrip(s);
    assert s == s[..|s| - |l|] + l;
    if IsBlank(s) {
      assert IsBlank(l);
      assert l == [];
    }
    if Strip(s) == [] {
      assert l == [] + l[|RStrip(l)|..];
      assert IsBlank(l);
    }
  }

  /** `s.split()` is empty exactly for the all-whitespace strings. */
  lemma {:induction false} SplitEmptyIffBlank(s: string)
    ensures Split(s) == [] <==> IsBlank(s)
    decreases |s|
  {
    if s != [] && IsSpace(s[0]) {
      SplitEmptyIffBlank(s[1..]);
      assert IsBlank(s) <==> IsBlank(s[1..]);
    }
  }

  lemma {:induction false} WordLenAppend(t: string, w: string)
    requires w == [] || IsSpace(w[0])
    ensures WordLen(t + w) == WordLen(t)
    decreases |t|
  {
    if t != [] && !IsSpace(t[0]) {
      assert (t + w)[1..] == t[1..] + w;
      WordLenAppend(t[1..], w);
    }
  }

  /** Trailing whitespace does not change the tokens. */
  lemma {:induction false} SplitAppendBlank(t: string, w: string)
    requires IsBlank(w)
    ensures Split(t + w) == Split(t)
    decreases |t|
  {
    if t == [] {
      assert t + w == w;
      SplitEmptyIffBlank(w);
    } else if IsSpace(t[0]) {
      assert (t + w)[1..] == t[1..] + w;
      SplitAppendBlank(t[1..], w);
    } else {
      WordLenAppend(t, w);
      var n := WordLen(t);
      assert (t + w)[..n] == t[..n];
      assert (t + w)[n..] == t[n..] + w;
      SplitAppendBlank(t[n..], w);
    }
  }

  lemma {:induction false} SplitLStrip(s: string)
    ensures Split(LStrip(s)) == Split(s)
    decreases |s|
  {
    if s != [] && IsSpace(s[0]) {
      SplitLStrip(s[1..]);
    }
  }

  /** `s.strip().split()` and `s.split()` give the same tokens. */
  lemma SplitStrip(s: string)
    ensures Split(Strip(s)) == Split(s)
  {
    SplitRStrip(LStrip(s));
    SplitLStrip(s);
  }

  /** Trailing whitespace adds no token. */
  lemma SplitRStrip(l: string)
    ensures Split(RStrip(l)) == Split(l)
  {
    var r := RStrip(l);
    assert l == r + l[|r|..];
    SplitAppendBlank(r, l[|r|..]);
  }

  /** Words laid out between gaps: `gaps[0] + ws[0] + gaps[1] + ... + gaps[|ws|]`. */
  function Spaced(ws: seq<string>, gaps: seq<string>): string
    requires |gaps| == |ws| + 1
    decreases |ws|
  {
    if ws == [] then gaps[0] else gaps[0] + ws[0] + Spaced(ws[1..], gaps[1..])
  }

  /** A whitespace layout of words: the gaps are blank and the gaps between
      two words are not empty, so each word is a maximal run. */
  predicate Layout(ws: seq<string>, gaps: seq<string>) {
    && |gaps| == |ws| + 1
    && (forall i | 0 <= i < |ws| :: IsWord(ws[i]))
    && (forall j | 0 <= j < |gaps| :: IsBlank(gaps[j]))
    && (forall j | 0 < j < |ws| :: gaps[j] != [])
  }

  /** The whitespace `s.split()` drops around and between its tokens. */
  function Gaps(s: string): (g: seq<string>)
    ensures |g| == |Split(s)| + 1
    decreases |s|
  {
    if s == [] then [""]
    else if IsSpace(s[0]) then
      var g := Gaps(s[1..]);
      [[s[0]] + g[0]] + g[1..]
    else
      [""] + Gaps(s[WordLen(s)..])
  }

  /** Leading whitespace adds no token. */
  lemma {:induction false} SplitBlankPrefix(g: string, t: string)
    requires IsBlank(g)
    ensures Split(g + t) == Split(t)
    decreases |g|
  {
    if g == [] {
      assert g + t == t;
    } else {
      assert IsSpace((g + t)[0]);
      assert (g + t)[1..] == g[1..] + t;
      assert IsBlank(g[1..]) by {
        forall i | 0 <= i < |g[1..]| ensures IsSpace(g[1..][i]) {
          assert g[1..][i] == g[i + 1];
        }
      }
      SplitBlankPrefix(g[1..], t);
    }
  }

  /** A word followed by whitespace or by nothing is one token. */
  lemma SplitWordPrefix(w: string, t: string)
    requires IsWord(w) && (t == [] || IsSpace(t[0]))
    ensures Split(w + t) == [w] + Split(t)
  {
    WordLenAppend(w, t);
    assert WordLen(w) == |w|;
    assert (w + t)[..|w|] == w && (w + t)[|w|..] == t;
  }

  /** Every layout of words splits back into exactly those words. */
  lemma {:induction false} SplitSpaced(ws: seq<string>, gaps: seq<string>)
    requires Layout(ws, gaps)
    ensures Split(Spaced(ws, gaps)) == ws
    decreases |ws|
  {
    if ws == [] {
      SplitEmptyIffBlank(gaps[0]);
    } else {
      var rest := Spaced(ws[1..], gaps[1..]);
      assert Layout(ws[1..], gaps[1..]);
      SplitSpaced(ws[1..], gaps[1..]);
      assert rest == [] || IsSpace(rest[0]) by {
        if |ws| > 1 {
          assert rest == gaps[1] + ws[1] + Spaced(ws[2..], gaps[2..]);
          assert rest[0] == gaps[1][0];
        } else {
          assert rest == gaps[1];
        }
      }
      SplitBlankPrefix(gaps[0], ws[0] + rest);
      SplitWordPrefix(ws[0], rest);
      assert Spaced(ws, gaps) == gaps[0] + (ws[0] + rest);
    }
  }

  /** One more whitespace character in front of a layout joins its first gap. */
  lemma LayoutSpace(c: char, ws: seq<string>, g: seq<string>)
    requires IsSpace(c) && Layout(ws, g)
    ensures Layout(ws, [[c] + g[0]] + g[1..])
    ensures Spaced(ws, [[c] + g[0]] + g[1..]) == [c] + Spaced(ws, g)
  {
    var gaps := [[c] + g[0]] + g[1..];
    assert IsBlank([c] + g[0]) by {
      forall i | 0 <= i < |[c] + g[0]| ensures IsSpace(([c] + g[0])[i]) {
        if i > 0 {
          assert ([c] + g[0])[i] == g[0][i - 1];
        }
      }
    }
    assert forall j | 0 < j < |gaps| :: gaps[j] == g[j];
    if ws != [] {
      assert gaps[1..] == g[1..];
    }
  }

  /** A word in front of a layout that starts with whitespace (or is empty)
      becomes its first token, behind an empty gap. */
  lemma LayoutWord(w: string, ws: seq<string>, g: seq<string>)
    requires IsWord(w) && Layout(ws, g) && (ws != [] ==> g[0] != [])
    ensures Layout([w] + ws, [""] + g)
    ensures Spaced([w] + ws, [""] + g) == w + Spaced(ws, g)
  {
    var ws', gaps := [w] + ws, [""] + g;
    assert ws'[1..] == ws && gaps[1..] == g;
    assert forall i | 0 < i < |ws'| :: ws'[i] == ws[i - 1];
    assert forall j | 0 < j < |gaps| :: gaps[j] == g[j - 1];
  }

  /** Every string is its tokens laid out between blank gaps, the inner ones
      non-empty: the tokens are the maximal whitespace-free runs, in order. */
  lemma {:induction false} SplitLayout(s: string)
    ensures Layout(Split(s), Gaps(s))
    ensures Spaced(Split(s), Gaps(s)) == s
    decreases |s|
  {
    if s == [] {
    } else if IsSpace(s[0]) {
      SplitLayout(s[1..]);
      LayoutSpace(s[0], Split(s[1..]), Gaps(s[1..]));
      assert s == [s[0]] + s[1..];
    } else {
      var n := WordLen(s);
      var t := s[n..];
      SplitLayout(t);
      assert Split(t) != [] ==> IsSpace(t[0]);
      LayoutWord(s[..n], Split(t), Gaps(t));
      assert s == s[..n] + t;
    }
  }

  predicate OccursAt(s: string, sub: string, i: nat) {
    i + |sub| <= |s| && s[i..i + |sub|] == sub
  }

  /** Python's `sub in s`. */
  predicate Contains(s: string, sub: string) {
    exists i: nat | i <= |s| :: OccursAt(s, sub, i)
  }

  predicate StartsWith(s: string, prefix: string) {
    |prefix| <= |s| && s[..|prefix|] == prefix
  }

  predicate EndsWith(s: string, suffix: string) {
    |suffix| <= |s| && s[|s| - |suffix|..] == suffix
  }

  /** Python's `s.replace(pat, rep)`: every non-overlapping occurrence of `pat`,
      scanning left to right, is replaced by `rep`. */
  function Replace(s: string, pat: string, rep: string): string
    requires pat != []
    decreases |s|
  {
    if |s| < |pat| then s
    else if s[..|pat|] == pat then rep + Replace(s[|pat|..], pat, rep)
    else [s[0]] + Replace(s[1..], pat, rep)
  }

  /** A string without the pattern is returned unchanged by `replace`. */
  lemma {:induction false} ReplaceAbsent(s: string, pat: string, rep: string)
    requires pat != [] && !Contains(s, pat)
    ensures Replace(s, pat, rep) == s
    decreases |s|
  {
    if |s| >= |pat| {
      assert !OccursAt(s, pat, 0);
      forall i: nat | i <= |s[1..]|
        ensures !OccursAt(s[1..], pat, i)
      {
        assert !OccursAt(s, pat, i + 1);
        if i + |pat| <= |s[1..]| {
          assert s[1..][i..i + |pat|] == s[i + 1..i + 1 + |pat|];
        }
      }
      ReplaceAbsent(s[1..], pat, rep);
      assert [s[0]] + s[1..] == s;
    }
  }

  function LowerChar(c: char): char {
    if 'A' <= c <= 'Z' then (c as int + 32) as char else c
  }

  function UpperChar(c: char): char {
    if 'a' <= c <= 'z' then (c as int - 32) as char else c
  }

  /** Python's `s.lower()` restricted to ASCII letters. */
  function Lower(s: string): (r: string)
    ensures |r| == |s|
    ensures forall i | 0 <= i < |s| :: r[i] == LowerChar(s[i])
  {
    seq(|s|, i requires 0 <= i < |s| => LowerChar(s[i]))
  }

  /** Python's `s.upper()` restricted to ASCII letters. */
  function Upper(s: string): (r: string)
    ensures |r| == |s|
    ensures forall i | 0 <= i < |s| :: r[i] == UpperChar(s[i])
  {
    seq(|s|, i requires 0 <= i < |s| => UpperChar(s[i]))
  }

  /** Case mapping works character by character, so it distributes over
      concatenation. */
  lemma LowerAppend(a: string, b: string)
    ensures Lower(a + b) == Lower(a) + Lower(b)
  {
    assert forall i | 0 <= i < |a + b| :: Lower(a + b)[i] == (Lower(a) + Lower(b))[i];
  }

  /** Python's `a < b` on strings: lexicographic by code point, a proper
      prefix before its extensions. */
  predicate StrLess(a: string, b: string)
    decreases |a|
  {
    if a == [] then b != []
    else if b == [] then false
    else if a[0] != b[0] then a[0] < b[0]
    else StrLess(a[1..], b[1..])
  }

  lemma {:induction false} StrLessIrreflexive(a: string)
    ensures !StrLess(a, a)
    decreases |a|
  {
    if a != [] {
      StrLessIrreflexive(a[1..]);
    }
  }

  lemma {:induction false} StrLessTransitive(a: string, b: string, c: string)
    requires StrLess(a, b) && StrLess(b, c)
    ensures StrLess(a, c)
    decreases |a|
  {
    if a != [] && b != [] && c != [] && a[0] == b[0] && b[0] == c[0] {
      StrLessTransitive(a[1..], b[1..], c[1..]);
    }
  }

  lemma {:induction false} StrLessTotal(a: string, b: string)
    ensures a == b || StrLess(a, b) || StrLess(b, a)
    decreases |a|
  {
    if a != [] && b != [] && a[0] == b[0] {
      StrLessTotal(a[1..], b[1..]);
      if a[1..] == b[1..] {
        assert a == [a[0]] + a[1..] && b == [b[0]] + b[1..];
      }
    }
  }

  lemma {:induction false} StrLessAsymmetric(a: string, b: string)
    requires StrLess(a, b)
    ensures !StrLess(b, a)
    decreases |a|
  {
    if a != [] && b != [] && a[0] == b[0] {
      StrLessAsymmetric(a[1..], b[1..]);
    }
  }
}
