/** String helpers shared by the triage engine and the orchestrator.
    Python's `str` methods are modelled on `seq<char>`: case mapping is ASCII,
    whitespace is the set `str.isspace()` accepts, line breaks are the ones
    `str.splitlines()` splits on, and word characters (regex `\b`) are ASCII
    letters, digits and `_`. */
module Text {

  const LF: char := '\n'
  const CR: char := '\r'

  // ---------------------------------------------------------------- case

  function LowerChar(c: char): char {
    if 'A' <= c <= 'Z' then (c as int + 32) as char else c
  }

  function UpperChar(c: char): char {
    if 'a' <= c <= 'z' then (c as int - 32) as char else c
  }

  /** `s.lower()` */
  function Lower(s: string): (r: string)
    ensures |r| == |s|
    ensures forall i | 0 <= i < |s| :: r[i] == LowerChar(s[i])
  {
    seq(|s|, i requires 0 <= i < |s| => LowerChar(s[i]))
  }

  /** `s.upper()` */
  function Upper(s: string): (r: string)
    ensures |r| == |s|
    ensures forall i | 0 <= i < |s| :: r[i] == UpperChar(s[i])
  {
    seq(|s|, i requires 0 <= i < |s| => UpperChar(s[i]))
  }

  lemma LowerIdempotent(s: string)
    ensures Lower(Lower(s)) == Lower(s)
  {
  }

  lemma LowerConcat(a: string, b: string)
    ensures Lower(a + b) == Lower(a) + Lower(b)
  {
  }

  lemma LowerSlice(s: string, i: int, j: int)
    requires 0 <= i <= j <= |s|
    ensures Lower(s[i..j]) == Lower(s)[i..j]
  {
  }

  // ---------------------------------------------------------- whitespace

  /** The characters for which Python's `str.isspace()` holds; regex `\s`
      matches the same set. */
  predicate IsSpace(c: char) {
    ('\t' <= c <= '\r') || ('\U{1C}' <= c <= ' ') || c == '\U{85}' || c == '\U{A0}'
    || c == '\U{1680}' || ('\U{2000}' <= c <= '\U{200A}') || c == '\U{2028}'
    || c == '\U{2029}' || c == '\U{202F}' || c == '\U{205F}' || c == '\U{3000}'
  }

  /** Number of leading characters satisfying `p`. */
  function Leading(s: string, p: char -> bool): (n: nat)
    ensures n <= |s|
    ensures forall j | 0 <= j < n :: p(s[j])
    ensures n < |s| ==> !p(s[n])
  {
    if |s| > 0 && p(s[0]) then 1 + Leading(s[1..], p) else 0
  }

  /** Number of trailing characters satisfying `p`. */
  function Trailing(s: string, p: char -> bool): (n: nat)
    ensures n <= |s|
    ensures forall j | |s| - n <= j < |s| :: p(s[j])
    ensures n < |s| ==> !p(s[|s| - n - 1])
  {
    if |s| > 0 && p(s[|s| - 1]) then 1 + Trailing(s[..|s| - 1], p) else 0
  }

  /** `s.strip(chars)` where `p` says which characters are in `chars`. */
  function StripBy(s: string, p: char -> bool): (r: string)
    ensures |r| <= |s|
    ensures r != [] ==> !p(r[0]) && !p(r[|r| - 1])
    ensures (forall j | 0 <= j < |s| :: !p(s[j])) ==> r == s
  {
    var t := s[Leading(s, p)..];
    t[..|t| - Trailing(t, p)]
  }

  /** `s.strip()` */
  function Strip(s: string): (r: string)
    ensures |r| <= |s|
    ensures IsStripped(r)
  {
    StripBy(s, IsSpace)
  }

  predicate IsStripped(s: string) {
    s == [] || (!IsSpace(s[0]) && !IsSpace(s[|s| - 1]))
  }

  lemma StripOfStripped(s: string)
    requires IsStripped(s)
    ensures Strip(s) == s
  {
    assert Leading(s, IsSpace) == 0;
    assert Trailing(s, IsSpace) == 0;
  }

  /** `s.strip()` returns a contiguous piece of `s`. */
  lemma StripIsSlice(s: string) returns (a: nat, b: nat)
    ensures a <= b <= |s| && Strip(s) == s[a..b]
  {
    a := Leading(s, IsSpace);
    var t := s[a..];
    b := a + (|t| - Trailing(t, IsSpace));
    assert t[..|t| - Trailing(t, IsSpace)] == s[a..b];
  }

  // ----------------------------------------------------------- substrings

  predicate MatchAt(s: string, sub: string, i: int) {
    0 <= i && i + |sub| <= |s| && s[i..i + |sub|] == sub
  }

  /** `sub in s` */
  predicate Contains(s: string, sub: string) {
    exists i | 0 <= i <= |s| - |sub| :: MatchAt(s, sub, i)
  }

  /** `any(sub in s for sub in subs)` */
  predicate ContainsAny(s: string, subs: seq<string>) {
    exists k | 0 <= k < |subs| :: Contains(s, subs[k])
  }

  lemma ContainsTransitive(s: string, t: string, u: string)
    requires Contains(s, t) && Contains(t, u)
    ensures Contains(s, u)
  {
    var i :| 0 <= i <= |s| - |t| && MatchAt(s, t, i);
    var j :| 0 <= j <= |t| - |u| && MatchAt(t, u, j);
    assert t == s[i..i + |t|];
    forall k | 0 <= k < |u| ensures s[i + j + k] == u[k] {
      assert u[k] == t[j + k];
    }
    assert s[i + j..i + j + |u|] == u;
    assert MatchAt(s, u, i + j);
  }

  /** A text lower-cased contains its parts lower-cased. */
  lemma ContainsLower(s: string, t: string)
    requires Contains(s, t)
    ensures Contains(Lower(s), Lower(t))
  {
    var i :| 0 <= i <= |s| - |t| && MatchAt(s, t, i);
    LowerSlice(s, i, i + |t|);
    assert MatchAt(Lower(s), Lower(t), i);
  }

  // ------------------------------------------------------ non-containment

  /** No two neighbouring characters of `s` form one of the pairs in
      `avoid`. */
  predicate AvoidsPairs(s: string, avoid: set<(char, char)>) {
    forall i | 0 <= i < |s| - 1 :: (s[i], s[i + 1]) !in avoid
  }

  lemma AvoidsPairsConcat(a: string, b: string, avoid: set<(char, char)>)
    requires AvoidsPairs(a, avoid) && AvoidsPairs(b, avoid)
    requires a != [] && b != [] ==> (a[|a| - 1], b[0]) !in avoid
    ensures AvoidsPairs(a + b, avoid)
  {
    var s := a + b;
    forall i | 0 <= i < |s| - 1 ensures (s[i], s[i + 1]) !in avoid {
      if i + 1 < |a| {
        assert s[i] == a[i] && s[i + 1] == a[i + 1];
      } else if i >= |a| {
        assert s[i] == b[i - |a|] && s[i + 1] == b[i + 1 - |a|];
      }
    }
  }

  /** A string holding, at offset `j`, a pair of neighbouring characters
      that `s` avoids does not occur in `s`. */
  lemma AbsentByPair(s: string, t: string, avoid: set<(char, char)>, j: nat)
    requires AvoidsPairs(s, avoid) && j + 1 < |t| && (t[j], t[j + 1]) in avoid
    ensures !Contains(s, t)
  {
  }

  /** None of `subs[lo..hi]` occurs in `s` when each holds, at the offset
      `js` gives, a pair that `s` avoids. */
  lemma NoneByPairs(s: string, subs: seq<string>, avoid: set<(char, char)>, js: seq<nat>, lo: nat, hi: nat)
    requires AvoidsPairs(s, avoid) && lo <= hi <= |subs| && |js| == hi - lo
    requires forall k | lo <= k < hi :: js[k - lo] + 1 < |subs[k]| && (subs[k][js[k - lo]], subs[k][js[k - lo] + 1]) in avoid
    ensures forall k | lo <= k < hi :: !Contains(s, subs[k])
  {
    forall k | lo <= k < hi ensures !Contains(s, subs[k]) {
      AbsentByPair(s, subs[k], avoid, js[k - lo]);
    }
  }

  lemma StripContained(s: string)
    ensures Contains(s, Strip(s))
  {
    var a, b := StripIsSlice(s);
    SliceContained(s, a, b);
  }

  lemma SliceContained(s: string, i: int, j: int)
    requires 0 <= i <= j <= |s|
    ensures Contains(s, s[i..j])
  {
    assert MatchAt(s, s[i..j], i);
  }

  /** Position of the first `c` in `s`, or `|s|` when there is none. */
  function IndexOf(s: string, c: char): (k: nat)
    ensures k <= |s|
    ensures k < |s| ==> s[k] == c
    ensures forall j | 0 <= j < k :: s[j] != c
  {
    if s == [] then 0 else if s[0] == c then 0 else 1 + IndexOf(s[1..], c)
  }

  /** `s.startswith(prefix)` */
  predicate StartsWith(s: string, prefix: string) {
    |prefix| <= |s| && s[..|prefix|] == prefix
  }

  /** `s[:n]` for a non-negative `n`. */
  function Take(s: string, n: nat): (r: string)
    ensures |r| <= n && |r| <= |s|
    ensures r == s[..|r|]
    ensures |s| <= n ==> r == s
    ensures |s| >= n ==> |r| == n
  {
    if |s| <= n then s else s[..n]
  }

  /** `s.replace(old, new)` for a single character. */
  function ReplaceChar(s: string, from: char, to: char): (r: string)
    ensures |r| == |s|
    ensures forall i | 0 <= i < |s| :: r[i] == (if s[i] == from then to else s[i])
  {
    seq(|s|, i requires 0 <= i < |s| => if s[i] == from then to else s[i])
  }

  // ---------------------------------------------------------------- lines

  /** The characters `str.splitlines()` breaks on. */
  predicate IsLineBreak(c: char) {
    c == LF || c == CR || c == '\U{0B}' || c == '\U{0C}' || ('\U{1C}' <= c <= '\U{1E}')
    || c == '\U{85}' || c == '\U{2028}' || c == '\U{2029}'
  }

  predicate NoLineBreak(s: string) {
    forall i | 0 <= i < |s| :: !IsLineBreak(s[i])
  }

  function FirstBreak(s: string, i: nat): (k: nat)
    requires i <= |s|
    ensures i <= k <= |s|
    ensures k < |s| ==> IsLineBreak(s[k])
    ensures forall j | i <= j < k :: !IsLineBreak(s[j])
    decreases |s| - i
  {
    if i == |s| || IsLineBreak(s[i]) then i else FirstBreak(s, i + 1)
  }

  /** `s.splitlines()`: a `\r\n` pair is one break, and a final break does
      not start an empty last line. */
  function SplitLines(s: string): (lines: seq<string>)
    ensures forall k | 0 <= k < |lines| :: NoLineBreak(lines[k]) && Contains(s, lines[k])
    decreases |s|
  {
    if s == [] then []
    else
      var k := FirstBreak(s, 0);
      SliceContained(s, 0, k);
      if k == |s| then assert s[..k] == s; [s]
      else
        var skip := if s[k] == CR && k + 1 < |s| && s[k + 1] == LF then 2 else 1;
        var rest := SplitLines(s[k + skip..]);
        forall m | 0 <= m < |rest| ensures Contains(s, rest[m]) {
          SliceContained(s, k + skip, |s|);
          assert s[k + skip..|s|] == s[k + skip..];
          ContainsTransitive(s, s[k + skip..], rest[m]);
        }
        [s[..k]] + rest
  }

  lemma SplitLinesHead(a: string, b: string)
    requires NoLineBreak(a)
    ensures SplitLines(a + [LF] + b) == [a] + SplitLines(b)
  {
    var s := a + [LF] + b;
    assert s[..|a|] == a;
    assert FirstBreak(s, 0) == |a| by {
      FirstBreakAt(s, 0, |a|);
    }
    assert s[|a| + 1..] == b;
  }

  lemma FirstBreakAt(s: string, i: nat, k: nat)
    requires i <= k < |s| && IsLineBreak(s[k])
    requires forall j | i <= j < k :: !IsLineBreak(s[j])
    ensures FirstBreak(s, i) == k
    decreases k - i
  {
    if i < k {
      FirstBreakAt(s, i + 1, k);
    }
  }

  lemma SplitLinesSingle(a: string)
    requires NoLineBreak(a) && a != []
    ensures SplitLines(a) == [a]
  {
    assert FirstBreak(a, 0) == |a| by {
      FirstBreakNone(a, 0);
    }
  }

  lemma FirstBreakNone(s: string, i: nat)
    requires i <= |s| && forall j | i <= j < |s| :: !IsLineBreak(s[j])
    ensures FirstBreak(s, i) == |s|
    decreases |s| - i
  {
    if i < |s| {
      FirstBreakNone(s, i + 1);
    }
  }

  /** `"\n".join(items)` */
  function JoinLines(items: seq<string>): string {
    if items == [] then ""
    else if |items| == 1 then items[0]
    else items[0] + [LF] + JoinLines(items[1..])
  }

  /** `[p.strip() for p in pieces if p.strip()]` */
  function StrippedNonEmpty(pieces: seq<string>): (r: seq<string>)
    ensures |r| <= |pieces|
    ensures forall k | 0 <= k < |r| :: r[k] != [] && IsStripped(r[k])
  {
    if pieces == [] then []
    else (if Strip(pieces[0]) != [] then [Strip(pieces[0])] else []) + StrippedNonEmpty(pieces[1..])
  }

  /** Items that are already non-empty and stripped pass unchanged. */
  lemma {:induction false} StrippedNonEmptyKeeps(items: seq<string>)
    requires forall k | 0 <= k < |items| :: items[k] != [] && IsStripped(items[k])
    ensures StrippedNonEmpty(items) == items
  {
    if items != [] {
      StripOfStripped(items[0]);
      StrippedNonEmptyKeeps(items[1..]);
    }
  }

  /** Splitting joined lines gives the lines back, for non-empty lines
      without breaks. */
  lemma {:induction false} SplitJoin(items: seq<string>)
    requires forall k | 0 <= k < |items| :: items[k] != [] && NoLineBreak(items[k])
    ensures SplitLines(JoinLines(items)) == items
  {
    if |items| == 1 {
      SplitLinesSingle(items[0]);
    } else if |items| > 1 {
      SplitJoin(items[1..]);
      SplitLinesHead(items[0], JoinLines(items[1..]));
    }
  }

  // ---------------------------------------------------------------- words

  /** A regex word character (`\w`). */
  predicate IsWordChar(c: char) {
    ('a' <= c <= 'z') || ('A' <= c <= 'Z') || ('0' <= c <= '9') || c == '_'
  }

  predicate IsDigit(c: char) {
    '0' <= c <= '9'
  }

  predicate WordAt(s: string, i: int) {
    0 <= i < |s| && IsWordChar(s[i])
  }

  /** Regex `\b` at position `i` of `s`. */
  predicate Boundary(s: string, i: int) {
    WordAt(s, i - 1) != WordAt(s, i)
  }

  /** Regex `\bw\b` matches at position `i`. */
  predicate WordMatchAt(s: string, w: string, i: int) {
    MatchAt(s, w, i) && Boundary(s, i) && Boundary(s, i + |w|)
  }

  /** `re.search(r"\b" + re.escape(w) + r"\b", s)` */
  predicate ContainsWord(s: string, w: string) {
    exists i | 0 <= i <= |s| - |w| :: WordMatchAt(s, w, i)
  }

  predicate ContainsAnyWord(s: string, words: seq<string>) {
    exists k | 0 <= k < |words| :: ContainsWord(s, words[k])
  }

  /** End of the run of whitespace starting at `i`. */
  function SpaceRunEnd(s: string, i: nat): (k: nat)
    requires i <= |s|
    ensures i <= k <= |s|
    ensures forall j | i <= j < k :: IsSpace(s[j])
    ensures k < |s| ==> !IsSpace(s[k])
    decreases |s| - i
  {
    if i < |s| && IsSpace(s[i]) then SpaceRunEnd(s, i + 1) else i
  }
}
