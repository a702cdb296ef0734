/** The inbox owner's names (`_get_owner_context`, backend/triage.py) and the
    name-mention detector `_mentions_user_name`. The names come from two
    settings, passed here as parameters: the owner's name and a
    comma-separated list of aliases. */
module Owner {
  import opened Text

  /** `phrases` holds, for every name of two or more parts, its parts in
      order (matched as `\bpart1\s+part2...\b`); `tokens` holds every single
      part (matched as `\bpart\b`). */
  datatype OwnerContext = OwnerContext(displayNames: seq<string>, phrases: seq<seq<string>>, tokens: set<string>)

  /** `sep.join(pieces)` */
  function JoinOn(pieces: seq<string>, sep: char): string
    requires |pieces| >= 1
  {
    if |pieces| == 1 then pieces[0] else pieces[0] + [sep] + JoinOn(pieces[1..], sep)
  }

  /** `s.split(sep)`: the texts between the separators, in order. */
  function SplitOn(s: string, sep: char): (pieces: seq<string>)
    ensures |pieces| >= 1
    ensures forall k | 0 <= k < |pieces| :: sep !in pieces[k]
    ensures JoinOn(pieces, sep) == s
    decreases |s|
  {
    var k := IndexOf(s, sep);
    if k == |s| then [s]
    else
      var rest := SplitOn(s[k + 1..], sep);
      assert ([s[..k]] + rest)[1..] == rest;
      assert s == s[..k] + [sep] + s[k + 1..];
      [s[..k]] + rest
  }

  /** Splitting pieces joined by a separator none of them holds gives the
      pieces back. */
  lemma {:induction false} SplitJoinOn(pieces: seq<string>, sep: char)
    requires |pieces| >= 1 && forall k | 0 <= k < |pieces| :: sep !in pieces[k]
    ensures SplitOn(JoinOn(pieces, sep), sep) == pieces
    decreases |pieces|
  {
    var p := pieces[0];
    if |pieces| == 1 {
      assert forall j | 0 <= j < |p| :: p[j] in p;
    } else {
      SplitAtFirst(p, sep, JoinOn(pieces[1..], sep));
      SplitJoinOn(pieces[1..], sep);
      assert pieces == [p] + pieces[1..];
    }
  }

  /** The first separator ends the first piece. */
  lemma SplitAtFirst(p: string, sep: char, rest: string)
    requires sep !in p
    ensures SplitOn(p + [sep] + rest, sep) == [p] + SplitOn(rest, sep)
  {
    var s := p + [sep] + rest;
    assert s[|p|] == sep;
    assert forall j | 0 <= j < |p| :: s[j] == p[j] && p[j] in p;
    assert IndexOf(s, sep) == |p|;
    assert s[..|p|] == p && s[|p| + 1..] == rest;
  }

  /** A character of a name part: regex class `[a-z0-9@]`. */
  predicate IsNameChar(c: char) {
    ('a' <= c <= 'z') || ('0' <= c <= '9') || c == '@'
  }

  /** The name characters of `s`, in order. */
  function NameChars(s: string): string {
    if s == [] then [] else (if IsNameChar(s[0]) then [s[0]] else []) + NameChars(s[1..])
  }

  /** Number of leading name characters of `s`. */
  function NameRun(s: string): (n: nat)
    ensures n <= |s|
    ensures forall j | 0 <= j < n :: IsNameChar(s[j])
    ensures n < |s| ==> !IsNameChar(s[n])
  {
    if |s| > 0 && IsNameChar(s[0]) then 1 + NameRun(s[1..]) else 0
  }

  function Concat(parts: seq<string>): string {
    if parts == [] then [] else parts[0] + Concat(parts[1..])
  }

  /** `[p for p in re.split(r"[^a-z0-9@]+", s) if p]`: the maximal runs of
      name characters, in order. Together the parts hold every name
      character of `s` and nothing else; `NamePartsSeparated` and
      `NamePartsOfPart` say where one part ends and the next begins. */
  function NameParts(s: string): (parts: seq<string>)
    ensures forall k | 0 <= k < |parts| :: parts[k] != [] && forall j | 0 <= j < |parts[k]| :: IsNameChar(parts[k][j])
    ensures Concat(parts) == NameChars(s)
    decreases |s|
  {
    if s == [] then []
    else if !IsNameChar(s[0]) then NameParts(s[1..])
    else
      var n := NameRun(s);
      NameCharsOfRun(s, n);
      var rest := NameParts(s[n..]);
      assert ([s[..n]] + rest)[1..] == rest;
      [s[..n]] + rest
  }

  lemma {:induction false} NameCharsOfRun(s: string, n: nat)
    requires n <= |s| && forall j | 0 <= j < n :: IsNameChar(s[j])
    ensures NameChars(s) == s[..n] + NameChars(s[n..])
    decreases n
  {
    if n > 0 {
      NameCharsOfRun(s[1..], n - 1);
      assert s[1..][..n - 1] == s[1..n] && s[1..][n - 1..] == s[n..];
      assert s[..n] == [s[0]] + s[1..n];
    }
  }

  /** The run of name characters at the start of `a + [c] + b` stops
      before `c` when `c` is not a name character. */
  lemma {:induction false} NameRunStops(a: string, c: char, b: string)
    requires !IsNameChar(c)
    ensures NameRun(a + [c] + b) == NameRun(a)
    decreases |a|
  {
    if a != [] && IsNameChar(a[0]) {
      assert (a + [c] + b)[1..] == a[1..] + [c] + b;
      NameRunStops(a[1..], c, b);
    }
  }

  /** A character outside `[a-z0-9@]` separates the parts before it from
      the parts after it. */
  lemma {:induction false} NamePartsSeparated(a: string, c: char, b: string)
    requires !IsNameChar(c)
    ensures NameParts(a + [c] + b) == NameParts(a) + NameParts(b)
    decreases |a|
  {
    var s := a + [c] + b;
    if a == [] {
      assert s == [c] + b && s[1..] == b;
    } else if !IsNameChar(a[0]) {
      assert s[1..] == a[1..] + [c] + b;
      NamePartsSeparated(a[1..], c, b);
    } else {
      var m := NameRun(a);
      NamePartsSeparated(a[m..], c, b);
      SeparatedRunStep(a, c, b);
    }
  }

  /** The step of `NamePartsSeparated` for a text opening with a name
      character: the first part is the same on both sides. */
  lemma SeparatedRunStep(a: string, c: char, b: string)
    requires !IsNameChar(c) && a != [] && IsNameChar(a[0])
    requires NameParts(a[NameRun(a)..] + [c] + b) == NameParts(a[NameRun(a)..]) + NameParts(b)
    ensures NameParts(a + [c] + b) == NameParts(a) + NameParts(b)
  {
    var s := a + [c] + b;
    var m := NameRun(a);
    var head, rest := a[..m], a[m..] + [c] + b;
    NameRunStops(a, c, b);
    assert s[..m] == head && s[m..] == rest;
    calc {
      NameParts(s);
    == { NamePartsRun(s, m); }
      [head] + NameParts(rest);
    ==
      [head] + (NameParts(a[m..]) + NameParts(b));
    == { ConsAssoc(head, NameParts(a[m..]), NameParts(b)); }
      ([head] + NameParts(a[m..])) + NameParts(b);
    == { NamePartsRun(a, m); }
      NameParts(a) + NameParts(b);
    }
  }

  lemma ConsAssoc<T>(h: T, x: seq<T>, y: seq<T>)
    ensures [h] + (x + y) == ([h] + x) + y
  {
  }

  /** A text opening with a run of `m` name characters opens with that
      run as its first part. */
  lemma NamePartsRun(s: string, m: nat)
    requires s != [] && IsNameChar(s[0]) && m == NameRun(s)
    ensures NameParts(s) == [s[..m]] + NameParts(s[m..])
  {
  }

  /** Runs of name characters joined by a separator come back as the
      parts, in order. */
  lemma {:induction false} NamePartsJoin(parts: seq<string>, c: char)
    requires |parts| >= 1 && !IsNameChar(c)
    requires forall k | 0 <= k < |parts| :: parts[k] != [] && forall j | 0 <= j < |parts[k]| :: IsNameChar(parts[k][j])
    ensures NameParts(JoinOn(parts, c)) == parts
    decreases |parts|
  {
    NamePartsOfPart(parts[0]);
    if |parts| > 1 {
      NamePartsSeparated(parts[0], c, JoinOn(parts[1..], c));
      NamePartsJoin(parts[1..], c);
    }
  }

  lemma NamePartsOfPart(w: string)
    requires w != [] && forall j | 0 <= j < |w| :: IsNameChar(w[j])
    ensures NameParts(w) == [w]
  {
    assert NameRun(w) == |w| by {
      NameRunAll(w);
    }
    assert w[..|w|] == w && w[|w|..] == [];
  }

  lemma {:induction false} NameRunAll(s: string)
    requires forall j | 0 <= j < |s| :: IsNameChar(s[j])
    ensures NameRun(s) == |s|
    decreases |s|
  {
    if s != [] {
      NameRunAll(s[1..]);
    }
  }

  function EntryKey(entry: string): string {
    Strip(Lower(entry))
  }

  /** The lower-cased, stripped form of every name, in order. */
  function EntryKeys(entries: seq<string>): (keys: seq<string>)
    ensures |keys| == |entries| && forall k | 0 <= k < |keys| :: keys[k] == EntryKey(entries[k])
  {
    if entries == [] then [] else [EntryKey(entries[0])] + EntryKeys(entries[1..])
  }

  function Phrases(keys: seq<string>): (r: seq<seq<string>>)
    ensures forall k | 0 <= k < |r| :: |r[k]| > 1
  {
    if keys == [] then []
    else
      var parts := NameParts(keys[0]);
      (if keys[0] != [] && |parts| > 1 then [parts] else []) + Phrases(keys[1..])
  }

  /** The single-word tokens one key contributes: its parts, or the key
      itself when it has none. */
  function KeyTokens(key: string): set<string> {
    if key == [] then {} else if NameParts(key) != [] then set p | p in NameParts(key) else {key}
  }

  function Tokens(keys: seq<string>): set<string> {
    if keys == [] then {} else KeyTokens(keys[0]) + Tokens(keys[1..])
  }

  function DisplayNames(name: string, aliasesEnv: string): seq<string> {
    (if Strip(name) != [] then [Strip(name)] else []) + StrippedNonEmpty(SplitOn(aliasesEnv, ','))
  }

  /** `_get_owner_context`, without the cache and the prompt texts. */
  function BuildOwnerContext(name: string, aliasesEnv: string): (ctx: OwnerContext)
    ensures ctx.displayNames == DisplayNames(name, aliasesEnv)
    ensures forall k | 0 <= k < |ctx.phrases| :: |ctx.phrases[k]| > 1
  {
    var names := DisplayNames(name, aliasesEnv);
    var keys := EntryKeys(names);
    OwnerContext(names, Phrases(keys), Tokens(keys))
  }

  // ------------------------------------------------------------- matching

  /** The parts match one after another from `i`, separated by whitespace
      runs, and the last one ends at a word boundary. */
  predicate PartsAt(s: string, parts: seq<string>, i: nat)
    requires |parts| >= 1
    decreases |parts|
  {
    MatchAt(s, parts[0], i)
    && if |parts| == 1 then Boundary(s, i + |parts[0]|)
       else
         var k := SpaceRunEnd(s, i + |parts[0]|);
         k > i + |parts[0]| && PartsAt(s, parts[1..], k)
  }

  predicate PhraseAt(s: string, parts: seq<string>, i: nat)
    requires |parts| >= 1
  {
    Boundary(s, i) && PartsAt(s, parts, i)
  }

  /** `re.search(r"\b" + r"\s+".join(parts) + r"\b", s)` */
  predicate ContainsPhrase(s: string, parts: seq<string>)
    requires |parts| >= 1
  {
    exists i: nat | i <= |s| :: PhraseAt(s, parts, i)
  }

  /** `_mentions_user_name`: nothing is mentioned when the owner has no
      names; otherwise a name phrase or a single name part occurs in the
      lower-cased text as a whole word. */
  function MentionsUserName(emailText: string, ctx: OwnerContext): (r: bool)
    ensures ctx.phrases == [] && ctx.tokens == {} ==> !r
    ensures (exists t | t in ctx.tokens :: ContainsWord(Lower(emailText), t)) ==> r
  {
    if ctx.phrases == [] && ctx.tokens == {} then false
    else
      var lowered := Lower(emailText);
      (exists k | 0 <= k < |ctx.phrases| :: |ctx.phrases[k]| >= 1 && ContainsPhrase(lowered, ctx.phrases[k]))
      || (exists t | t in ctx.tokens :: ContainsWord(lowered, t))
  }

  // ---------------------------------------------------------------- lemmas

  /** Every part of every name is a single-word token. */
  lemma PartsAreTokens(entries: seq<string>, e: nat, k: nat)
    requires e < |entries| && k < |NameParts(EntryKey(entries[e]))|
    ensures NameParts(EntryKey(entries[e]))[k] in Tokens(EntryKeys(entries))
  {
    var keys := EntryKeys(entries);
    KeyTokensIncluded(keys, e);
    PartInKeyTokens(keys[e], k);
  }

  /** Each key contributes its tokens to the owner's token set. */
  lemma {:induction false} KeyTokensIncluded(keys: seq<string>, e: nat)
    requires e < |keys|
    ensures KeyTokens(keys[e]) <= Tokens(keys)
    decreases e
  {
    if e > 0 {
      var tail := keys[1..];
      assert tail[e - 1] == keys[e];
      KeyTokensIncluded(tail, e - 1);
    }
  }

  lemma PartInKeyTokens(key: string, k: nat)
    requires k < |NameParts(key)|
    ensures NameParts(key)[k] in KeyTokens(key)
  {
    assert key != [];
    assert NameParts(key)[k] in NameParts(key);
  }

  /** Any part of any of the owner's names, occurring in the email as a
      whole word in any letter case, is a mention. */
  lemma PartMentioned(name: string, aliasesEnv: string, emailText: string, e: nat, k: nat)
    requires e < |DisplayNames(name, aliasesEnv)|
    requires k < |NameParts(EntryKey(DisplayNames(name, aliasesEnv)[e]))|
    requires ContainsWord(Lower(emailText), NameParts(EntryKey(DisplayNames(name, aliasesEnv)[e]))[k])
    ensures MentionsUserName(emailText, BuildOwnerContext(name, aliasesEnv))
  {
    PartsAreTokens(DisplayNames(name, aliasesEnv), e, k);
  }

  /** With no name and no aliases configured, nothing is ever a mention. */
  lemma NoOwnerNoMention(emailText: string)
    ensures !MentionsUserName(emailText, BuildOwnerContext("", ""))
  {
    assert SplitOn("", ',') == [""];
    assert Strip("") == "";
    assert DisplayNames("", "") == [];
  }

  /** For an owner with a single one-word name, a mention is exactly an
      occurrence of that word, in any letter case, as a whole word. */
  lemma SingleWordName(w: string, emailText: string)
    requires w != [] && forall j | 0 <= j < |w| :: IsNameChar(w[j])
    ensures MentionsUserName(emailText, BuildOwnerContext(w, ""))
            <==> ContainsWord(Lower(emailText), w)
  {
    SingleWordContext(w);
    var ctx := BuildOwnerContext(w, "");
    var lowered := Lower(emailText);
    if ContainsWord(lowered, w) {
      assert w in ctx.tokens;
    } else {
      assert forall t | t in ctx.tokens :: t == w;
    }
  }

  lemma SingleWordContext(w: string)
    requires w != [] && forall j | 0 <= j < |w| :: IsNameChar(w[j])
    ensures BuildOwnerContext(w, "") == OwnerContext([w], [], {w})
  {
    SingleWordDisplayNames(w);
    SingleWordKey(w);
    NamePartsOfPart(w);
    assert EntryKeys([w]) == [w];
    assert [w][1..] == [];
    assert Phrases([w]) == [];
    assert Tokens([w]) == {w} by {
      assert (set p | p in [w]) == {w};
      assert KeyTokens(w) == {w};
    }
  }

  lemma SingleWordDisplayNames(w: string)
    requires w != [] && forall j | 0 <= j < |w| :: IsNameChar(w[j])
    ensures DisplayNames(w, "") == [w]
  {
    assert IsStripped(w);
    StripOfStripped(w);
    assert SplitOn("", ',') == [""];
    assert StrippedNonEmpty([""]) == [] by {
      assert Strip("") == "";
    }
  }

  lemma SingleWordKey(w: string)
    requires w != [] && forall j | 0 <= j < |w| :: IsNameChar(w[j])
    ensures EntryKey(w) == w
  {
    assert Lower(w) == w;
    assert IsStripped(w);
    StripOfStripped(w);
  }

  /** The first part of a phrase ends in a letter or a digit, not `@`. */
  predicate FirstPartWordEnded(parts: seq<string>) {
    |parts| >= 1 && parts[0] != [] && IsWordChar(parts[0][|parts[0]| - 1])
  }

  /** A phrase match is also a whole-word match of its first part, when
      that part ends in a word character: the whitespace after it is a word
      boundary. */
  lemma PhraseStartsWithToken(s: string, parts: seq<string>)
    requires |parts| > 1 && FirstPartWordEnded(parts) && ContainsPhrase(s, parts)
    ensures ContainsWord(s, parts[0])
  {
    var i: nat :| i <= |s| && PhraseAt(s, parts, i);
    var e := i + |parts[0]|;
    assert SpaceRunEnd(s, e) > e;
    assert IsSpace(s[e]);
    assert s[e - 1] == parts[0][|parts[0]| - 1] by {
      assert s[i..e] == parts[0];
    }
    assert WordMatchAt(s, parts[0], i);
  }

  /** Every phrase's first part is also a token, so a match of a phrase
      whose first part ends in a word character is a token match. */
  lemma {:induction false} PhraseImpliesToken(keys: seq<string>, k: nat, s: string)
    requires k < |Phrases(keys)| && FirstPartWordEnded(Phrases(keys)[k]) && ContainsPhrase(s, Phrases(keys)[k])
    ensures exists t | t in Tokens(keys) :: ContainsWord(s, t)
  {
    var parts := NameParts(keys[0]);
    var own := if keys[0] != [] && |parts| > 1 then [parts] else [];
    assert Phrases(keys) == own + Phrases(keys[1..]);
    if k < |own| {
      PhraseStartsWithToken(s, parts);
      PartInKeyTokens(keys[0], 0);
      assert parts[0] in Tokens(keys);
    } else {
      assert Phrases(keys)[k] == Phrases(keys[1..])[k - |own|];
      PhraseImpliesToken(keys[1..], k - |own|, s);
      var t :| t in Tokens(keys[1..]) && ContainsWord(s, t);
      assert t in Tokens(keys);
    }
  }

  /** The phrase patterns never decide: when every phrase's first part ends
      in a word character, the owner is mentioned exactly when one of the
      single-word tokens occurs as a whole word. */
  lemma TokensDecide(name: string, aliasesEnv: string, emailText: string)
    requires forall k | 0 <= k < |BuildOwnerContext(name, aliasesEnv).phrases| ::
               FirstPartWordEnded(BuildOwnerContext(name, aliasesEnv).phrases[k])
    ensures MentionsUserName(emailText, BuildOwnerContext(name, aliasesEnv))
            <==> exists t | t in BuildOwnerContext(name, aliasesEnv).tokens :: ContainsWord(Lower(emailText), t)
  {
    var ctx := BuildOwnerContext(name, aliasesEnv);
    var keys := EntryKeys(DisplayNames(name, aliasesEnv));
    var lowered := Lower(emailText);
    if exists k | 0 <= k < |ctx.phrases| :: |ctx.phrases[k]| >= 1 && ContainsPhrase(lowered, ctx.phrases[k]) {
      var k :| 0 <= k < |ctx.phrases| && |ctx.phrases[k]| >= 1 && ContainsPhrase(lowered, ctx.phrases[k]);
      PhraseImpliesToken(keys, k, lowered);
    }
  }

  /** The detector ignores letter case. */
  lemma MentionIgnoresCase(emailText: string, ctx: OwnerContext)
    ensures MentionsUserName(Lower(emailText), ctx) == MentionsUserName(emailText, ctx)
  {
    LowerIdempotent(emailText);
  }
}
