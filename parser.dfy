/** The defensive front-end that turns a generated reply into a JSON object
    (`_strip_code_fence` and `_safe_load_json`, backend/triage.py). The JSON
    decoder and Python's literal evaluator are parameters: `loads(s)` is
    `None` where `json.loads(s)` raises a decode error, and `literal(s)` is
    `None` where `ast.literal_eval(s)` raises. What is modelled is the order
    in which texts and strategies are tried. */
module ResponseParser {
  import opened Wrappers
  import opened Text
  import opened Values
  import opened Escaper
  import opened JsonBlock

  datatype ParseError =
    | EmptyResponse   // "Empty response from model"
    | Unparseable     // "Unable to coerce model output to JSON"
    | NotAnObject     // "Model output was not a JSON object"

  // ------------------------------------------------------------ code fence

  /** Starts and ends with three backticks, which do not overlap. */
  predicate IsFenced(t: string) {
    |t| >= 6 && t[..3] == "```" && t[|t| - 3..] == "```"
  }

  /** The opening fence carries the `json` tag, in any letter case, and
      the tag does not reach into the closing fence. */
  predicate HasJsonTag(t: string) {
    |t| >= 10 && Lower(t[3..7]) == "json"
  }

  /** `_strip_code_fence`: the regex `^\s*```(?:json)?\s*([\s\S]*?)\s*```\s*$`
      matches exactly when the stripped text is fenced; the optional `json`
      tag (any letter case) is taken when present, and the inside is
      stripped. */
  function StripCodeFence(text: string): (r: string)
    ensures IsStripped(r)
    ensures !IsFenced(Strip(text)) ==> r == Strip(text)
    ensures var t := Strip(text);
      IsFenced(t) && HasJsonTag(t) ==> r == Strip(t[7..|t| - 3])
    ensures var t := Strip(text);
      IsFenced(t) && !HasJsonTag(t) ==> r == Strip(t[3..|t| - 3])
  {
    var t := Strip(text);
    if IsFenced(t) then
      var start := if HasJsonTag(t) then 7 else 3;
      Strip(t[start..|t| - 3])
    else t
  }

  /** Any body inside a `json` fence, on one line or several, comes back
      stripped. */
  lemma TaggedFenceRemoved(body: string)
    ensures StripCodeFence("```json" + body + "```") == Strip(body)
  {
    var t := "```json" + body + "```";
    assert t[..3] == "```" && t[|t| - 3..] == "```";
    StripOfFenced(t);
    assert t[3..7] == "json";
    assert Lower("json") == "json";
    assert t[7..|t| - 3] == body;
  }

  /** Any body inside a bare fence comes back stripped, unless it starts
      with the word `json`, which is read as the tag. */
  lemma BareFenceRemoved(body: string)
    requires |body| < 4 || Lower(body[..4]) != "json"
    ensures StripCodeFence("```" + body + "```") == Strip(body)
  {
    var t := "```" + body + "```";
    assert t[..3] == "```" && t[|t| - 3..] == "```";
    StripOfFenced(t);
    if |t| >= 10 {
      assert t[3..7] == body[..4];
    }
    assert t[3..|t| - 3] == body;
  }

  /** A text that starts and ends with a backtick is already stripped. */
  lemma StripOfFenced(t: string)
    requires |t| >= 6 && t[..3] == "```" && t[|t| - 3..] == "```"
    ensures Strip(t) == t
  {
    assert t[0] == t[..3][0] && t[|t| - 1] == t[|t| - 3..][2];
    StripOfStripped(t);
  }

  lemma StripAround(body: string)
    requires IsStripped(body)
    ensures Strip([LF] + body + [LF]) == body
  {
    var s := [LF] + body + [LF];
    if body == [] {
      assert Leading(s, IsSpace) == 2 by {
        assert s[1..][1..] == [];
      }
      assert s[2..] == [];
    } else {
      assert s[1..] == body + [LF];
      assert Leading(s, IsSpace) == 1 by {
        assert Leading(s[1..], IsSpace) == 0;
      }
      var t := s[1..];
      assert t[..|t| - 1] == body;
      assert Trailing(t, IsSpace) == 1 by {
        assert Trailing(t[..|t| - 1], IsSpace) == 0;
      }
    }
  }

  /** A stripped body wrapped in a `json` fence comes back unchanged. */
  lemma JsonFenceRoundTrip(body: string)
    requires IsStripped(body)
    ensures StripCodeFence("```json" + [LF] + body + [LF] + "```") == body
  {
    var t := "```json" + [LF] + body + [LF] + "```";
    JsonFenceShape(body);
    StripOfStripped(t);
    assert Lower("json") == "json";
    StripAround(body);
  }

  lemma JsonFenceShape(body: string)
    requires IsStripped(body)
    ensures var t := "```json" + [LF] + body + [LF] + "```";
      && IsStripped(t) && IsFenced(t) && |t| >= 10
      && t[3..7] == "json" && t[7..|t| - 3] == [LF] + body + [LF]
  {
    var t := "```json" + [LF] + body + [LF] + "```";
    assert t[..3] == "```" && t[|t| - 3..] == "```";
  }

  /** So does one wrapped in a bare fence. */
  lemma BareFenceRoundTrip(body: string)
    requires IsStripped(body)
    ensures StripCodeFence("```" + [LF] + body + [LF] + "```") == body
  {
    var t := "```" + [LF] + body + [LF] + "```";
    assert IsStripped(t);
    StripOfStripped(t);
    assert t[..3] == "```" && t[|t| - 3..] == "```";
    assert |t| >= 10 ==> Lower(t[3..7])[0] == LF;
    assert t[3..|t| - 3] == [LF] + body + [LF];
    StripAround(body);
  }

  // --------------------------------------------------------- smart quotes

  /** `.replace("“", '"').replace("”", '"').replace("’", "'")` */
  function NormalizeQuotes(s: string): (r: string)
    ensures |r| == |s|
    ensures forall i | 0 <= i < |s| :: r[i] == (if s[i] == '\U{201C}' || s[i] == '\U{201D}' then '"'
                                                 else if s[i] == '\U{2019}' then '\'' else s[i])
  {
    ReplaceChar(ReplaceChar(ReplaceChar(s, '\U{201C}', '"'), '\U{201D}', '"'), '\U{2019}', '\'')
  }

  // ------------------------------------------------------ literal rewrite

  predicate WordHit(s: string, w: string, i: nat) {
    MatchAt(Lower(s), w, i) && Boundary(s, i) && Boundary(s, i + |w|)
  }

  /** Every character of `w` is a word character, as in `true`, `false`
      and `null`. */
  predicate AllWordChars(w: string) {
    forall k | 0 <= k < |w| :: IsWordChar(w[k])
  }

  /** `re.sub(r"\b" + w + r"\b", rep, s[i:], flags=re.IGNORECASE)` for a
      lower-case word `w`, with word boundaries judged in all of `s`.
      `ReplaceWordHits` and `ReplaceWordKeeps` state what it does to each
      position. */
  function ReplaceWordFrom(s: string, w: string, rep: string, i: nat): (r: string)
    requires |w| > 0 && i <= |s|
    ensures |rep| == |w| ==> |r| == |s| - i
    decreases |s| - i
  {
    if i == |s| then ""
    else if i + |w| <= |s| && WordHit(s, w, i) then rep + ReplaceWordFrom(s, w, rep, i + |w|)
    else [s[i]] + ReplaceWordFrom(s, w, rep, i + 1)
  }

  lemma LowerKeepsWordChar(c: char)
    ensures IsWordChar(LowerChar(c)) ==> IsWordChar(c)
  {
  }

  /** Two hits of a word made of word characters never overlap: inside a
      hit there is no word boundary. */
  lemma HitsApart(s: string, w: string, i: nat, j: nat)
    requires AllWordChars(w) && i < j && j + |w| <= |s| && i + |w| <= |s|
    requires WordHit(s, w, i) && WordHit(s, w, j)
    ensures i + |w| <= j
  {
    if j < i + |w| {
      assert Lower(s)[i..i + |w|] == w;
      assert Lower(s)[j - 1] == w[j - 1 - i] && Lower(s)[j] == w[j - i];
      LowerKeepsWordChar(s[j - 1]);
      LowerKeepsWordChar(s[j]);
    }
  }

  /** A whole-word, case-insensitive hit of `w` at `j` becomes `rep`. */
  lemma {:induction false} ReplaceWordHits(s: string, w: string, rep: string, i: nat, j: nat)
    requires |w| > 0 && |rep| == |w| && AllWordChars(w)
    requires i <= j && j + |w| <= |s| && WordHit(s, w, j)
    ensures ReplaceWordFrom(s, w, rep, i)[j - i..j - i + |w|] == rep
    decreases j - i, 1
  {
    if i + |w| <= |s| && WordHit(s, w, i) {
      HitsFromHit(s, w, rep, i, j);
    } else {
      HitsFromMiss(s, w, rep, i, j);
    }
  }

  lemma {:induction false} HitsFromHit(s: string, w: string, rep: string, i: nat, j: nat)
    requires |w| > 0 && |rep| == |w| && AllWordChars(w)
    requires i <= j && j + |w| <= |s| && WordHit(s, w, j) && i + |w| <= |s| && WordHit(s, w, i)
    ensures ReplaceWordFrom(s, w, rep, i)[j - i..j - i + |w|] == rep
    decreases j - i, 0
  {
    if i < j {
      HitsApart(s, w, i, j);
      var next := i + |w|;
      ReplaceWordHits(s, w, rep, next, j);
      HitShift(s, w, rep, i, next, j);
    } else {
      HitHere(s, w, rep, i);
    }
  }

  lemma {:induction false} HitsFromMiss(s: string, w: string, rep: string, i: nat, j: nat)
    requires |w| > 0 && |rep| == |w| && AllWordChars(w)
    requires i <= j && j + |w| <= |s| && WordHit(s, w, j) && !(i + |w| <= |s| && WordHit(s, w, i))
    ensures ReplaceWordFrom(s, w, rep, i)[j - i..j - i + |w|] == rep
    decreases j - i, 0
  {
    var next := i + 1;
    ReplaceWordHits(s, w, rep, next, j);
    MissShift(s, w, rep, i, next, j);
  }

  /** At a hit the scan emits `rep` and continues after the word. */
  lemma UnfoldHit(s: string, w: string, rep: string, i: nat)
    requires |w| > 0 && i + |w| <= |s| && WordHit(s, w, i)
    ensures ReplaceWordFrom(s, w, rep, i) == rep + ReplaceWordFrom(s, w, rep, i + |w|)
  {
  }

  /** Elsewhere the scan copies one character and moves on. */
  lemma UnfoldMiss(s: string, w: string, rep: string, i: nat)
    requires |w| > 0 && i < |s| && !(i + |w| <= |s| && WordHit(s, w, i))
    ensures ReplaceWordFrom(s, w, rep, i) == [s[i]] + ReplaceWordFrom(s, w, rep, i + 1)
  {
  }

  /** A slice of `pre + rest` past `pre` is a slice of `rest`. */
  lemma ShiftedSlice(out: string, pre: string, rest: string, a: nat, b: nat, n: nat, x: string)
    requires out == pre + rest && b == a - |pre| && b + n <= |rest|
    requires rest[b..b + n] == x
    ensures out[a..a + n] == x
  {
  }

  /** After a hit, the output continues with the output after it. */
  lemma HitShift(s: string, w: string, rep: string, i: nat, next: nat, j: nat)
    requires |w| > 0 && |rep| == |w| && next == i + |w| && next <= |s| && WordHit(s, w, i)
    requires next <= j && j + |w| <= |s|
    requires ReplaceWordFrom(s, w, rep, next)[j - next..j - next + |w|] == rep
    ensures ReplaceWordFrom(s, w, rep, i)[j - i..j - i + |w|] == rep
  {
    UnfoldHit(s, w, rep, i);
    ShiftedSlice(ReplaceWordFrom(s, w, rep, i), rep, ReplaceWordFrom(s, w, rep, next), j - i, j - next, |w|, rep);
  }

  /** Where no hit starts, the output is the character followed by the
      output after it. */
  lemma MissShift(s: string, w: string, rep: string, i: nat, next: nat, j: nat)
    requires |w| > 0 && |rep| == |w| && next == i + 1 && i < j && j + |w| <= |s| && !(i + |w| <= |s| && WordHit(s, w, i))
    requires ReplaceWordFrom(s, w, rep, next)[j - next..j - next + |w|] == rep
    ensures ReplaceWordFrom(s, w, rep, i)[j - i..j - i + |w|] == rep
  {
    UnfoldMiss(s, w, rep, i);
    ShiftedSlice(ReplaceWordFrom(s, w, rep, i), [s[i]], ReplaceWordFrom(s, w, rep, next), j - i, j - next, |w|, rep);
  }

  /** After a hit, a kept character of the rest is kept in the whole. */
  lemma KeepShiftHit(s: string, w: string, rep: string, i: nat, next: nat, j: nat)
    requires |w| > 0 && |rep| == |w| && next == i + |w| && next <= j < |s| && WordHit(s, w, i)
    requires ReplaceWordFrom(s, w, rep, next)[j - next] == s[j]
    ensures ReplaceWordFrom(s, w, rep, i)[j - i] == s[j]
  {
    UnfoldHit(s, w, rep, i);
    ShiftedChar(ReplaceWordFrom(s, w, rep, i), rep, ReplaceWordFrom(s, w, rep, next), j - i, j - next, s[j]);
  }

  /** Where no hit starts, a kept character of the rest is kept in the
      whole. */
  lemma KeepShiftMiss(s: string, w: string, rep: string, i: nat, next: nat, j: nat)
    requires |w| > 0 && |rep| == |w| && next == i + 1 && i < j < |s| && !(i + |w| <= |s| && WordHit(s, w, i))
    requires ReplaceWordFrom(s, w, rep, next)[j - next] == s[j]
    ensures ReplaceWordFrom(s, w, rep, i)[j - i] == s[j]
  {
    UnfoldMiss(s, w, rep, i);
    ShiftedChar(ReplaceWordFrom(s, w, rep, i), [s[i]], ReplaceWordFrom(s, w, rep, next), j - i, j - next, s[j]);
  }

  /** One step of `ReplaceWordOnlyRecases` at a hit. */
  lemma RecasedHit(s: string, w: string, rep: string, i: nat, next: nat)
    requires |w| > 0 && next == i + |w| && next <= |s| && |rep| == |w| && Lower(rep) == w && WordHit(s, w, i)
    requires Lower(ReplaceWordFrom(s, w, rep, next)) == Lower(s[next..])
    ensures Lower(ReplaceWordFrom(s, w, rep, i)) == Lower(s[i..])
  {
    UnfoldHit(s, w, rep, i);
    HitLowers(s, w, i, next);
    RecasedStep(s, i, next, rep, ReplaceWordFrom(s, w, rep, i), ReplaceWordFrom(s, w, rep, next));
  }

  /** One step of `ReplaceWordOnlyRecases` where no word starts. */
  lemma RecasedMiss(s: string, w: string, rep: string, i: nat, next: nat)
    requires |w| > 0 && next == i + 1 && i < |s| && !(i + |w| <= |s| && WordHit(s, w, i))
    requires Lower(ReplaceWordFrom(s, w, rep, next)) == Lower(s[next..])
    ensures Lower(ReplaceWordFrom(s, w, rep, i)) == Lower(s[i..])
  {
    UnfoldMiss(s, w, rep, i);
    assert s[i..next] == [s[i]];
    RecasedStep(s, i, next, [s[i]], ReplaceWordFrom(s, w, rep, i), ReplaceWordFrom(s, w, rep, next));
  }

  /** A character of `pre + rest` past `pre` is a character of `rest`. */
  lemma ShiftedChar(out: string, pre: string, rest: string, a: nat, b: nat, c: char)
    requires out == pre + rest && b == a - |pre| && b < |rest|
    requires rest[b] == c
    ensures out[a] == c
  {
  }

  /** A hit where the scan stands becomes `rep`. */
  lemma HitHere(s: string, w: string, rep: string, i: nat)
    requires |w| > 0 && |rep| == |w| && i + |w| <= |s| && WordHit(s, w, i)
    ensures ReplaceWordFrom(s, w, rep, i)[..|w|] == rep
  {
    UnfoldHit(s, w, rep, i);
  }

  /** A character at `j` that no hit starting at or after `i` covers is
      copied unchanged. */
  lemma {:induction false} ReplaceWordKeeps(s: string, w: string, rep: string, i: nat, j: nat)
    requires |w| > 0 && |rep| == |w| && i <= j < |s|
    requires forall h: nat | i <= h <= j && j < h + |w| <= |s| :: !WordHit(s, w, h)
    ensures ReplaceWordFrom(s, w, rep, i)[j - i] == s[j]
    decreases j - i
  {
    if i + |w| <= |s| && WordHit(s, w, i) {
      assert i + |w| <= j;
      var next := i + |w|;
      ReplaceWordKeeps(s, w, rep, next, j);
      KeepShiftHit(s, w, rep, i, next, j);
    } else if i < j {
      var next := i + 1;
      ReplaceWordKeeps(s, w, rep, next, j);
      KeepShiftMiss(s, w, rep, i, next, j);
    } else {
      UnfoldMiss(s, w, rep, i);
    }
  }

  function ReplaceWord(s: string, w: string, rep: string): string
    requires |w| > 0
  {
    ReplaceWordFrom(s, w, rep, 0)
  }

  /** The rewrite before `ast.literal_eval`: `true`, `false` and `null` as
      whole words in any letter case become `True`, `False` and `None`. */
  function Pythonish(cleaned: string): string {
    ReplaceWord(ReplaceWord(ReplaceWord(Escape(cleaned), "true", "True"), "false", "False"), "null", "None")
  }

  /** When the replacement spells the same word, the rewrite only changes
      letter case. */
  lemma {:induction false} ReplaceWordOnlyRecases(s: string, w: string, rep: string, i: nat)
    requires |w| > 0 && i <= |s| && |rep| == |w| && Lower(rep) == w
    ensures Lower(ReplaceWordFrom(s, w, rep, i)) == Lower(s[i..])
    decreases |s| - i
  {
    if i == |s| {
      assert s[i..] == [];
    } else if i + |w| <= |s| && WordHit(s, w, i) {
      var next := i + |w|;
      ReplaceWordOnlyRecases(s, w, rep, next);
      RecasedHit(s, w, rep, i, next);
    } else {
      var next := i + 1;
      ReplaceWordOnlyRecases(s, w, rep, next);
      RecasedMiss(s, w, rep, i, next);
    }
  }

  /** One step of `ReplaceWordOnlyRecases`: the output emitted for
      `s[i..next]` agrees with it ignoring case. */
  lemma RecasedStep(s: string, i: nat, next: nat, pre: string, out: string, rest: string)
    requires i <= next <= |s| && out == pre + rest
    requires Lower(pre) == Lower(s[i..next]) && Lower(rest) == Lower(s[next..])
    ensures Lower(out) == Lower(s[i..])
  {
    assert s[i..] == s[i..next] + s[next..];
    LowerConcat(s[i..next], s[next..]);
    LowerConcat(pre, rest);
  }

  /** A hit of `w` agrees with `w` ignoring case. */
  lemma HitLowers(s: string, w: string, i: nat, next: nat)
    requires next == i + |w| && next <= |s| && WordHit(s, w, i)
    ensures Lower(s[i..next]) == w
  {
    LowerSlice(s, i, next);
  }

  /** Where the word never occurs, the rewrite changes nothing. */
  lemma {:induction false} ReplaceWordNoHit(s: string, w: string, rep: string, i: nat)
    requires |w| > 0 && i <= |s|
    requires forall j | i <= j <= |s| - |w| :: !WordHit(s, w, j)
    ensures ReplaceWordFrom(s, w, rep, i) == s[i..]
    decreases |s| - i
  {
    if i < |s| {
      ReplaceWordNoHit(s, w, rep, i + 1);
      assert s[i..] == [s[i]] + s[i + 1..];
    }
  }

  /** `true` and `false` only change case, so the rewritten text reads the
      same ignoring case up to the `null` step. */
  lemma PythonishBooleansRecased(cleaned: string)
    ensures Lower(ReplaceWord(ReplaceWord(Escape(cleaned), "true", "True"), "false", "False")) == Lower(Escape(cleaned))
    ensures |Pythonish(cleaned)| == |Escape(cleaned)|
  {
    var e := Escape(cleaned);
    ReplaceWordOnlyRecases(e, "true", "True", 0);
    assert Lower("True") == "true";
    assert e[0..] == e;
    var e1 := ReplaceWord(e, "true", "True");
    ReplaceWordOnlyRecases(e1, "false", "False", 0);
    assert Lower("False") == "false";
    assert e1[0..] == e1;
  }

  // --------------------------------------------------------- _safe_load_json

  /** The cleaned reply: fence removed, smart quotes normalised, newlines in
      strings escaped. */
  function Cleaned(text: string): string {
    Escape(NormalizeQuotes(StripCodeFence(text)))
  }

  /** The texts tried, in order: the first balanced block (when there is
      one), then the whole cleaned reply. */
  function Candidates(cleaned: string): (r: seq<string>)
    ensures |r| >= 1 && r[|r| - 1] == cleaned
  {
    (match Block(cleaned) case Some(b) => if b != [] then [b] else [] case None => []) + [cleaned]
  }

  function Snippet(candidate: string): string {
    Escape(Strip(candidate))
  }

  /** The second strategy: single quotes read as double quotes. */
  function SingleQuotesAsDouble(snippet: string): string {
    Escape(ReplaceChar(snippet, '\'', '"'))
  }

  /** The two JSON strategies on one snippet, as written: the first result
      the decoder gives, whatever kind of value it is. */
  function TryJson(snippet: string, loads: string -> Option<Value>): Option<Value> {
    if loads(snippet).Some? then loads(snippet) else loads(SingleQuotesAsDouble(snippet))
  }

  function FirstJson(candidates: seq<string>, loads: string -> Option<Value>): Option<Value> {
    if candidates == [] then None
    else
      var snippet := Snippet(candidates[0]);
      if snippet != [] && TryJson(snippet, loads).Some? then TryJson(snippet, loads)
      else FirstJson(candidates[1..], loads)
  }

  /** The last resort: the literal evaluator, which must give a dictionary. */
  function LiteralFallback(cleaned: string, literal: string -> Option<Value>): (r: Result<map<string, Value>, ParseError>)
    ensures r.Ok? ==> literal(Pythonish(cleaned)) == Some(VDict(r.value))
    ensures r.Err? ==> r.error != EmptyResponse
    ensures r.Ok? <==> literal(Pythonish(cleaned)).Some? && literal(Pythonish(cleaned)).value.VDict?
    ensures r == Err(NotAnObject) <==> literal(Pythonish(cleaned)).Some? && !literal(Pythonish(cleaned)).value.VDict?
    ensures r == Err(Unparseable) <==> literal(Pythonish(cleaned)).None?
  {
    match literal(Pythonish(cleaned))
    case None => Err(Unparseable)
    case Some(VDict(m)) => Ok(m)
    case Some(_) => Err(NotAnObject)
  }

  /** `_safe_load_json` as written: a JSON decode of any kind of value is
      returned, although the function promises a dictionary and its callers
      immediately call `.get` on the result. */
  function SafeLoadJsonAsWritten(text: string, loads: string -> Option<Value>,
                                 literal: string -> Option<Value>): (r: Result<Value, ParseError>)
    ensures text == [] ==> r == Err(EmptyResponse)
  {
    if text == [] then Err(EmptyResponse)
    else
      var cleaned := Cleaned(text);
      match FirstJson(Candidates(cleaned), loads)
      case Some(v) => Ok(v)
      case None =>
        match LiteralFallback(cleaned, literal)
        case Ok(m) => Ok(VDict(m))
        case Err(e) => Err(e)
  }

  /** `Some(m)` exactly when the value is a JSON object. */
  function AsObject(v: Option<Value>): Option<map<string, Value>> {
    match v
    case Some(VDict(m)) => Some(m)
    case _ => None
  }

  /** The two JSON strategies on one snippet, where only an object counts as
      a success. */
  function TryJsonObject(snippet: string, loads: string -> Option<Value>): Option<map<string, Value>> {
    if AsObject(loads(snippet)).Some? then AsObject(loads(snippet)) else AsObject(loads(SingleQuotesAsDouble(snippet)))
  }

  function FirstJsonObject(candidates: seq<string>, loads: string -> Option<Value>): (r: Option<map<string, Value>>)
    ensures r.Some? ==> exists k | 0 <= k < |candidates| ::
              Snippet(candidates[k]) != []
              && (loads(Snippet(candidates[k])) == Some(VDict(r.value))
                  || loads(SingleQuotesAsDouble(Snippet(candidates[k]))) == Some(VDict(r.value)))
  {
    if candidates == [] then None
    else
      var snippet := Snippet(candidates[0]);
      if snippet != [] && TryJsonObject(snippet, loads).Some? then TryJsonObject(snippet, loads)
      else
        assert forall k | 0 <= k < |candidates[1..]| :: candidates[1..][k] == candidates[k + 1];
        FirstJsonObject(candidates[1..], loads)
  }

  /** `_safe_load_json` returning only objects: a JSON value that is not an
      object counts as a failed strategy. Every object it returns is what
      the decoder or the literal evaluator produced from one of the texts
      tried. */
  function SafeLoadJson(text: string, loads: string -> Option<Value>,
                        literal: string -> Option<Value>): (r: Result<map<string, Value>, ParseError>)
    ensures text == [] <==> r == Err(EmptyResponse)
    ensures r.Ok? ==>
      (exists k | 0 <= k < |Candidates(Cleaned(text))| ::
         var snippet := Snippet(Candidates(Cleaned(text))[k]);
         loads(snippet) == Some(VDict(r.value)) || loads(SingleQuotesAsDouble(snippet)) == Some(VDict(r.value)))
      || literal(Pythonish(Cleaned(text))) == Some(VDict(r.value))
  {
    if text == [] then Err(EmptyResponse)
    else
      var cleaned := Cleaned(text);
      match FirstJsonObject(Candidates(cleaned), loads)
      case Some(m) => Ok(m)
      case None => LiteralFallback(cleaned, literal)
  }

  // ---------------------------------------------------------------- lemmas

  /** The literal evaluator is consulted only when no JSON strategy gives an
      object. */
  lemma JsonBeforeLiteral(text: string, loads: string -> Option<Value>,
                          literal1: string -> Option<Value>, literal2: string -> Option<Value>)
    requires text != [] && FirstJsonObject(Candidates(Cleaned(text)), loads).Some?
    ensures SafeLoadJson(text, loads, literal1) == SafeLoadJson(text, loads, literal2)
  {
  }

  /** The first balanced block is preferred to the whole reply. */
  lemma BlockBeforeWholeReply(text: string, loads: string -> Option<Value>,
                              literal: string -> Option<Value>, b: string)
    requires text != [] && Block(Cleaned(text)) == Some(b)
    requires TryJsonObject(Snippet(b), loads).Some? && Snippet(b) != []
    ensures SafeLoadJson(text, loads, literal) == Ok(TryJsonObject(Snippet(b), loads).value)
  {
    BlockIsEarliestBalanced(Cleaned(text));
    assert Candidates(Cleaned(text))[0] == b;
  }

  /** The candidate loop returns the first candidate whose snippet is
      non-empty and decodes to an object. */
  lemma {:induction false} FirstJsonObjectFinds(candidates: seq<string>, loads: string -> Option<Value>, k: nat)
    requires k < |candidates|
    requires Snippet(candidates[k]) != [] && TryJsonObject(Snippet(candidates[k]), loads).Some?
    requires forall j | 0 <= j < k :: Snippet(candidates[j]) == [] || TryJsonObject(Snippet(candidates[j]), loads).None?
    ensures FirstJsonObject(candidates, loads) == TryJsonObject(Snippet(candidates[k]), loads)
    decreases k
  {
    if k > 0 {
      var rest := candidates[1..];
      forall j | 0 <= j < k - 1
        ensures Snippet(rest[j]) == [] || TryJsonObject(Snippet(rest[j]), loads).None?
      {
        assert rest[j] == candidates[j + 1];
      }
      assert rest[k - 1] == candidates[k];
      FirstJsonObjectFinds(rest, loads, k - 1);
      FirstJsonObjectSkips(candidates, loads);
    }
  }

  /** A candidate that is empty or gives no object is skipped. */
  lemma FirstJsonObjectSkips(candidates: seq<string>, loads: string -> Option<Value>)
    requires candidates != []
    requires Snippet(candidates[0]) == [] || TryJsonObject(Snippet(candidates[0]), loads).None?
    ensures FirstJsonObject(candidates, loads) == FirstJsonObject(candidates[1..], loads)
  {
  }

  /** The candidate loop finds nothing exactly when every candidate's
      snippet is empty or decodes to no object. */
  lemma {:induction false} FirstJsonObjectNone(candidates: seq<string>, loads: string -> Option<Value>)
    ensures FirstJsonObject(candidates, loads).None? <==>
              forall j | 0 <= j < |candidates| :: Snippet(candidates[j]) == [] || TryJsonObject(Snippet(candidates[j]), loads).None?
  {
    if candidates != [] {
      var rest := candidates[1..];
      assert forall j | 0 <= j < |rest| :: rest[j] == candidates[j + 1];
      FirstJsonObjectNone(rest, loads);
      if FirstJsonObject(candidates, loads).None? {
        forall j | 0 <= j < |candidates|
          ensures Snippet(candidates[j]) == [] || TryJsonObject(Snippet(candidates[j]), loads).None?
        {
          if j > 0 { assert candidates[j] == rest[j - 1]; }
        }
      }
    }
  }

  /** The block candidate failing, the whole cleaned reply is tried next:
      when its snippet decodes to an object, that object is returned. */
  lemma WholeReplyAfterBlock(text: string, loads: string -> Option<Value>, literal: string -> Option<Value>)
    requires text != []
    requires match Block(Cleaned(text))
             case Some(b) => Snippet(b) == [] || TryJsonObject(Snippet(b), loads).None?
             case None => true
    requires Snippet(Cleaned(text)) != [] && TryJsonObject(Snippet(Cleaned(text)), loads).Some?
    ensures SafeLoadJson(text, loads, literal) == Ok(TryJsonObject(Snippet(Cleaned(text)), loads).value)
  {
    WholeReplyFound(Cleaned(text), loads);
  }

  /** The candidate loop over a cleaned reply whose block fails returns the
      object of the whole reply. */
  lemma WholeReplyFound(cleaned: string, loads: string -> Option<Value>)
    requires match Block(cleaned)
             case Some(b) => Snippet(b) == [] || TryJsonObject(Snippet(b), loads).None?
             case None => true
    requires Snippet(cleaned) != [] && TryJsonObject(Snippet(cleaned), loads).Some?
    ensures FirstJsonObject(Candidates(cleaned), loads) == TryJsonObject(Snippet(cleaned), loads)
  {
    var cs := Candidates(cleaned);
    forall j | 0 <= j < |cs| - 1
      ensures Snippet(cs[j]) == [] || TryJsonObject(Snippet(cs[j]), loads).None?
    {
      assert Block(cleaned).Some? && cs[j] == Block(cleaned).value;
    }
    FirstJsonObjectFinds(cs, loads, |cs| - 1);
  }

  lemma {:induction false} FirstJsonNoneAgrees(candidates: seq<string>, loads: string -> Option<Value>)
    ensures FirstJson(candidates, loads).None? ==> FirstJsonObject(candidates, loads).None?
  {
    if candidates != [] {
      FirstJsonNoneAgrees(candidates[1..], loads);
    }
  }

  lemma {:induction false} FirstJsonAgrees(candidates: seq<string>, loads: string -> Option<Value>)
    ensures (match FirstJson(candidates, loads) case Some(VDict(m)) => true case _ => false)
            ==> FirstJsonObject(candidates, loads) == Some(FirstJson(candidates, loads).value.fields)
  {
    if candidates != [] {
      FirstJsonAgrees(candidates[1..], loads);
    }
  }

  /** Wherever the source returns an object, or fails, the corrected loader
      does the same; the two differ only where the source returns a JSON
      value that is not an object. */
  lemma CorrectedAgreesWithSource(text: string, loads: string -> Option<Value>, literal: string -> Option<Value>)
    ensures SafeLoadJsonAsWritten(text, loads, literal).Err? ==>
              SafeLoadJson(text, loads, literal) == Err(SafeLoadJsonAsWritten(text, loads, literal).error)
    ensures (match SafeLoadJsonAsWritten(text, loads, literal) case Ok(VDict(m)) => true case _ => false) ==>
              SafeLoadJson(text, loads, literal) == Ok(SafeLoadJsonAsWritten(text, loads, literal).value.fields)
  {
    if text != [] {
      FirstJsonNoneAgrees(Candidates(Cleaned(text)), loads);
      FirstJsonAgrees(Candidates(Cleaned(text)), loads);
    }
  }

  /** The whole cleaned reply is already escaped, so its second escaping
      before the literal rewrite changes nothing. */
  lemma PythonishSkipsNoEscape(text: string)
    ensures Escape(Cleaned(text)) == Cleaned(text)
  {
    EscapeIdempotent(NormalizeQuotes(StripCodeFence(text)));
  }

  lemma {:induction false} SpacesKeepStart(w: string)
    requires forall j | 0 <= j < |w| :: IsSpace(w[j])
    ensures RunFrom(Start, w).1 == Start
    decreases |w|
  {
    if w != [] {
      assert Step(Start, w[0]).1 == Start;
      SpacesKeepStart(w[1..]);
    }
  }

  /** Dropping leading whitespace from a clean text leaves a clean text. */
  lemma CleanAfterSpaces(s: string, a: nat)
    requires Clean(Start, s) && a <= |s|
    requires forall j | 0 <= j < a :: IsSpace(s[j])
    ensures Clean(Start, s[a..])
  {
    assert s == s[..a] + s[a..];
    SpacesKeepStart(s[..a]);
    CleanAppend(Start, s[..a], s[a..]);
  }

  /** Every prefix of a clean text is clean. */
  lemma CleanPrefix(t: string, n: nat)
    requires Clean(Start, t) && n <= |t|
    ensures Clean(Start, t[..n])
  {
    assert t == t[..n] + t[n..];
    CleanAppend(Start, t[..n], t[n..]);
  }

  /** Stripping a clean text keeps it clean, so the snippet of the whole
      cleaned reply is that reply, stripped, unchanged by its escaping. */
  lemma StrippedCleanIsFixed(s: string)
    requires Clean(Start, s)
    ensures Snippet(s) == Strip(s)
  {
    var a := Leading(s, IsSpace);
    CleanAfterSpaces(s, a);
    var t := s[a..];
    var n := |t| - Trailing(t, IsSpace);
    CleanPrefix(t, n);
    assert Strip(s) == t[..n];
    CleanTextUnchanged(t[..n]);
  }

  lemma WholeReplySnippet(text: string)
    ensures Snippet(Cleaned(text)) == Strip(Cleaned(text))
  {
    EscapeIsClean(NormalizeQuotes(StripCodeFence(text)));
    StrippedCleanIsFixed(Cleaned(text));
  }

  /** The counterexample: the loader as written returns a reply holding the
      JSON array `[1]` as a list, which `classify` then cannot read fields
      from. */
  lemma ArrayReplyAsWritten(loads: string -> Option<Value>, literal: string -> Option<Value>)
    requires loads("[1]") == Some(VList([VInt(1)]))
    ensures SafeLoadJsonAsWritten("[1]", loads, literal) == Ok(VList([VInt(1)]))
  {
    ArrayReplyCandidates();
    assert FirstJson(["[1]"], loads) == Some(VList([VInt(1)]));
  }

  /** The corrected loader reports the same reply as not an object. */
  lemma ArrayReplyRejected(loads: string -> Option<Value>, literal: string -> Option<Value>)
    requires loads("[1]") == Some(VList([VInt(1)]))
    requires literal("[1]") == Some(VList([VInt(1)]))
    ensures SafeLoadJson("[1]", loads, literal) == Err(NotAnObject)
  {
    ArrayReplyCandidates();
    assert FirstJsonObject(["[1]"], loads) == None;
    ArrayReplyLiteral();
  }

  lemma ArrayReplyCandidates()
    ensures Cleaned("[1]") == "[1]" && Candidates("[1]") == ["[1]"]
    ensures Snippet("[1]") == "[1]" && SingleQuotesAsDouble("[1]") == "[1]"
  {
    ArrayReplyCleaned();
    ArrayReplyNoBlock();
    ArrayReplySnippet();
  }

  lemma ArrayReplyNoBlock()
    ensures Block("[1]") == None
  {
    NoneIffNeverClosed("[1]");
  }

  lemma ArrayReplySnippet()
    ensures Snippet("[1]") == "[1]" && SingleQuotesAsDouble("[1]") == "[1]"
  {
    var t := "[1]";
    assert IsStripped(t);
    StripOfStripped(t);
    NoBreaksUnchanged(t);
    assert ReplaceChar(t, '\'', '"') == t;
  }

  lemma ArrayReplyCleaned()
    ensures Cleaned("[1]") == "[1]"
  {
    var t := "[1]";
    assert IsStripped(t);
    StripOfStripped(t);
    assert StripCodeFence(t) == t;
    assert NormalizeQuotes(t) == t;
    NoBreaksUnchanged(t);
  }

  lemma ArrayReplyLiteral()
    ensures Pythonish("[1]") == "[1]"
  {
    var t := "[1]";
    NoBreaksUnchanged(t);
    assert Escape(t) == t;
    ReplaceWordNoHit(t, "true", "True", 0);
    assert t[0..] == t;
    ReplaceWordNoHit(t, "false", "False", 0);
    ReplaceWordNoHit(t, "null", "None", 0);
  }
}
