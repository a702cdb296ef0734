/** `_find_json_block` (backend/triage.py): a scan that counts brace depth
    (never below zero), remembers where the outermost `{` opened, and returns
    the span that closes it first. Quotes are not tracked, so braces inside
    strings count like any other. */
module JsonBlock {
  import opened Wrappers

  /** The effect of one character on the brace depth; a `}` at depth zero
      is ignored. */
  function DepthStep(d: nat, c: char): nat {
    if c == '{' then d + 1 else if c == '}' && d > 0 then d - 1 else d
  }

  /** Brace depth after scanning `s`. */
  function Depth(s: string): nat
    decreases |s|
  {
    if s == [] then 0 else DepthStep(Depth(s[..|s| - 1]), s[|s| - 1])
  }

  /** Brace count of `s` without the clamp: opening minus closing braces. */
  function Net(s: string): int
    decreases |s|
  {
    if s == [] then 0
    else Net(s[..|s| - 1]) + (if s[|s| - 1] == '{' then 1 else if s[|s| - 1] == '}' then -1 else 0)
  }

  /** A non-empty span that starts with `{`, ends with `}`, whose braces
      pair up, and no proper prefix of which is itself closed. */
  predicate Balanced(b: string) {
    |b| >= 2 && b[0] == '{' && b[|b| - 1] == '}' && Net(b) == 0
    && forall k | 0 < k < |b| :: Net(b[..k]) > 0
  }

  /** The `}` at `j` brings the depth from one back to zero. */
  predicate ReturnsToZero(text: string, j: int) {
    0 <= j < |text| && text[j] == '}' && Depth(text[..j]) == 1
  }

  /** The first position at or after `k` that returns the depth to zero. */
  function FirstCloseFrom(text: string, k: nat): (r: Option<nat>)
    requires k <= |text|
    ensures r.Some? ==> k <= r.value && ReturnsToZero(text, r.value)
                        && forall m | k <= m < r.value :: !ReturnsToZero(text, m)
    ensures r.None? ==> forall m | k <= m < |text| :: !ReturnsToZero(text, m)
    decreases |text| - k
  {
    if k == |text| then None
    else if ReturnsToZero(text, k) then Some(k)
    else FirstCloseFrom(text, k + 1)
  }

  /** The last position at or before `k` where the depth was zero. */
  function LastZero(text: string, k: nat): (r: nat)
    requires k <= |text|
    ensures r <= k && Depth(text[..r]) == 0
    ensures forall m | r < m <= k :: Depth(text[..m]) != 0
    decreases k
  {
    if k == 0 || Depth(text[..k]) == 0 then
      assert k == 0 ==> text[..k] == [];
      k
    else LastZero(text, k - 1)
  }

  /** The span `_find_json_block` returns, as a specification. */
  function Block(text: string): Option<string> {
    match FirstCloseFrom(text, 0)
    case None => None
    case Some(j) => Some(text[LastZero(text, j)..j + 1])
  }

  // ---------------------------------------------------------------- lemmas

  lemma DepthSnoc(s: string, c: char)
    ensures Depth(s + [c]) == DepthStep(Depth(s), c)
    ensures Net(s + [c]) == Net(s) + (if c == '{' then 1 else if c == '}' then -1 else 0)
  {
    assert (s + [c])[..|s|] == s;
  }

  lemma SliceSnoc(s: string, i: nat, k: nat)
    requires i < k <= |s|
    ensures s[i..k] == s[i..k - 1] + [s[k - 1]]
  {
    var a, b := s[i..k], s[i..k - 1] + [s[k - 1]];
    assert |a| == |b|;
    forall t | 0 <= t < |a| ensures a[t] == b[t] {
      if t < k - 1 - i {
        assert b[t] == s[i..k - 1][t];
      }
    }
  }

  /** Inside the span that opens at `i` and first closes at `j`, the depth
      never reaches zero and equals the span's own brace count. */
  lemma {:induction false} SpanDepth(text: string, i: nat, j: nat, k: nat)
    requires ReturnsToZero(text, j) && i == LastZero(text, j)
    requires i <= k <= j + 1
    ensures Depth(text[..k]) == Net(text[i..k])
    ensures i < k <= j ==> Depth(text[..k]) > 0
    decreases k
  {
    if k == i {
      assert text[i..k] == [];
    } else {
      SpanDepth(text, i, j, k - 1);
      SliceSnoc(text, 0, k);
      assert text[..k] == text[0..k] && text[..k - 1] == text[0..k - 1];
      SliceSnoc(text, i, k);
      DepthSnoc(text[..k - 1], text[k - 1]);
      DepthSnoc(text[i..k - 1], text[k - 1]);
      if k - 1 == i {
        assert Depth(text[..i + 1]) != 0;
      }
    }
  }

  /** `_find_json_block` finds nothing exactly when no `}` ever brings the
      depth back to zero. */
  lemma NoneIffNeverClosed(text: string)
    ensures Block(text).None? <==> forall j | 0 <= j < |text| :: !ReturnsToZero(text, j)
  {
    if Block(text).Some? {
      var j := FirstCloseFrom(text, 0).value;
      assert ReturnsToZero(text, j);
    }
  }

  /** The span from the last depth-zero point before a closing `}` up to
      that `}` is balanced. */
  lemma SpanBalanced(text: string, j: nat)
    requires ReturnsToZero(text, j)
    ensures LastZero(text, j) <= j
    ensures Balanced(text[LastZero(text, j)..j + 1])
  {
    var i := LastZero(text, j);
    var b := text[i..j + 1];
    assert i < j;
    SpanDepth(text, i, j, j + 1);
    assert Net(b) == 0 by {
      assert text[..j + 1] == text[..j] + [text[j]];
      DepthSnoc(text[..j], text[j]);
    }
    forall k | 0 < k < |b| ensures Net(b[..k]) > 0 {
      SpanDepth(text, i, j, i + k);
      assert b[..k] == text[i..i + k];
    }
    assert b[0] == '{' by {
      assert Depth(text[..i + 1]) != 0;
      assert text[..i + 1] == text[..i] + [text[i]];
      DepthSnoc(text[..i], text[i]);
    }
  }

  /** A span found is the earliest closed one: it is a piece of the text
      that opens at depth zero, it is balanced, and no earlier `}` closes
      anything. */
  lemma BlockIsEarliestBalanced(text: string)
    requires Block(text).Some?
    ensures exists i: nat, j: nat | i <= j < |text| ::
              Block(text).value == text[i..j + 1] && Depth(text[..i]) == 0
              && ReturnsToZero(text, j)
              && (forall m | 0 <= m < j :: !ReturnsToZero(text, m))
    ensures Balanced(Block(text).value)
  {
    var j := FirstCloseFrom(text, 0).value;
    SpanBalanced(text, j);
    var i := LastZero(text, j);
    assert Block(text).value == text[i..j + 1];
  }

  /** After a prefix at depth zero, a `}` changes nothing for the rest of
      the scan. */
  lemma {:induction false} DepthAfterStray(a: string, x: string)
    requires Depth(a) == 0
    ensures Depth(a + ['}'] + x) == Depth(a + x)
    decreases |x|
  {
    if x == [] {
      assert a + ['}'] + x == a + ['}'] && a + x == a;
      DepthSnoc(a, '}');
    } else {
      var y := x[..|x| - 1];
      var c := x[|x| - 1];
      DepthAfterStray(a, y);
      assert a + ['}'] + x == (a + ['}'] + y) + [c];
      assert a + x == (a + y) + [c];
      DepthSnoc(a + ['}'] + y, c);
      DepthSnoc(a + y, c);
    }
  }

  /** `Some(j)` moved one place right when it lies at or after `n`. */
  function ShiftFrom(r: Option<nat>, n: nat): Option<nat> {
    match r
    case None => None
    case Some(j) => Some(if j < n then j else j + 1)
  }

  /** The scan of `a + ['}'] + b` after the stray `}` is the scan of
      `a + b` after `a`, one place to the right. */
  lemma {:induction false} StrayFirstCloseAfter(a: string, b: string, k: nat)
    requires Depth(a) == 0 && |a| <= k <= |a + b|
    ensures FirstCloseFrom(a + ['}'] + b, k + 1) == ShiftFrom(FirstCloseFrom(a + b, k), |a|)
    decreases |a + b| - k
  {
    var s, t := a + ['}'] + b, a + b;
    if k < |t| {
      assert s[..k + 1] == a + ['}'] + b[..k - |a|];
      assert t[..k] == a + b[..k - |a|];
      DepthAfterStray(a, b[..k - |a|]);
      assert s[k + 1] == t[k];
      assert ReturnsToZero(s, k + 1) == ReturnsToZero(t, k);
      StrayFirstCloseAfter(a, b, k + 1);
    }
  }

  /** Before the stray `}` both scans see the same characters. */
  lemma {:induction false} StrayFirstCloseBefore(a: string, b: string, k: nat)
    requires Depth(a) == 0 && k <= |a|
    ensures FirstCloseFrom(a + ['}'] + b, k) == ShiftFrom(FirstCloseFrom(a + b, k), |a|)
    decreases |a| - k
  {
    var s, t := a + ['}'] + b, a + b;
    assert s[..k] == a[..k] == t[..k];
    if k == |a| {
      assert !ReturnsToZero(s, k);
      StrayFirstCloseAfter(a, b, k);
    } else {
      assert s[k] == t[k];
      StrayFirstCloseBefore(a, b, k + 1);
    }
  }

  lemma {:induction false} StrayLastZeroBefore(a: string, b: string, k: nat)
    requires k <= |a|
    ensures LastZero(a + ['}'] + b, k) == LastZero(a + b, k)
    decreases k
  {
    var s, t := a + ['}'] + b, a + b;
    assert s[..k] == a[..k] == t[..k];
    if k > 0 && Depth(t[..k]) != 0 {
      StrayLastZeroBefore(a, b, k - 1);
    }
  }

  lemma {:induction false} StrayLastZeroAfter(a: string, b: string, k: nat)
    requires Depth(a) == 0 && |a| <= k <= |a + b|
    ensures LastZero(a + ['}'] + b, k + 1) == LastZero(a + b, k) + 1
    decreases k
  {
    var s, t := a + ['}'] + b, a + b;
    assert s[..k + 1] == a + ['}'] + b[..k - |a|];
    assert t[..k] == a + b[..k - |a|];
    DepthAfterStray(a, b[..k - |a|]);
    if Depth(t[..k]) != 0 {
      assert k != |a| by {
        assert t[..|a|] == a;
      }
      StrayLastZeroAfter(a, b, k - 1);
    }
  }

  /** A `}` at depth zero, anywhere in the text, is ignored. */
  lemma StrayCloseIgnored(a: string, b: string)
    requires Depth(a) == 0
    ensures Block(a + ['}'] + b) == Block(a + b)
  {
    StrayFirstCloseBefore(a, b, 0);
    var r := FirstCloseFrom(a + b, 0);
    if r.Some? {
      if r.value < |a| {
        StrayBlockEarly(a, b, r.value);
      } else {
        StrayBlockLate(a, b, r.value);
      }
    }
  }

  /** The block closes inside `a`: both texts give the same span of `a`. */
  lemma StrayBlockEarly(a: string, b: string, j: nat)
    requires j < |a| && FirstCloseFrom(a + b, 0) == Some(j) && FirstCloseFrom(a + ['}'] + b, 0) == Some(j)
    ensures Block(a + ['}'] + b) == Block(a + b)
  {
    var s, t := a + ['}'] + b, a + b;
    StrayLastZeroBefore(a, b, j);
    var l := LastZero(t, j);
    assert s[l..j + 1] == a[l..j + 1] == t[l..j + 1];
  }

  /** The block closes after the stray `}`: the span moves one place. */
  lemma StrayBlockLate(a: string, b: string, j: nat)
    requires Depth(a) == 0 && |a| <= j < |a + b|
    requires FirstCloseFrom(a + b, 0) == Some(j) && FirstCloseFrom(a + ['}'] + b, 0) == Some(j + 1)
    ensures Block(a + ['}'] + b) == Block(a + b)
  {
    var s, t := a + ['}'] + b, a + b;
    StrayLastZeroAfter(a, b, j);
    var l := LastZero(t, j);
    assert |a| <= l by {
      assert t[..|a|] == a;
    }
    assert s[l + 1..j + 2] == t[l..j + 1];
  }

  // -------------------------------------------------------------- the loop

  /** `_find_json_block`. */
  method FindJsonBlock(text: string) returns (block: Option<string>)
    ensures block == Block(text)
  {
    var depth: nat := 0;
    var start: Option<nat> := None;
    for idx := 0 to |text|
      invariant depth == Depth(text[..idx])
      invariant depth > 0 ==> start == Some(LastZero(text, idx))
      invariant FirstCloseFrom(text, 0) == FirstCloseFrom(text, idx)
    {
      var ch := text[idx];
      assert text[..idx + 1] == text[..idx] + [ch];
      DepthSnoc(text[..idx], ch);
      if ch == '{' {
        if depth == 0 {
          start := Some(idx);
        }
        depth := depth + 1;
      } else if ch == '}' {
        if depth > 0 {
          depth := depth - 1;
          if depth == 0 && start.Some? {
            assert ReturnsToZero(text, idx);
            return Some(text[start.value..idx + 1]);
          }
        }
      }
    }
    return None;
  }
}
