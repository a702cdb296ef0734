/** `_escape_unescaped_newlines` (backend/triage.py): a single left-to-right
    scan that tracks whether it is inside a quoted string, which quote opened
    it, whether the previous character was a backslash, and whether a
    carriage return inside a string is waiting for its line feed. */
module Escaper {
  import opened Text

  datatype Mode = Outside | Inside(quote: char)

  datatype ScanState = ScanState(mode: Mode, escape: bool, pendingCr: bool)

  const Start: ScanState := ScanState(Outside, false, false)

  /** What one character contributes to the output, and the state after it. */
  function Step(st: ScanState, ch: char): (string, ScanState) {
    if st.pendingCr && ch == LF && st.mode.Inside? then
      ("", st.(pendingCr := false))                       // second half of a CRLF inside a string
    else
      var st := st.(pendingCr := false);
      if st.escape then ([ch], st.(escape := false))      // character after a backslash
      else if ch == '\\' then ([ch], st.(escape := true))
      else if st.mode.Inside? then
        if ch == st.mode.quote then ([ch], st.(mode := Outside))
        else if ch == CR then ("\\n", st.(pendingCr := true))
        else if ch == LF then ("\\n", st)
        else ([ch], st)
      else
        var st := if ch == '"' || ch == '\'' then st.(mode := Inside(ch)) else st;
        if ch == CR then ("", st) else ([ch], st)         // a carriage return outside a string is dropped
  }

  /** Output produced from `s` when the scan starts in state `st`, and the
      state it ends in. */
  function RunFrom(st: ScanState, s: string): (string, ScanState)
    decreases |s|
  {
    if s == [] then ("", st)
    else
      var (o, st1) := Step(st, s[0]);
      var (rest, stEnd) := RunFrom(st1, s[1..]);
      (o + rest, stEnd)
  }

  /** The function's result. */
  function Escape(s: string): string {
    RunFrom(Start, s).0
  }

  function Settled(st: ScanState): ScanState {
    st.(pendingCr := false)
  }

  /** A character the scan copies as it is in state `st`: it follows a
      backslash, is a backslash, closes the open string, or is neither a
      carriage return nor a line feed inside a string. */
  predicate CharOk(st: ScanState, c: char) {
    st.escape || c == '\\' || (st.mode.Inside? && c == st.mode.quote)
    || (c != CR && !(st.mode.Inside? && c == LF))
  }

  /** Read by the same scan from state `st`, `t` holds no bare carriage
      return anywhere and no bare line feed inside a quoted string. */
  predicate Clean(st: ScanState, t: string)
    decreases |t|
  {
    t == [] || (CharOk(st, t[0]) && Clean(Step(st, t[0]).1, t[1..]))
  }

  // ---------------------------------------------------------------- lemmas

  lemma {:induction false} RunAppend(st: ScanState, a: string, b: string)
    ensures RunFrom(st, a + b).0 == RunFrom(st, a).0 + RunFrom(RunFrom(st, a).1, b).0
    ensures RunFrom(st, a + b).1 == RunFrom(RunFrom(st, a).1, b).1
    decreases |a|
  {
    if a == [] {
      assert a + b == b;
    } else {
      assert (a + b)[0] == a[0];
      assert (a + b)[1..] == a[1..] + b;
      RunAppend(Step(st, a[0]).1, a[1..], b);
    }
  }

  lemma {:induction false} CleanAppend(st: ScanState, a: string, b: string)
    ensures Clean(st, a + b) <==> Clean(st, a) && Clean(RunFrom(st, a).1, b)
    decreases |a|
  {
    if a == [] {
      assert a + b == b;
    } else {
      assert (a + b)[0] == a[0];
      assert (a + b)[1..] == a[1..] + b;
      CleanAppend(Step(st, a[0]).1, a[1..], b);
    }
  }

  lemma ReadOne(st: ScanState, c: char)
    ensures RunFrom(st, [c]) == Step(st, c)
    ensures Clean(st, [c]) == CharOk(st, c)
  {
    assert [c][0] == c && [c][1..] == [];
    assert Step(st, c).0 + "" == Step(st, c).0;
  }

  /** The two characters `\n` written for a line break inside a string are
      read back as an escape pair that leaves the state as it was. */
  lemma ReadEscapedBreak(st: ScanState)
    requires !st.escape && !st.pendingCr
    ensures RunFrom(st, "\\n") == ("\\n", st)
    ensures Clean(st, "\\n")
  {
    var st1 := st.(escape := true);
    assert Step(st, '\\') == ("\\", st1);
    ReadOne(st1, 'n');
    assert "\\n" == ['\\'] + ['n'];
    RunAppend(st, ['\\'], ['n']);
    CleanAppend(st, ['\\'], ['n']);
    ReadOne(st, '\\');
  }

  /** What one step writes is clean and is read back unchanged, ending in the
      same state apart from a pending carriage return. */
  lemma StepOutputIsClean(st: ScanState, c: char)
    ensures Clean(Settled(st), Step(st, c).0)
    ensures RunFrom(Settled(st), Step(st, c).0) == (Step(st, c).0, Settled(Step(st, c).1))
  {
    var s0 := Settled(st);
    if st.pendingCr && c == LF && st.mode.Inside? {
    } else if s0.escape || c == '\\' {
      ReadOne(s0, c);
    } else if s0.mode.Inside? && c != s0.mode.quote && (c == CR || c == LF) {
      ReadEscapedBreak(s0);
    } else if s0.mode.Outside? && c == CR {
    } else {
      ReadOne(s0, c);
    }
  }

  lemma {:induction false} EscapeOutputIsClean(st: ScanState, s: string)
    ensures Clean(Settled(st), RunFrom(st, s).0)
    ensures RunFrom(Settled(st), RunFrom(st, s).0) == (RunFrom(st, s).0, Settled(RunFrom(st, s).1))
    decreases |s|
  {
    if s != [] {
      var (o, st1) := Step(st, s[0]);
      var (rest, stEnd) := RunFrom(st1, s[1..]);
      StepOutputIsClean(st, s[0]);
      EscapeOutputIsClean(st1, s[1..]);
      RunAppend(Settled(st), o, rest);
      CleanAppend(Settled(st), o, rest);
    }
  }

  /** A clean text, scanned from a state with no pending carriage return,
      is copied unchanged. */
  lemma {:induction false} CleanIsFixed(st: ScanState, t: string)
    requires !st.pendingCr && Clean(st, t)
    ensures RunFrom(st, t).0 == t
    ensures !RunFrom(st, t).1.pendingCr
    decreases |t|
  {
    if t != [] {
      assert Step(st, t[0]).0 == [t[0]];
      CleanIsFixed(Step(st, t[0]).1, t[1..]);
    }
  }

  /** The output holds no bare carriage return, and no bare line feed inside
      a quoted string. */
  lemma EscapeIsClean(s: string)
    ensures Clean(Start, Escape(s))
  {
    EscapeOutputIsClean(Start, s);
  }

  /** Applying the escaper to its own output changes nothing. */
  lemma EscapeIdempotent(s: string)
    ensures Escape(Escape(s)) == Escape(s)
  {
    EscapeOutputIsClean(Start, s);
    CleanIsFixed(Start, Escape(s));
  }

  /** A clean text is a fixed point. */
  lemma CleanTextUnchanged(t: string)
    requires Clean(Start, t)
    ensures Escape(t) == t
  {
    CleanIsFixed(Start, t);
  }

  /** A text without carriage returns or line feeds is copied unchanged. */
  lemma NoBreaksUnchanged(t: string)
    requires forall i | 0 <= i < |t| :: t[i] != CR && t[i] != LF
    ensures Escape(t) == t
  {
    NoBreaksClean(Start, t);
    CleanIsFixed(Start, t);
  }

  lemma {:induction false} NoBreaksClean(st: ScanState, t: string)
    requires forall i | 0 <= i < |t| :: t[i] != CR && t[i] != LF
    ensures Clean(st, t)
    decreases |t|
  {
    if t != [] {
      NoBreaksClean(Step(st, t[0]).1, t[1..]);
    }
  }

  // ------------------------------------------------------------- examples

  lemma ReadCons(st: ScanState, c: char, rest: string)
    ensures RunFrom(st, [c] + rest).0 == Step(st, c).0 + RunFrom(Step(st, c).1, rest).0
  {
    assert ([c] + rest)[0] == c && ([c] + rest)[1..] == rest;
  }

  /** A CRLF pair inside a string becomes one escaped `\n`. */
  lemma CrlfInStringExample()
    ensures Escape(['"', 'a', CR, LF, 'b', '"']) == ['"', 'a', '\\', 'n', 'b', '"']
  {
    var q := ScanState(Inside('"'), false, false);
    ReadCons(q, '"', []);
    ReadCons(q, 'b', ['"']);
    ReadCons(q.(pendingCr := true), LF, ['b', '"']);
    ReadCons(q, CR, [LF, 'b', '"']);
    ReadCons(q, 'a', [CR, LF, 'b', '"']);
    ReadCons(Start, '"', ['a', CR, LF, 'b', '"']);
  }

  /** A line break outside any string is kept; a carriage return there is
      dropped. */
  lemma BreakOutsideStringExample()
    ensures Escape(['{', CR, LF, '}']) == ['{', LF, '}']
  {
    ReadCons(Start, '}', []);
    ReadCons(Start, LF, ['}']);
    ReadCons(Start, CR, [LF, '}']);
    ReadCons(Start, '{', [CR, LF, '}']);
  }

  /** Escaping does not commute with taking a piece of the text: `t` is a
      fixed point, but the piece after its first character is not, because
      scanning from the middle of `t` pairs the quotes differently. */
  lemma SliceOfFixedPointExample()
    ensures var t := ['"', '{', '\'', '"', LF, '\'', '}'];
            Escape(t) == t && Escape(t[1..]) != t[1..]
  {
    var t := ['"', '{', '\'', '"', LF, '\'', '}'];
    var dq := ScanState(Inside('"'), false, false);
    var sq := ScanState(Inside('\''), false, false);
    ReadCons(sq, '}', []);
    ReadCons(Start, '\'', ['}']);
    ReadCons(Start, LF, ['\'', '}']);
    ReadCons(dq, '"', [LF, '\'', '}']);
    ReadCons(dq, '\'', ['"', LF, '\'', '}']);
    ReadCons(dq, '{', ['\'', '"', LF, '\'', '}']);
    ReadCons(Start, '"', ['{', '\'', '"', LF, '\'', '}']);
    assert t[1..] == ['{', '\'', '"', LF, '\'', '}'];
    ReadCons(Start, '}', []);
    ReadCons(Start, '\'', ['}']);
    ReadCons(sq, LF, ['\'', '}']);
    ReadCons(sq, '"', [LF, '\'', '}']);
    ReadCons(Start, '\'', ['"', LF, '\'', '}']);
    ReadCons(Start, '{', ['\'', '"', LF, '\'', '}']);
  }

  // -------------------------------------------------------------- the loop

  /** The scan state the loop's four variables encode. */
  ghost function Encoded(inString: bool, quoteChar: string, escape: bool, pending: bool): ScanState
    requires inString ==> |quoteChar| == 1
  {
    ScanState(if inString then Inside(quoteChar[0]) else Outside, escape, pending)
  }

  /** `_escape_unescaped_newlines`: escapes every bare carriage return or
      line feed inside a quoted string as `\n` (a CRLF pair once), drops bare
      carriage returns outside strings, and copies everything else. */
  method EscapeUnescapedNewlines(snippet: string) returns (result: string)
    ensures result == Escape(snippet)
  {
    if |snippet| == 0 {
      return "";
    }
    var out: string := [];
    var inString := false;
    var quoteChar: string := "";
    var escape := false;
    var pendingCrInString := false;
    for i := 0 to |snippet|
      invariant inString <==> |quoteChar| == 1
      invariant !inString ==> quoteChar == ""
      invariant (out, Encoded(inString, quoteChar, escape, pendingCrInString))
                == RunFrom(Start, snippet[..i])
    {
      ghost var before := out;
      ghost var step := Step(Encoded(inString, quoteChar, escape, pendingCrInString), snippet[i]);
      var ch := snippet[i];
      var skip := false;
      if pendingCrInString {
        if ch == LF && inString {
          pendingCrInString := false;
          skip := true;
        } else {
          pendingCrInString := false;
        }
      }
      if skip {
      } else if escape {
        out := out + [ch];
        escape := false;
      } else if ch == '\\' {
        out := out + [ch];
        escape := true;
      } else if inString {
        if [ch] == quoteChar {
          inString := false;
          quoteChar := "";
          out := out + [ch];
        } else if ch == CR {
          out := out + "\\n";
          pendingCrInString := true;
        } else if ch == LF {
          out := out + "\\n";
        } else {
          out := out + [ch];
        }
      } else {
        if ch == '"' || ch == '\'' {
          inString := true;
          quoteChar := [ch];
        }
        if ch == CR {
          pendingCrInString := false;
        } else {
          out := out + [ch];
        }
      }
      assert out == before + step.0;
      assert Encoded(inString, quoteChar, escape, pendingCrInString) == step.1;
      assert snippet[..i + 1] == snippet[..i] + [ch];
      RunAppend(Start, snippet[..i], [ch]);
      ReadOne(RunFrom(Start, snippet[..i]).1, ch);
    }
    assert snippet[..|snippet|] == snippet;
    result := out;
  }
}
