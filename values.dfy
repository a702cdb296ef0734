/** Stock option and result wrappers used across the model. */
module Wrappers {
  datatype Option<T> = None | Some(value: T)

  datatype Result<T, E> = Ok(value: T) | Err(error: E)
}

/** The Python objects the triage engine and the orchestrator read out of a
    parsed model response (`dict.get` values), and the conversions applied to
    them: `float()`, `bool()`, `str()`, and the triage engine's own
    `_clamp_score` and `_coerce_bool`. */
module Values {
  import opened Wrappers
  import opened Text

  /** A JSON value, or a value `ast.literal_eval` produced. Dictionary keys
      other than strings play no part in the model and are not represented. */
  datatype Value =
    | VNone
    | VBool(b: bool)
    | VInt(i: int)
    | VFloat(r: real)
    | VStr(s: string)
    | VList(items: seq<Value>)
    | VDict(fields: map<string, Value>)

  /** `d.get(key, default)` */
  function Get(d: map<string, Value>, key: string, default: Value): Value {
    if key in d then d[key] else default
  }

  // -------------------------------------------------------------- float()

  predicate AllDigits(s: string) {
    forall i | 0 <= i < |s| :: IsDigit(s[i])
  }

  function DigitsValue(s: string): nat
    requires AllDigits(s)
  {
    if s == [] then 0 else DigitsValue(s[..|s| - 1]) * 10 + (s[|s| - 1] as int - '0' as int)
  }

  function Pow10(n: nat): (p: nat)
    ensures p >= 1
  {
    if n == 0 then 1 else 10 * Pow10(n - 1)
  }

  /** `float(s)` for a string: surrounding whitespace, an optional sign, and
      decimal digits with at most one decimal point (at least one digit). */
  function ParseNumber(s: string): Option<real> {
    var t := Strip(s);
    var neg := |t| > 0 && t[0] == '-';
    var body := if |t| > 0 && (t[0] == '-' || t[0] == '+') then t[1..] else t;
    var dot := IndexOf(body, '.');
    var whole := body[..dot];
    var frac := if dot < |body| then body[dot + 1..] else "";
    if AllDigits(whole) && AllDigits(frac) && |whole| + |frac| > 0 then
      var magnitude := DigitsValue(whole) as real + DigitsValue(frac) as real / Pow10(|frac|) as real;
      Some(if neg then -magnitude else magnitude)
    else
      None
  }

  /** `float(v)`; `None` where Python raises `TypeError` or `ValueError`. */
  function ToFloat(v: Value): Option<real> {
    match v
    case VBool(b) => Some(if b then 1.0 else 0.0)
    case VInt(i) => Some(i as real)
    case VFloat(r) => Some(r)
    case VStr(s) => ParseNumber(s)
    case _ => None
  }

  // --------------------------------------------------------- _clamp_score

  /** `_clamp_score`: the nearest point of [0, 1] to `float(v)`, and 0.0 when
      `float(v)` raises. */
  function ClampScore(v: Value): (r: real)
    ensures 0.0 <= r <= 1.0
    ensures ToFloat(v).None? ==> r == 0.0
    ensures ToFloat(v).Some? && 0.0 <= ToFloat(v).value <= 1.0 ==> r == ToFloat(v).value
    ensures ToFloat(v).Some? && ToFloat(v).value < 0.0 ==> r == 0.0
    ensures ToFloat(v).Some? && ToFloat(v).value > 1.0 ==> r == 1.0
  {
    match ToFloat(v)
    case None => 0.0
    case Some(x) => if x < 0.0 then 0.0 else if x > 1.0 then 1.0 else x
  }

  /** Clamping a clamped score changes nothing. */
  lemma ClampScoreIdempotent(v: Value)
    ensures ClampScore(VFloat(ClampScore(v))) == ClampScore(v)
  {
  }

  lemma ClampScoreExamples()
    ensures ClampScore(VInt(-1)) == 0.0
    ensures ClampScore(VInt(2)) == 1.0
    ensures ClampScore(VNone) == 0.0
    ensures ClampScore(VList([])) == 0.0
    ensures ClampScore(VFloat(0.42)) == 0.42
  {
  }

  // --------------------------------------------------------- _coerce_bool

  /** `_coerce_bool`: booleans pass through, numbers are true iff non-zero,
      strings are true iff stripped and lower-cased they are "true", "1" or
      "yes", and everything else is false. */
  function CoerceBool(v: Value): (r: bool)
    ensures v.VBool? ==> r == v.b
    ensures v.VInt? ==> r == (v.i != 0)
    ensures v.VFloat? ==> r == (v.r != 0.0)
    ensures v.VStr? ==> r == (Lower(Strip(v.s)) in {"true", "1", "yes"})
    ensures v.VNone? || v.VList? || v.VDict? ==> !r
  {
    match v
    case VBool(b) => b
    case VInt(i) => i != 0
    case VFloat(x) => x != 0.0
    case VStr(s) => Lower(Strip(s)) in {"true", "1", "yes"}
    case _ => false
  }

  // ---------------------------------------------------------------- bool()

  /** Python truthiness, `bool(v)`. */
  function Truthy(v: Value): bool {
    match v
    case VNone => false
    case VBool(b) => b
    case VInt(i) => i != 0
    case VFloat(x) => x != 0.0
    case VStr(s) => s != ""
    case VList(items) => items != []
    case VDict(fields) => fields != map[]
  }

  // ----------------------------------------------------------------- str()

  function DigitChar(d: nat): char
    requires d < 10
  {
    ('0' as int + d) as char
  }

  function NatToString(n: nat): string
    decreases n
  {
    if n < 10 then [DigitChar(n)] else NatToString(n / 10) + [DigitChar(n % 10)]
  }

  function IntToString(i: int): string {
    if i < 0 then "-" + NatToString(-i) else NatToString(i)
  }

  /** `str(v)`. Strings, booleans, `None` and integers render as Python
      renders them; floats, lists and dictionaries render as a fixed tag. */
  function ToStr(v: Value): string {
    match v
    case VNone => "None"
    case VBool(b) => if b then "True" else "False"
    case VInt(i) => IntToString(i)
    case VFloat(_) => "<float>"
    case VStr(s) => s
    case VList(_) => "<list>"
    case VDict(_) => "<dict>"
  }
}
