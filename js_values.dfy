/** The loosely typed values the configuration is read from (environment variables and the
    `extra` block of the Expo configuration), and the coercions both configuration files
    apply to them: `toBoolean` / `parseBoolean` and `Number(...)` with its positivity check. */
module JsValues {
  import opened Wrappers
  import opened Text

  /** A JavaScript value as configuration can hold it. Numbers are integers here. */
  datatype Value = Undefined | Null | Bool(b: bool) | Str(s: string) | Num(n: int)

  /** JavaScript truthiness: `undefined`, `null`, `false`, '' and 0 are falsy. */
  predicate Truthy(v: Value) {
    match v
    case Undefined => false
    case Null => false
    case Bool(b) => b
    case Str(s) => s != ""
    case Num(n) => n != 0
  }

  /** An environment variable: a string, or `undefined` when unset. */
  function EnvValue(o: Option<string>): Value {
    if o.Some? then Str(o.value) else Undefined
  }

  /** `toBoolean(value, defaultValue)` in config/runtime.js, written identically as
      `parseBoolean` in app.config.js: a boolean passes through, a string whose trimmed,
      lower-cased form is 'true' or 'false' gives that, and anything else the default. */
  function ToBoolean(v: Value, default: bool): (r: bool)
    ensures v.Bool? ==> r == v.b
    ensures v.Str? && Lower(Trim(v.s)) == "true" ==> r
    ensures v.Str? && Lower(Trim(v.s)) == "false" ==> !r
    ensures !v.Bool? && !(v.Str? && Lower(Trim(v.s)) in {"true", "false"}) ==> r == default
  {
    match v
    case Bool(b) => b
    case Str(s) =>
      var normalized := Lower(Trim(s));
      if normalized == "true" then true
      else if normalized == "false" then false
      else default
    case _ => default
  }

  /** Example: letter case does not matter, "TRUE" is true. */
  lemma ToBooleanIgnoresCase()
    ensures ToBoolean(Str("TRUE"), false)
  {
    TrimOfTrimmed("TRUE");
    var t := Lower("TRUE");
    assert t[0] == 't' && t[1] == 'r' && t[2] == 'u' && t[3] == 'e';
    assert t == "true";
  }

  /** Example: letter case does not matter, "False" is false. */
  lemma ToBooleanIgnoresCaseFalse()
    ensures !ToBoolean(Str("False"), true)
  {
    TrimOfTrimmed("False");
    var f := Lower("False");
    assert f[0] == 'f' && f[1] == 'a' && f[2] == 'l' && f[3] == 's' && f[4] == 'e';
    assert f == "false";
  }

  /** Example: words other than 'true' and 'false', and missing values, give the default. */
  lemma ToBooleanDefaults()
    ensures ToBoolean(Str("yes"), true) && !ToBoolean(Str("yes"), false)
    ensures ToBoolean(Undefined, true) && !ToBoolean(Null, false)
  {
    TrimOfTrimmed("yes");
    var y := Lower("yes");
    assert y[0] == 'y' && y[1] == 'e' && y[2] == 's';
  }

  /** A boolean already decided by `parseBoolean` is passed through by `toBoolean` whatever
      its default: the second stage never overrides the first. */
  lemma ToBooleanStable(v: Value, first: bool, second: bool)
    ensures ToBoolean(Bool(ToBoolean(v, first)), second) == ToBoolean(v, first)
  {
  }

  /** Whether every character is a decimal digit. */
  predicate AllDigits(s: string) {
    forall i :: 0 <= i < |s| ==> IsDigit(s[i])
  }

  /** `Number(s)` on a trimmed, non-empty string: an optional sign and decimal digits; any
      other text is `NaN`, written `None`. */
  function DecimalValue(t: string): (r: Option<int>)
    ensures r.Some? <==> SignFree(t) != "" && AllDigits(SignFree(t))
  {
    var u := SignFree(t);
    if u == "" || !AllDigits(u) then None
    else if t[0] == '-' then Some(-(DigitsValue(u) as int))
    else Some(DigitsValue(u))
  }

  /** `Number(value)`, with `None` for `NaN` and for the infinities (which `Number.isFinite`
      rejects alike): `undefined` is `NaN`, `null` and the blank string 0, a boolean 0 or 1. */
  function NumberOf(v: Value): Option<int> {
    match v
    case Undefined => None
    case Null => Some(0)
    case Bool(b) => Some(if b then 1 else 0)
    case Num(n) => Some(n)
    case Str(s) => if Trim(s) == "" then Some(0) else DecimalValue(Trim(s))
  }

  /** `toNumber(value, defaultValue)` in config/runtime.js, and `parseTimeout` in
      app.config.js: the number when it is finite and positive, the default otherwise. */
  function ToNumber(v: Value, default: int): (r: int)
    ensures r == default || (NumberOf(v) == Some(r) && r > 0)
    ensures (NumberOf(v).Some? && NumberOf(v).value > 0) ==> r == NumberOf(v).value
    ensures default > 0 ==> r > 0
  {
    var parsed := NumberOf(v);
    if parsed.Some? && parsed.value > 0 then parsed.value else default
  }

  /** The decimal text of a positive number reads back as that number, so a timeout set
      as `REQUEST_TIMEOUT_MS=<n>` is `n`. */
  lemma ToNumberOfDecimal(n: nat, default: int)
    requires n > 0
    ensures ToNumber(Str(NatToString(n)), default) == n
  {
    var s := NatToString(n);
    assert !IsSpace(s[0]) && !IsSpace(s[|s| - 1]);
    TrimOfTrimmed(s);
    assert SignFree(s) == s;
    NatToStringValue(n);
  }

  /** What `parseTimeout` produced is kept by `toNumber`: a positive number is its own
      value. */
  lemma ToNumberStable(v: Value, first: int, second: int)
    requires first > 0
    ensures ToNumber(Num(ToNumber(v, first)), second) == ToNumber(v, first)
  {
  }
}
