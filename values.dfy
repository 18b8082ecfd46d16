/**
 * Python values as the plugin sees them: the scalars stored in its settings
 * and in JSON request bodies, device records (dicts), Python's `str()` of
 * those scalars, and the host's settings store.
 */
module Values {

  datatype Option<+T> = None | Some(value: T)

  /** A scalar Python value: None, a bool, an int or a str. */
  datatype Value = VNone | VBool(b: bool) | VInt(i: int) | VStr(s: string)

  /** A Python dict with string keys, such as one entry of `selected_devices`. */
  type Record = map<string, Value>

  /** Python truthiness (`if v:`) of a scalar. */
  predicate Truthy(v: Value)
  {
    match v
    case VNone => false
    case VBool(b) => b
    case VInt(i) => i != 0
    case VStr(s) => s != ""
  }

  /** Python's `v or default`. */
  function Or(v: Value, default: Value): Value
  {
    if Truthy(v) then v else default
  }

  /** Python's `key in d and d[key]`, the way the plugin reads optional flags. */
  predicate FlagSet(d: Record, key: string)
  {
    key in d && Truthy(d[key])
  }

  /** The scalars that Python's `int(...)` accepts in this model. */
  predicate IntLike(v: Value)
  {
    v.VInt? || v.VBool?
  }

  /** Python's `int(v)` on an int or a bool. */
  function AsInt(v: Value): int
    requires IntLike(v)
  {
    if v.VInt? then v.i else if v.b then 1 else 0
  }

  /** `int(d[key])` can be evaluated without raising. */
  predicate IntField(d: Record, key: string)
  {
    key in d && IntLike(d[key])
  }

  // ---------------------------------------------------------------------
  // Decimal rendering, as Python's `str()` does it
  // ---------------------------------------------------------------------

  predicate IsDigit(c: char)
  {
    '0' <= c <= '9'
  }

  function DigitChar(d: nat): (c: char)
    requires d < 10
    ensures IsDigit(c) && (c as int) - ('0' as int) == d
  {
    (('0' as int) + d) as char
  }

  /** `str(n)` for a natural number. */
  function NatToString(n: nat): string
    decreases n
  {
    if n < 10 then [DigitChar(n)] else NatToString(n / 10) + [DigitChar(n % 10)]
  }

  /** `str(i)` for an int. */
  function IntToString(i: int): string
  {
    if i < 0 then "-" + NatToString(-i) else NatToString(i)
  }

  /** `str(v)` for a scalar. */
  function Str(v: Value): string
  {
    match v
    case VNone => "None"
    case VBool(b) => if b then "True" else "False"
    case VInt(i) => IntToString(i)
    case VStr(s) => s
  }

  /** The number a non-empty string of decimal digits denotes. */
  function DigitsValue(s: string): nat
    requires forall k :: 0 <= k < |s| ==> IsDigit(s[k])
  {
    if s == [] then 0
    else DigitsValue(s[..|s| - 1]) * 10 + DigitOf(s[|s| - 1])
  }

  function DigitOf(c: char): nat
    requires IsDigit(c)
  {
    (c as int) - ('0' as int)
  }

  /** Reading back the digits of `str(n)` gives `n`. */
  lemma {:induction false} NatToStringRoundTrip(n: nat)
    ensures |NatToString(n)| > 0
    ensures forall k :: 0 <= k < |NatToString(n)| ==> IsDigit(NatToString(n)[k])
    ensures DigitsValue(NatToString(n)) == n
    decreases n
  {
    if n >= 10 {
      NatToStringRoundTrip(n / 10);
      var s := NatToString(n);
      assert s == NatToString(n / 10) + [DigitChar(n % 10)];
      assert s[..|s| - 1] == NatToString(n / 10);
    }
  }

  /** Distinct numbers have distinct decimal renderings. */
  lemma NatToStringInjective(m: nat, n: nat)
    ensures NatToString(m) == NatToString(n) ==> m == n
  {
    NatToStringRoundTrip(m);
    NatToStringRoundTrip(n);
  }

  // ---------------------------------------------------------------------
  // The host's settings store
  // ---------------------------------------------------------------------

  /** The value stored under a scalar settings key, None when it was never set. */
  function Setting(values: map<string, Value>, key: string): Value
  {
    if key in values then values[key] else VNone
  }

  /**
   * The defaults the plugin declares for its scalar settings: empty
   * credentials, status and error message, and config version 1.
   */
  function DefaultValues(): map<string, Value>
  {
    map["identity" := VStr(""), "gateway_ip" := VStr(""), "psk" := VStr(""),
        "status" := VStr(""), "error_message" := VStr(""),
        "config_version_key" := VInt(1)]
  }

  /**
   * The plugin's persisted settings: scalar keys (`gateway_ip`, `psk`, the
   * pre-version-2 keys, ...), the two device lists, and a counter of calls to
   * `save()`.
   */
  class Settings {
    var values: map<string, Value>
    var selectedDevices: seq<Record>
    var devices: seq<Record>
    var saves: nat

    /** The defaults the plugin declares for its settings. */
    constructor Defaults()
      ensures values == DefaultValues()
      ensures selectedDevices == [] && devices == [] && saves == 0
    {
      values := DefaultValues();
      selectedDevices := [];
      devices := [];
      saves := 0;
    }

    /** `settings.get([key])` for a scalar key: None when it was never set. */
    function Get(key: string): Value
      reads this
    {
      Setting(values, key)
    }
  }
}
