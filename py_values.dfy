/**
 * The Python values that cross the boundary between the climate entity and
 * the device client: datapoint values, payload keys, snapshots, and the
 * built-in operations the adapter applies to them (truthiness, `int()` of a
 * float, `str()` of an index, division of a raw reading).
 */
module PyValues {

  datatype Option<+T> = None | Some(value: T)

  /** A raw datapoint value as the device reports or receives it. */
  datatype Value = BoolVal(b: bool) | IntVal(i: int) | StrVal(s: string)

  /** A payload key: `str(IDX_...)` gives a string key, a bare `IDX_...` an int key. */
  datatype Key = StrKey(s: string) | IntKey(n: int)

  /** The dict handed to `set_dps`. */
  type Payload = map<Key, Value>

  /** The device's last known datapoints, by datapoint index. */
  type Snapshot = map<nat, Value>

  /** `dps(index)`: the value held for a datapoint, or None when the device reported none. */
  function Get(dps: Snapshot, index: nat): (r: Option<Value>)
    ensures r.Some? <==> index in dps
    ensures r.Some? ==> r.value == dps[index]
  {
    if index in dps then Some(dps[index]) else None
  }

  /** Python truthiness of a datapoint value (None, False, 0 and "" are falsy). */
  predicate Truthy(v: Option<Value>): (r: bool)
    ensures r <==> v.Some? && v.value != BoolVal(false) && v.value != IntVal(0) && v.value != StrVal("")
  {
    match v
    case None => false
    case Some(BoolVal(b)) => b
    case Some(IntVal(i)) => i != 0
    case Some(StrVal(s)) => s != ""
  }

  /**
   * The number a value stands for in `value / 10.0`: an int as itself, a bool
   * as 0 or 1 (bool is a subtype of int in Python). A string or None makes the
   * division raise TypeError, which is None here.
   */
  function AsNumber(v: Option<Value>): (r: Option<int>)
    ensures r.Some? <==> v.Some? && !v.value.StrVal?
    ensures r.Some? && v.value.IntVal? ==> r.value == v.value.i
    ensures r.Some? && v.value.BoolVal? ==> r.value == (if v.value.b then 1 else 0)
  {
    match v
    case Some(IntVal(i)) => Some(i)
    case Some(BoolVal(b)) => Some(if b then 1 else 0)
    case _ => None
  }

  /** Python's `int(x)` on a number: truncation toward zero, not rounding. */
  function Truncate(x: real): (n: int)
    ensures 0.0 <= x ==> 0 <= n && n as real <= x < n as real + 1.0
    ensures x < 0.0 ==> n <= 0 && n as real - 1.0 < x <= n as real
  {
    if 0.0 <= x then x.Floor else -((-x).Floor)
  }

  function Digit(d: nat): (c: char)
    requires d < 10
    ensures '0' <= c <= '9'
    ensures c as int - '0' as int == d
  {
    "0123456789"[d]
  }

  /** The number a string of decimal digits denotes, read most significant digit first. */
  function DigitsValue(s: string): int {
    if s == [] then 0 else DigitsValue(s[..|s| - 1]) * 10 + (s[|s| - 1] as int - '0' as int)
  }

  /** Python's `str(n)` for a non-negative int: the decimal digits of n, no leading zero. */
  function DecimalString(n: nat): (s: string)
    ensures 0 < |s|
    ensures forall i :: 0 <= i < |s| ==> '0' <= s[i] <= '9'
    ensures 1 < |s| || 0 < n ==> s[0] != '0'
    ensures n < 10 <==> |s| == 1
  {
    if n < 10 then [Digit(n)] else DecimalString(n / 10) + [Digit(n % 10)]
  }

  /** `str(n)` spells n: its digits denote n in decimal. */
  lemma {:induction false} DecimalStringValue(n: nat)
    ensures DigitsValue(DecimalString(n)) == n
  {
    if 10 <= n {
      var front := DecimalString(n / 10);
      assert DecimalString(n)[..|front|] == front;
      DecimalStringValue(n / 10);
    }
  }
}
