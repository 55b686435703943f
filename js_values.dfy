/** The few JavaScript notions the snippet engine depends on: the values that
    cross the boundary to user scripts, the conversion `String(v)`,
    `String.prototype.substring` with its clamping, and a promise that settles
    at most once. */
module JsValues {

  datatype Option<T> = None | Some(value: T)

  /** A JavaScript value. `Obj` stands for any other object (an `Error`, an
      array, a plain object) and carries the text `String(v)` yields for it. */
  datatype Value =
    | Str(s: string)
    | Num(n: int)
    | Bool(b: bool)
    | Undefined
    | Null
    | Obj(text: string)

  function DigitChar(d: nat): (c: char)
    requires d < 10
    ensures '0' <= c <= '9'
  {
    "0123456789"[d]
  }

  /** Decimal notation of a natural number, as `String(n)` writes it. */
  function NatToDecimal(n: nat): (r: string)
    ensures |r| >= 1
    ensures forall i :: 0 <= i < |r| ==> '0' <= r[i] <= '9'
    ensures n >= 10 ==> r[0] != '0'
    decreases n
  {
    if n < 10 then [DigitChar(n)] else NatToDecimal(n / 10) + [DigitChar(n % 10)]
  }

  /** `String(v)`, which is also what `'' + v` and a template literal give. */
  function ToJsString(v: Value): string {
    match v
    case Str(s) => s
    case Num(n) => if n < 0 then "-" + NatToDecimal(-n) else NatToDecimal(n)
    case Bool(b) => if b then "true" else "false"
    case Undefined => "undefined"
    case Null => "null"
    case Obj(text) => text
  }

  function Clamp(x: int, len: nat): (r: nat)
    ensures r <= len
    ensures 0 <= x <= len ==> r == x
  {
    if x < 0 then 0 else if x > len then len else x
  }

  /** `s.substring(start, end)`: both indices are clamped to `[0, |s|]` and
      swapped when the first is the larger. */
  function Substring(s: string, start: int, end: int): (r: string)
    ensures 0 <= start <= end <= |s| ==> r == s[start..end]
    ensures |r| <= |s|
    ensures exists i, j :: 0 <= i <= j <= |s| && r == s[i..j]
  {
    var a := Clamp(start, |s|);
    var b := Clamp(end, |s|);
    if a <= b then s[a..b] else s[b..a]
  }

  /** The state of a promise: once settled it never changes. */
  datatype Settlement = Pending | Fulfilled(value: Value) | Rejected(reason: Value)

  /** `resolve(v)`: has an effect only while the promise is pending. */
  function Resolve(p: Settlement, v: Value): Settlement {
    if p.Pending? then Fulfilled(v) else p
  }

  /** `reject(reason)`: has an effect only while the promise is pending. */
  function Reject(p: Settlement, reason: Value): Settlement {
    if p.Pending? then Rejected(reason) else p
  }
}
