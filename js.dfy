/** The JavaScript built-ins the core relies on, with their index rules written
    out: `slice` counts negative positions from the end, `substring` clamps and
    swaps its bounds, and a template literal prints a number in decimal. */
module Js {

  /** How `slice` turns one argument into a position: negative counts from
      the end, and the result is clamped to `0..len`. */
  function RelativeIndex(i: int, len: nat): (k: nat)
    ensures k <= len
    ensures 0 <= i <= len ==> k == i
    ensures -(len as int) <= i < 0 ==> k as int == len as int + i
  {
    if i < 0 then (if len + i < 0 then 0 else len + i)
    else if i > len then len
    else i
  }

  /** `Array.prototype.slice(start, end)`, and `String.prototype.slice`. */
  function Slice<T>(s: seq<T>, start: int, end: int): (r: seq<T>)
    ensures |r| <= |s|
  {
    var from := RelativeIndex(start, |s|);
    var to := RelativeIndex(end, |s|);
    if from < to then s[from..to] else []
  }

  /** `slice(start)` with the end left out. */
  function SliceFrom<T>(s: seq<T>, start: int): (r: seq<T>)
    ensures |r| <= |s|
  {
    Slice(s, start, |s|)
  }

  function Clamp(i: int, len: nat): (k: nat)
    ensures k <= len
  {
    if i < 0 then 0 else if i > len then len else i
  }

  /** `String.prototype.substring(start, end)`: both bounds clamped to the
      string, and swapped when given in the wrong order. */
  function Substring(s: string, start: int, end: int): (r: string)
    ensures |r| <= |s|
    ensures 0 <= start <= end ==> |r| <= end - start
  {
    var a := Clamp(start, |s|);
    var b := Clamp(end, |s|);
    if a <= b then s[a..b] else s[b..a]
  }

  function DigitChar(d: nat): (c: char)
    requires d < 10
    ensures '0' <= c <= '9'
  {
    "0123456789"[d]
  }

  /** The decimal text a template literal produces for a non-negative integer
      such as `Date.now()`. */
  function Decimal(n: nat): (r: string)
    ensures |r| >= 1
    ensures forall i :: 0 <= i < |r| ==> '0' <= r[i] <= '9'
  {
    if n < 10 then [DigitChar(n)] else Decimal(n / 10) + [DigitChar(n % 10)]
  }
}
