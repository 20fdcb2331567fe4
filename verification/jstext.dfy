/** The two JavaScript string primitives the compatibility rules are written
    with: `parseInt` (base ten, no leading white space or sign) and
    `slice` with a negative bound. */
module JsText {
  import opened Wrappers

  predicate IsDigit(ch: char)
  {
    '0' <= ch <= '9'
  }

  predicate AllDigits(s: string)
  {
    forall i :: 0 <= i < |s| ==> IsDigit(s[i])
  }

  /** The longest prefix of `s` made of decimal digits. */
  function LeadingDigits(s: string): (ds: string)
    ensures ds <= s && AllDigits(ds)
    ensures |ds| < |s| ==> !IsDigit(s[|ds|])
  {
    if |s| == 0 || !IsDigit(s[0]) then [] else [s[0]] + LeadingDigits(s[1..])
  }

  function DigitsValue(ds: string): nat
    requires AllDigits(ds)
  {
    if |ds| == 0 then 0
    else DigitsValue(ds[..|ds| - 1]) * 10 + (ds[|ds| - 1] as int - '0' as int)
  }

  /** `parseInt(s)`: the value of the leading digits, or NaN (None) when
      `s` does not start with a digit. */
  function ParseInt(s: string): (r: Option<nat>)
    ensures r.None? <==> |s| == 0 || !IsDigit(s[0])
  {
    var ds := LeadingDigits(s);
    if |ds| == 0 then None else Some(DigitsValue(ds))
  }

  /** `s.slice(0, -1)`: everything but the last character. */
  function SliceButLast(s: string): (r: string)
    ensures |s| > 0 ==> r + [s[|s| - 1]] == s
    ensures |s| == 0 ==> r == []
  {
    if |s| == 0 then [] else s[..|s| - 1]
  }

  /** `s.slice(-1)`: the last character, or "" for the empty string. */
  function SliceLast(s: string): (r: string)
    ensures |s| > 0 ==> r == [s[|s| - 1]] && SliceButLast(s) + r == s
    ensures |s| == 0 ==> r == []
  {
    if |s| == 0 then [] else s[|s| - 1..]
  }
}
