/** Camelot wheel positions: twelve numbered positions, each with a minor
    ("A") and a major ("B") key, written as strings such as "8A" or "12B". */
module Camelot {
  import opened Wrappers

  /** The inner ring (A) holds the minor keys, the outer ring (B) the major keys. */
  datatype Mode = A | B

  type Position = n: int | 1 <= n <= 12 witness 1

  /** One of the 24 wheel codes. */
  datatype Code = Code(n: Position, m: Mode)

  function Letter(m: Mode): char
  {
    match m
    case A => 'A'
    case B => 'B'
  }

  function DigitChar(d: int): char
    requires 0 <= d <= 9
  {
    (('0' as int) + d) as char
  }

  /** Decimal spelling of a wheel position, without leading zeros. */
  function Numeral(n: Position): string
  {
    if n < 10 then [DigitChar(n)] else ['1', DigitChar(n - 10)]
  }

  /** The code as the application writes it: the number followed by the letter. */
  function Format(c: Code): string
  {
    Numeral(c.n) + [Letter(c.m)]
  }

  function ModeOf(ch: char): Option<Mode>
  {
    if ch == 'A' then Some(A) else if ch == 'B' then Some(B) else None
  }

  /** Reads a well-formed code string, one matching `(1[0-2]|[1-9])[AB]`;
      every other string is rejected. */
  function ParseCode(s: string): (r: Option<Code>)
    ensures r.Some? ==> 2 <= |s| <= 3 && s[|s| - 1] in {'A', 'B'}
  {
    if |s| == 2 && '1' <= s[0] <= '9' && ModeOf(s[1]).Some? then
      Some(Code(s[0] as int - '0' as int, ModeOf(s[1]).value))
    else if |s| == 3 && s[0] == '1' && '0' <= s[1] <= '2' && ModeOf(s[2]).Some? then
      Some(Code(10 + (s[1] as int - '0' as int), ModeOf(s[2]).value))
    else
      None
  }

  /** Every code is well formed: reading its spelling gives it back. */
  lemma ParseFormat(c: Code)
    ensures ParseCode(Format(c)) == Some(c)
  {
    var s := Format(c);
    if c.n < 10 {
      assert s == [DigitChar(c.n), Letter(c.m)];
    } else {
      assert s == ['1', DigitChar(c.n - 10), Letter(c.m)];
    }
  }

  /** Each well-formed string is the spelling of the code read from it, so
      the 24 strings and the 24 codes correspond one to one. */
  lemma FormatParse(s: string)
    ensures ParseCode(s).Some? ==> Format(ParseCode(s).value) == s
  {
    if ParseCode(s).Some? {
      var c := ParseCode(s).value;
      if |s| == 2 {
        assert Format(c) == [DigitChar(c.n), Letter(c.m)];
      } else {
        assert Format(c) == ['1', DigitChar(c.n - 10), Letter(c.m)];
      }
    }
  }

  /** Different codes have different spellings. */
  lemma FormatInjective(c: Code, d: Code)
    ensures Format(c) == Format(d) ==> c == d
  {
    ParseFormat(c);
    ParseFormat(d);
  }
}
