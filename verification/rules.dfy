/** The four Camelot compatibility rules and the single category shown for
    a realised transition. The rules are stated on codes; the application
    writes them on code strings with `parseInt` and `slice`, and the
    `...Text` versions below model that form and are proved to agree with
    the code form on every pair of codes. */
module Rules {
  import opened Wrappers
  import opened Camelot
  import opened JsText

  function Abs(x: int): nat
  {
    if x < 0 then -x else x
  }

  /** Same code, relative major/minor, or neighbouring numbers on the same
      ring. The neighbour clause does not wrap from 12 to 1. */
  predicate IsPerfect(from: Code, to: Code)
  {
    || from == to
    || (from.n == to.n && from != to)
    || (Abs(from.n - to.n) == 1 && from.m == to.m)
  }

  /** One step clockwise on the same ring, wrapping from 12 to 1. */
  predicate IsEnergyBoost(from: Code, to: Code)
  {
    to.n == from.n % 12 + 1 && from.m == to.m
  }

  /** One step counter-clockwise on the same ring, wrapping from 1 to 12. */
  predicate IsEnergyDrop(from: Code, to: Code)
  {
    to.n == (if from.n == 1 then 12 else from.n - 1) && from.m == to.m
  }

  /** Same number, other ring. */
  predicate IsMoodChange(from: Code, to: Code)
  {
    from.n == to.n && from.m != to.m
  }

  // The rules as the application writes them, on arbitrary strings.

  predicate PerfectText(from: string, to: string)
  {
    || from == to
    || (SliceButLast(from) == SliceButLast(to) && from != to)
    || (match (ParseInt(from), ParseInt(to))
        case (Some(x), Some(y)) => Abs(x as int - y as int) == 1 && SliceLast(from) == SliceLast(to)
        case _ => false)
  }

  predicate EnergyBoostText(from: string, to: string)
  {
    match (ParseInt(from), ParseInt(to))
    case (Some(x), Some(y)) => y == x % 12 + 1 && SliceLast(from) == SliceLast(to)
    case _ => false
  }

  predicate EnergyDropText(from: string, to: string)
  {
    match (ParseInt(from), ParseInt(to))
    case (Some(x), Some(y)) => y as int == (if x == 1 then 12 else x as int - 1) && SliceLast(from) == SliceLast(to)
    case _ => false
  }

  predicate MoodChangeText(from: string, to: string)
  {
    SliceButLast(from) == SliceButLast(to) && SliceLast(from) != SliceLast(to)
  }

  /** Taking a code string apart with `slice` and `parseInt` recovers its
      number and its letter. */
  lemma {:induction false} FormatParts(c: Code)
    ensures SliceButLast(Format(c)) == Numeral(c.n)
    ensures SliceLast(Format(c)) == [Letter(c.m)]
    ensures ParseInt(Format(c)) == Some(c.n as nat)
  {
    var s := Format(c);
    assert s[..|s| - 1] == Numeral(c.n);
    if c.n < 10 {
      assert s == [DigitChar(c.n), Letter(c.m)];
      assert LeadingDigits(s[1..]) == [];
      assert LeadingDigits(s) == [DigitChar(c.n)];
      assert [DigitChar(c.n)][..0] == [];
      assert DigitsValue([DigitChar(c.n)]) == DigitsValue([]) * 10 + c.n;
    } else {
      var d := DigitChar(c.n - 10);
      assert s == ['1', d, Letter(c.m)];
      assert s[1..][1..] == [Letter(c.m)];
      assert LeadingDigits(s[1..][1..]) == [];
      assert LeadingDigits(s[1..]) == [d];
      assert LeadingDigits(s) == ['1', d];
      assert ['1', d][..1] == ['1'];
      assert ['1'][..0] == [];
      assert DigitsValue(['1']) == 1;
      assert DigitsValue(['1', d]) == DigitsValue(['1']) * 10 + (c.n - 10);
    }
  }

  lemma NumeralInjective(x: Position, y: Position)
    ensures Numeral(x) == Numeral(y) ==> x == y
  {
    if Numeral(x) == Numeral(y) {
      assert |Numeral(x)| == |Numeral(y)|;
      assert Numeral(x)[|Numeral(x)| - 1] == Numeral(y)[|Numeral(y)| - 1];
    }
  }

  /** On well-formed code strings the string rules decide exactly what the
      code rules decide, for all 24 x 24 pairs. */
  lemma {:induction false} TextRulesAgree(from: Code, to: Code)
    ensures PerfectText(Format(from), Format(to)) == IsPerfect(from, to)
    ensures EnergyBoostText(Format(from), Format(to)) == IsEnergyBoost(from, to)
    ensures EnergyDropText(Format(from), Format(to)) == IsEnergyDrop(from, to)
    ensures MoodChangeText(Format(from), Format(to)) == IsMoodChange(from, to)
  {
    FormatParts(from);
    FormatParts(to);
    NumeralInjective(from.n, to.n);
    FormatInjective(from, to);
    assert [Letter(from.m)] == [Letter(to.m)] <==> from.m == to.m;
  }

  /** The perfect rule is reflexive and symmetric, and does not wrap. */
  lemma PerfectReflexiveSymmetric(a: Code, b: Code)
    ensures IsPerfect(a, a)
    ensures IsPerfect(a, b) <==> IsPerfect(b, a)
    ensures !IsPerfect(Code(12, a.m), Code(1, a.m))
  {
  }

  /** Boosting from one code to another is dropping back from the second to
      the first; the wrap pairs 12 with 1 on each ring. */
  lemma BoostDropInverse(a: Code, b: Code)
    ensures IsEnergyBoost(a, b) <==> IsEnergyDrop(b, a)
    ensures IsEnergyBoost(Code(12, a.m), Code(1, a.m))
    ensures IsEnergyDrop(Code(1, a.m), Code(12, a.m))
  {
  }

  /** Every mood change is already a perfect match (the relative key). */
  lemma MoodImpliesPerfect(a: Code, b: Code)
    ensures IsMoodChange(a, b) ==> IsPerfect(a, b)
  {
  }

  /** The category of a realised transition; the opening entry of a mix
      carries `OpeningTrack`, which no pair of codes produces. */
  datatype Category =
    | OpeningTrack
    | PerfectMatch
    | EnergyBoost
    | EnergyDrop
    | MoodChange
    | ChallengingTransition

  function Label(c: Category): string
  {
    match c
    case OpeningTrack => "Opening Track"
    case PerfectMatch => "Perfect Match"
    case EnergyBoost => "Energy Boost"
    case EnergyDrop => "Energy Drop"
    case MoodChange => "Mood Change"
    case ChallengingTransition => "Challenging Transition"
  }

  /** The first rule that holds, in the order perfect, boost, drop, mood.
      Because a mood change is always perfect, `MoodChange` never comes out,
      and boost and drop come out only across the 12/1 wrap. */
  function TransitionType(from: Code, to: Code): (c: Category)
    ensures c != OpeningTrack && c != MoodChange
    ensures c == PerfectMatch <==>
              from.n == to.n || (from.m == to.m && Abs(from.n - to.n) == 1)
    ensures c == EnergyBoost <==> from.m == to.m && from.n == 12 && to.n == 1
    ensures c == EnergyDrop <==> from.m == to.m && from.n == 1 && to.n == 12
    ensures c == ChallengingTransition <==>
              from.n != to.n && (from.m != to.m || (Abs(from.n - to.n) != 1 && Abs(from.n - to.n) != 11))
  {
    if IsPerfect(from, to) then PerfectMatch
    else if IsEnergyBoost(from, to) then EnergyBoost
    else if IsEnergyDrop(from, to) then EnergyDrop
    else if IsMoodChange(from, to) then MoodChange
    else ChallengingTransition
  }

  /** The displayed labels are pairwise distinct. */
  lemma LabelInjective(c: Category, d: Category)
    ensures Label(c) == Label(d) ==> c == d
  {
  }
}
