/** The numbers of section 6 of RFC 8259, and what `parseNumber` makes of each of them. */
module JsonNumbers {
  import opened Text
  import opened Variant
  import opened Decimal
  import opened JsonParserSpec

  datatype ExponentSign = Unsigned | Minus | Plus

  datatype Exponent = NoExponent | Exponent(mark: char, sign: ExponentSign, digits: string) {

    ghost predicate Valid() {
      Exponent? ==> (mark == 'e' || mark == 'E') && digits != "" && AllDigits(digits)
    }

    function Spelling(): string {
      if NoExponent? then ""
      else [mark] + ((match sign case Unsigned => "" case Minus => "-" case Plus => "+") + digits)
    }

    predicate HasPlus() { Exponent? && sign == Plus }

    ghost function Scale(x: real): real
      requires Valid()
    {
      if NoExponent? then x else Scaled(x, DigitsValue(digits), sign == Minus)
    }
  }

  /** A number in its parts: sign, integer digits, fraction digits ("" for none) and exponent. */
  datatype Numeral = Numeral(negative: bool, whole: string, fraction: string, exponent: Exponent) {

    ghost predicate Valid() {
      && whole != "" && AllDigits(whole) && (whole[0] == '0' ==> whole == "0")
      && AllDigits(fraction)
      && exponent.Valid()
    }

    function Spelling(): string {
      (if negative then "-" else "") + (whole + (FractionPart() + exponent.Spelling()))
    }

    function FractionPart(): string {
      if fraction == "" then "" else "." + fraction
    }

    predicate Bare() { fraction == "" && exponent.NoExponent? }

    /** The number without its sign and exponent. */
    ghost function Magnitude(): real
      requires Valid()
    {
      if fraction == "" then DigitsValue(whole) as real
      else DigitsValue(whole) as real + FractionValue(fraction)
    }

    /** The number denoted. */
    ghost function Value(): real
      requires Valid()
    {
      Signed(exponent.Scale(Magnitude()), negative)
    }
  }

  /** `rest` does not go on with anything that could still belong to a number. */
  ghost predicate Ends(rest: string) {
    rest != "" && !IsDigit(rest[0]) && rest[0] !in ".eE"
  }

  lemma DigitsRead(digits: string, rest: string)
    requires AllDigits(digits) && rest != "" && !IsDigit(rest[0])
    ensures ParseDigits(digits + rest) == Parsed(digits, rest)
  {
    RunOfPrefix(digits, rest, IsDigit);
  }

  lemma IntReads(digits: string, rest: string)
    requires AllDigits(digits) && rest != "" && !IsDigit(rest[0])
    ensures ParseInt(digits + rest) == Parsed(DigitsValue(digits) as real, rest)
  {
    DigitsRead(digits, rest);
  }

  lemma PowerReads(digits: string, minus: bool, x: real, rest: string)
    requires AllDigits(digits) && rest != "" && !IsDigit(rest[0]) && (!minus ==> (digits + rest)[0] != '-')
    ensures ParsePower((if minus then "-" else "") + (digits + rest), x)
         == Parsed(Scaled(x, DigitsValue(digits), minus), rest)
  {
    IntReads(digits, rest);
    var s := (if minus then "-" else "") + (digits + rest);
    assert (if minus then s[1..] else s) == digits + rest;
  }

  lemma ExponentReads(e: Exponent, x: real, rest: string)
    requires e.Valid() && Ends(rest)
    ensures ParseExponent(e.Spelling() + rest, x)
         == if e.HasPlus() then Parsed(Scaled(x, 0, false), "+" + e.digits + rest) else Parsed(e.Scale(x), rest)
  {
    hide Scaled, DigitsValue, ParsePower, AllDigits;
    var s := e.Spelling() + rest;
    if e.NoExponent? {
      assert s == rest;
    } else {
      ExponentTail(e, rest);
      if e.sign == Plus {
        PlusReads(x, "+" + e.digits + rest);
      } else {
        DigitsStart(e.digits, rest);
        PowerReads(e.digits, e.sign == Minus, x, rest);
      }
    }
  }

  lemma ExponentTail(e: Exponent, rest: string)
    requires e.Exponent?
    ensures var s := e.Spelling() + rest;
            && s != "" && s[0] == e.mark
            && s[1..] == if e.sign == Plus then "+" + e.digits + rest
                  else (if e.sign == Minus then "-" else "") + (e.digits + rest)
  {}

  lemma DigitsStart(digits: string, rest: string)
    requires digits != "" && AllDigits(digits)
    ensures (digits + rest)[0] != '-'
  {}

  lemma PlusReads(x: real, rest: string)
    requires rest != "" && rest[0] == '+'
    ensures ParsePower(rest, x) == Parsed(Scaled(x, 0, false), rest)
  {
    assert DigitsValue("") == 0;
    hide Scaled, ParsePower;
    PowerReads("", false, x, rest);
    assert "" + ("" + rest) == rest;
  }

  /** A fraction part, or its absence, in front of any `rest` that does not look like one. */
  lemma FractionReads(n: Numeral, rest: string)
    requires n.Valid() && rest != "" && !IsDigit(rest[0]) && rest[0] != '.'
    ensures ParseFraction(n.FractionPart() + rest, DigitsValue(n.whole) as real) == Parsed(n.Magnitude(), rest)
  {
    hide Pow10, DigitsValue;
    var s := n.FractionPart() + rest;
    if n.fraction == "" {
      assert s == rest;
    } else {
      assert s[1..] == n.fraction + rest;
      DigitsRead(n.fraction, rest);
    }
  }

  /** The integer part: a lone zero, or a run of digits. */
  lemma WholeReads(n: Numeral, rest: string)
    requires n.Valid() && rest != "" && !IsDigit(rest[0])
    ensures var s := n.whole + rest;
            (if s[0] == '0' then Parsed(0.0, s[1..]) else ParseInt(s))
            == Parsed(DigitsValue(n.whole) as real, rest)
  {
    var s := n.whole + rest;
    if n.whole == "0" {
      assert s[1..] == rest;
      assert n.whole[..0] == "";
    } else {
      IntReads(n.whole, rest);
    }
  }

  /** What `parseNumber` leaves behind a numeral: a bare integer takes the white space after it along. */
  function After(n: Numeral, rest: string): string {
    if n.exponent.HasPlus() then "+" + n.exponent.digits + rest
    else if n.Bare() then Skip(rest)
    else rest
  }

  /** What `parseNumber` returns for a numeral: it drops the sign of a bare integer and stops at a `+`. */
  ghost function Reading(n: Numeral): real
    requires n.Valid()
  {
    if n.Bare() then n.Magnitude()
    else if n.exponent.HasPlus() then Signed(Scaled(n.Magnitude(), 0, false), n.negative)
    else n.Value()
  }

  lemma BareReads(n: Numeral, rest: string)
    requires n.Valid() && Ends(rest) && n.Bare()
    ensures ParseUnsigned(n.whole + rest, n.negative) == Parsed(Float(DigitsValue(n.whole) as real), Skip(rest))
  {
    WholeReads(n, rest);
  }

  lemma DecimalReads(n: Numeral, tail: string, rest: string, scaled: real)
    requires n.Valid() && !n.Bare() && tail != "" && !IsDigit(tail[0]) && tail[0] != '.'
    requires n.fraction == "" ==> tail[0] == 'e' || tail[0] == 'E'
    requires ParseExponent(tail, n.Magnitude()) == Parsed(scaled, rest)
    ensures ParseUnsigned(n.whole + (n.FractionPart() + tail), n.negative)
         == Parsed(Float(Signed(scaled, n.negative)), rest)
  {
    WholeReads(n, n.FractionPart() + tail);
    FractionReads(n, tail);
  }

  lemma UnsignedReads(n: Numeral, rest: string)
    requires n.Valid() && Ends(rest)
    ensures ParseUnsigned(n.whole + (n.FractionPart() + (n.exponent.Spelling() + rest)), n.negative)
         == Parsed(Float(Reading(n)), After(n, rest))
  {
    var tail := n.exponent.Spelling() + rest;
    if n.Bare() {
      assert n.FractionPart() + tail == rest;
      BareReads(n, rest);
    } else {
      assert tail[0] == if n.exponent.NoExponent? then rest[0] else n.exponent.mark;
      ExponentReads(n.exponent, n.Magnitude(), rest);
      DecimalReads(n, tail, After(n, rest), ParseExponent(tail, n.Magnitude()).value);
    }
  }

  lemma SignReads(s: string, negative: bool)
    requires s != "" && IsDigit(s[0])
    ensures ParseNumber((if negative then "-" else "") + s) == ParseUnsigned(s, negative)
  {
    hide ParseUnsigned, Skip;
    var signed := (if negative then "-" else "") + s;
    assert (if negative then signed[1..] else signed) == s;
    NoSpaceFirst(signed);
  }

  lemma NoSpaceFirst(s: string)
    requires s != "" && (IsDigit(s[0]) || s[0] == '-')
    ensures Skip(s) == s
  {}

  lemma NumberReads(n: Numeral, rest: string)
    requires n.Valid() && Ends(rest)
    ensures ParseNumber(n.Spelling() + rest) == Parsed(Float(Reading(n)), After(n, rest))
  {
    var sign := if n.negative then "-" else "";
    var s2 := n.whole + (n.FractionPart() + (n.exponent.Spelling() + rest));
    Regroup(sign, n.whole, n.FractionPart(), n.exponent.Spelling(), rest);
    SignReads(s2, n.negative);
    UnsignedReads(n, rest);
  }

  // ---- the number denoted

  /** The digits of the number without its decimal point, with its sign. */
  ghost function Digits(n: Numeral): real
    requires n.Valid()
  {
    DigitsConcat(n.whole, n.fraction);
    var d := DigitsValue(n.whole + n.fraction) as real;
    if n.negative then -d else d
  }

  /** `x` is the number spelled: its digits, the decimal point put back, times the power of ten. */
  ghost predicate Denotes(n: Numeral, x: real)
    requires n.Valid()
  {
    var point := TenTo(|n.fraction|) as real;
    match n.exponent
    case NoExponent => x * point == Digits(n)
    case Exponent(_, sign, digits) =>
      var power := TenTo(DigitsValue(digits)) as real;
      if sign == Minus then x * point * power == Digits(n) else x * point == Digits(n) * power
  }

  // The three shapes of Denotes, on numbers alone.

  ghost predicate Plain(x: real, point: real, d: real) { x * point == d }

  ghost predicate Down(x: real, point: real, power: real, d: real) { x * point * power == d }

  ghost predicate Up(x: real, point: real, power: real, d: real) { x * point == d * power }

  lemma DenotesIs(n: Numeral, x: real)
    requires n.Valid()
    ensures var point := TenTo(|n.fraction|) as real;
            Denotes(n, x) <==>
              match n.exponent
              case NoExponent => Plain(x, point, Digits(n))
              case Exponent(_, sign, digits) =>
                var power := TenTo(DigitsValue(digits)) as real;
                if sign == Minus then Down(x, point, power, Digits(n)) else Up(x, point, power, Digits(n))
  {
    hide Digits, TenTo, DigitsValue;
  }

  /** Every numeral denotes one number. */
  lemma ValueDenotes(n: Numeral, x: real)
    requires n.Valid()
    ensures Denotes(n, x) <==> x == n.Value()
  {
    hide *;
    DenotesIs(n, x);
    MagnitudeIs(n);
    ValueIs(n);
    var point, m, d := TenTo(|n.fraction|) as real, n.Magnitude(), Digits(n);
    Pow10Is(|n.fraction|);
    match n.exponent
    case NoExponent => PlainIff(m, point, d, n.negative, x);
    case Exponent(_, sign, digits) =>
      Pow10Is(DigitsValue(digits));
      var k := DigitsValue(digits);
      if sign == Minus {
        DownIff(m, point, TenTo(k) as real, k, d, n.negative, x);
      } else {
        UpIff(m, point, TenTo(k) as real, k, d, n.negative, x);
      }
  }

  lemma ValueIs(n: Numeral)
    requires n.Valid()
    ensures n.exponent.NoExponent? ==> n.Value() == Signed(n.Magnitude(), n.negative)
    ensures n.exponent.Exponent? ==> AllDigits(n.exponent.digits)
    ensures n.exponent.Exponent? ==>
              var k := DigitsValue(n.exponent.digits);
              n.Value() == Signed(Scaled(n.Magnitude(), k, n.exponent.sign == Minus), n.negative)
  {
    hide Scaled, Signed, DigitsValue, Numeral.Magnitude;
  }

  lemma ScaledUp(m: real, k: nat, power: real)
    requires power == Pow10(k)
    ensures Scaled(m, k, false) == m * power
  {}

  lemma ScaledDown(m: real, k: nat, power: real)
    requires power == Pow10(k)
    ensures power > 0.0 && Scaled(m, k, true) == m / power
  {}

  lemma Cancel(x: real, y: real, f: real)
    requires f > 0.0
    ensures x * f == y * f <==> x == y
  {
    if x * f == y * f {
      assert (x - y) * f == 0.0;
    }
  }

  lemma PlainIff(m: real, point: real, d: real, negative: bool, x: real)
    requires point > 0.0 && Plain(m, point, Signed(d, negative))
    ensures Plain(x, point, d) <==> x == Signed(m, negative)
  {
    Cancel(x, Signed(m, negative), point);
  }

  lemma DownIff(m: real, point: real, power: real, k: nat, d: real, negative: bool, x: real)
    requires point > 0.0 && power == Pow10(k) && Plain(m, point, Signed(d, negative))
    ensures Down(x, point, power, d) <==> x == Signed(Scaled(m, k, true), negative)
  {
    ScaledDown(m, k, power);
    hide Scaled, Pow10;
    var q := m / power;
    var y := Signed(q, negative);
    Divided(m, power);
    Swap(q, point, power);
    SignedTimes(q, negative, point);
    SignedTimes(q * point, negative, power);
    hide Signed;
    SignedTwice(d, negative);
    assert y * point * power == d;
    Cancel(x, y, point);
    Cancel(x * point, y * point, power);
  }

  lemma UpIff(m: real, point: real, power: real, k: nat, d: real, negative: bool, x: real)
    requires point > 0.0 && power == Pow10(k) && Plain(m, point, Signed(d, negative))
    ensures Up(x, point, power, d) <==> x == Signed(Scaled(m, k, false), negative)
  {
    ScaledUp(m, k, power);
    hide Scaled, Pow10;
    var signed := Signed(m, negative);
    SignedTimes(m, negative, point);
    SignedTimes(m, negative, power);
    SignedTwice(d, negative);
    hide Signed;
    UpCore(signed, point, power, d);
    Cancel(x, signed * power, point);
  }

  lemma UpCore(m: real, point: real, power: real, d: real)
    requires m * point == d
    ensures m * power * point == d * power
  {
    Swap(m, power, point);
    SameTimes(m * point, d, power);
  }

  lemma SameTimes(a: real, b: real, power: real)
    requires a == b
    ensures a * power == b * power
  {}

  lemma Divided(m: real, p: real)
    requires p > 0.0
    ensures m / p * p == m
  {}

  lemma Swap(q: real, f: real, p: real)
    ensures q * f * p == q * p * f
  {}

  lemma SignedTimes(q: real, negative: bool, f: real)
    ensures Signed(q, negative) * f == Signed(q * f, negative)
  {}

  lemma SignedTwice(d: real, negative: bool)
    ensures Signed(Signed(d, negative), negative) == d
  {}

  lemma MagnitudeIs(n: Numeral)
    requires n.Valid()
    ensures Plain(n.Magnitude(), TenTo(|n.fraction|) as real, Signed(Digits(n), n.negative))
  {
    hide *;
    MagnitudeParts(n);
    DigitsConcat(n.whole, n.fraction);
    Pow10Is(|n.fraction|);
    PlainSum(DigitsValue(n.whole), DigitsValue(n.fraction), TenTo(|n.fraction|));
  }

  lemma MagnitudeParts(n: Numeral)
    requires n.Valid()
    ensures AllDigits(n.whole) && AllDigits(n.fraction) && AllDigits(n.whole + n.fraction)
    ensures n.Magnitude() == DigitsValue(n.whole) as real + DigitsValue(n.fraction) as real / Pow10(|n.fraction|)
    ensures Signed(Digits(n), n.negative) == DigitsValue(n.whole + n.fraction) as real
  {
    if n.fraction == "" { NoDigits(); }
    hide DigitsValue, Pow10;
  }

  lemma PlainSum(w: nat, q: nat, f: nat)
    requires f > 0
    ensures Plain(w as real + q as real / f as real, f as real, (w * f + q) as real)
  {
    Divided(q as real, f as real);
  }

  /** The numeral that is read instead: a bare one without its sign, and one with a `+` without its exponent. */
  function ReadAs(n: Numeral): Numeral {
    if n.Bare() then n.(negative := false) else if n.exponent.HasPlus() then n.(exponent := NoExponent) else n
  }

  /** Every number of the grammar is read, as the number that this numeral denotes. */
  lemma NumberDenotes(n: Numeral, rest: string)
    requires n.Valid() && Ends(rest)
    ensures var p := ParseNumber(n.Spelling() + rest);
            p.Parsed? && p.value.Float? && Denotes(ReadAs(n), p.value.x) && p.rest == After(n, rest)
  {
    NumberReads(n, rest);
    ReadingIsReadAs(n);
    ValueDenotes(ReadAs(n), Reading(n));
    hide ParseNumber;
  }

  lemma ReadingIsReadAs(n: Numeral)
    requires n.Valid()
    ensures Reading(n) == ReadAs(n).Value()
  {
    assert Pow10(0) == 1.0;
    hide DigitsValue, FractionValue;
  }

  /** The number spelled was read, and `rest` is left. */
  ghost predicate ReadsRight(n: Numeral, p: Outcome<Variant>, rest: string)
    requires n.Valid()
  {
    p.Parsed? && p.value.Float? && Denotes(n, p.value.x) && p.rest == rest
  }

  /**
    `parseNumber` returns exactly the number denoted and stops right behind it (or, for a bare
    integer, behind the white space that follows) if and only if the exponent has no `+` and
    the numeral is not a bare negative integer other than -0.
   */
  lemma NumberReadsRightIff(n: Numeral, rest: string)
    requires n.Valid() && Ends(rest)
    ensures ReadsRight(n, ParseNumber(n.Spelling() + rest), if n.Bare() then Skip(rest) else rest)
       <==> !n.exponent.HasPlus() && !(n.Bare() && n.negative && DigitsValue(n.whole) != 0)
  {
    NumberReads(n, rest);
    ValueDenotes(n, Reading(n));
    hide ParseNumber, Denotes;
    if n.exponent.HasPlus() {
      assert |After(n, rest)| > |rest|;
    } else {
      ReadingIsValueIff(n);
    }
  }

  lemma ReadingIsValueIff(n: Numeral)
    requires n.Valid() && !n.exponent.HasPlus()
    ensures Reading(n) == n.Value() <==> !(n.Bare() && n.negative && DigitsValue(n.whole) != 0)
  {
    if n.Bare() {
      assert n.Value() == Signed(n.Magnitude(), n.negative);
    }
  }

  // ---- texts outside the grammar

  /** A zero in front of digits is a number by itself. */
  lemma LeadingZero(rest: string)
    requires rest != "" && IsDigit(rest[0])
    ensures ParseNumber("0" + rest) == Parsed(Float(0.0), rest)
  {
    NoSpaceFirst("0" + rest);
    NoSpaceFirst(rest);
    assert ("0" + rest)[1..] == rest;
  }

  /** A point with no digits behind it is passed over, and saves the sign of a bare number. */
  lemma PointAlone(n: Numeral, rest: string)
    requires n.Valid() && n.Bare() && Ends(rest)
    ensures ParseNumber((if n.negative then "-" else "") + (n.whole + ("." + rest))) == Parsed(Float(n.Value()), rest)
  {
    assert !IsDigit(("." + rest)[0]);
    hide *;
    StartsWithDigit(n, "." + rest);
    SignReads(n.whole + ("." + rest), n.negative);
    WholeReads(n, "." + rest);
    BareValue(n);
    PointPassed(n.whole + ("." + rest), DigitsValue(n.whole) as real, rest, n.negative);
  }

  lemma StartsWithDigit(n: Numeral, rest: string)
    requires n.Valid()
    ensures AllDigits(n.whole) && n.whole + rest != "" && IsDigit((n.whole + rest)[0])
  {}

  lemma PointPassed(s: string, number: real, rest: string, negative: bool)
    requires s != "" && IsDigit(s[0]) && Ends(rest)
    requires (if s[0] == '0' then Parsed(0.0, s[1..]) else ParseInt(s)) == Parsed(number, "." + rest)
    ensures ParseUnsigned(s, negative) == Parsed(Float(Signed(number, negative)), rest)
  {
    NothingBehindPoint(rest);
    hide ParseInt, ParseAfterInt, Skip;
    assert ("." + rest)[1..] == rest;
    assert number + 0.0 == number;
  }

  lemma BareValue(n: Numeral)
    requires n.Valid() && n.Bare()
    ensures n.Value() == Signed(DigitsValue(n.whole) as real, n.negative)
  {}

  lemma NothingBehindPoint(rest: string)
    requires rest != "" && !IsDigit(rest[0])
    ensures ParseAfterInt(rest) == Parsed(0.0, rest)
  {
    assert DigitsValue("") == 0 && rest[..0] == "" && rest[0..] == rest;
  }

  /** A number spelled with a minus sign, but with neither a fraction nor an exponent. */
  predicate BareNegative(text: string) {
    text != "" && text[0] == '-' && '.' !in text && 'e' !in text && 'E' !in text
  }

  lemma DigitsOnly(s: string)
    requires AllDigits(s)
    ensures '+' !in s && '.' !in s && 'e' !in s && 'E' !in s && '-' !in s
  {}

  /** What can be seen of a numeral in its spelling. */
  lemma SpellingShows(n: Numeral)
    requires n.Valid()
    ensures '+' in n.Spelling() <==> n.exponent.HasPlus()
    ensures BareNegative(n.Spelling()) <==> n.Bare() && n.negative
  {
    DigitsOnly(n.whole);
    DigitsOnly(n.fraction);
    if n.exponent.Exponent? { DigitsOnly(n.exponent.digits); }
    assert n.Spelling()[0] == if n.negative then '-' else n.whole[0];
    hide AllDigits;
    PartsShow(n, '+');
    PartsShow(n, '.');
    PartsShow(n, 'e');
    PartsShow(n, 'E');
  }

  /** A character that is neither a digit nor `-` stands in the fraction part or the exponent. */
  lemma PartsShow(n: Numeral, c: char)
    requires c != '-' && c !in n.whole && c !in n.fraction
    ensures c in n.Spelling() <==> (c == '.' && n.fraction != "") || c in n.exponent.Spelling()
  {
    assert c in n.FractionPart() <==> c == '.' && n.fraction != "";
  }

  /** Without a `+`, all that is lost of a number is the sign of a bare one. */
  lemma SignLost(n: Numeral)
    requires n.Valid() && !n.exponent.HasPlus()
    ensures Reading(n) == if n.Bare() && n.negative then -n.Value() else n.Value()
  {}

  /** The numeral an integer is written as. */
  function IntNumeral(n: int): (m: Numeral)
    ensures m.Valid() && m.Bare() && m.Spelling() == IntText(n)
    ensures Reading(m) == (if n < 0 then -n else n) as real
  {
    Numeral(n < 0, NatText(if n < 0 then -n else n), "", NoExponent)
  }
}
