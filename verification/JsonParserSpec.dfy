/** What json_parser computes, as functions on the text the cursor stands at. */
module JsonParserSpec {
  import opened Text
  import opened Variant
  import opened Decimal

  /** `OutOfRange` is the exception `string_view::at` throws; `Spins` is a scan that never ends. */
  datatype Fault = OutOfRange | Spins

  /** The value a parse function returns and the text its cursor is left at. */
  datatype Outcome<+T> = Parsed(value: T, rest: string) | Failed(fault: Fault) {
    predicate IsFailure() { Failed? }

    function PropagateFailure<U>(): Outcome<U>
      requires Failed?
    {
      Failed(fault)
    }

    function Extract(): (T, string)
      requires Parsed?
    {
      (value, rest)
    }
  }

  /** `input.at(0)`. */
  function At0(s: string): (p: Outcome<char>)
    ensures p.Parsed? ==> s != "" && p.value == s[0] && p.rest == s
    ensures s != "" ==> p.Parsed?
  {
    if s == "" then Failed(OutOfRange) else Parsed(s[0], s)
  }

  function Parse(s: string): Outcome<Variant> {
    var (c, s1) :- At0(Skip(s));
    if c == '{' then
      var (m, r) :- ParseObject(s1);
      if Skip(r) == "" then Parsed(Map(m), "") else Parsed(Invalid, Skip(r))
    else if c == '[' then
      var (xs, r) :- ParseArray(s1);
      if Skip(r) == "" then Parsed(List(xs), "") else Parsed(Invalid, Skip(r))
    else
      Parsed(Invalid, s1)
  }

  function ParseObject(s: string): (p: Outcome<map<string, Variant>>)
    ensures p.Parsed? ==> |p.rest| <= |Skip(s)|
    ensures p.Parsed? && Skip(s) != "" && Skip(s)[0] == '{' ==> |p.rest| < |Skip(s)|
    decreases |s|, 1
  {
    var (c, s1) :- At0(Skip(s));
    if c != '{' then Parsed(map[], s1) else
      var (c2, s2) :- At0(Skip(s1[1..]));
      if c2 == '}' then Parsed(map[], s2[1..])
      else if c2 != '"' then Parsed(map[], s2)
      else ParseMembers(s2, map[])
  }

  /** The loop of `parseObject`, entered with the members read so far. */
  function ParseMembers(s: string, members: map<string, Variant>): (p: Outcome<map<string, Variant>>)
    ensures p.Parsed? ==> |p.rest| <= |s|
    decreases |s|, 3
  {
    var (c, _) :- At0(s);
    if c == '}' then Parsed(members, Skip(s[1..]))
    else if c == '"' then
      var (key, s1) :- ParseString(s);
      if key.Invalid? then Parsed(map[], s1) else
        var (colon, s2) :- At0(Skip(s1));
        if colon != ':' then Parsed(map[], s2) else
          var (value, s3) :- ParseValue(Skip(s2[1..]));
          ParseMembers(Skip(s3), members[key.s := value])
    else if c == ',' then ParseMembers(Skip(s[1..]), members)
    else Parsed(map[], s)
  }

  function ParseArray(s: string): (p: Outcome<seq<Variant>>)
    ensures p.Parsed? ==> |p.rest| <= |Skip(s)|
    ensures p.Parsed? && Skip(s) != "" && Skip(s)[0] == '[' ==> |p.rest| < |Skip(s)|
    decreases |s|, 1
  {
    var (c, s1) :- At0(Skip(s));
    if c != '[' then Parsed([], s1) else ParseElements(s1[1..], [])
  }

  /** The loop of `parseArray`, entered with the elements read so far. */
  function ParseElements(s: string, elements: seq<Variant>): (p: Outcome<seq<Variant>>)
    ensures p.Parsed? ==> |p.rest| <= |s|
    decreases |s|, 3
  {
    var (c, _) :- At0(s);
    if c == ']' then Parsed(elements, Skip(s[1..])) else
      var (element, s1) :- ParseValue(Skip(s));
      if element.Invalid? then Parsed([], s1) else
        var (c1, _) :- At0(s1);
        ParseElements(Skip(if c1 == ',' then s1[1..] else s1), elements + [element])
  }

  function ParseValue(s: string): (p: Outcome<Variant>)
    ensures p.Parsed? ==> |p.rest| <= |s|
    ensures p.Parsed? && p.value != Invalid ==> |p.rest| < |s|
    decreases |s|, 2
  {
    var (c, s1) :- At0(Skip(s));
    var (v, r) :-
      if c == '"' then ParseString(s1)
      else if IsDigit(c) || c == '-' then ParseNumber(s1)
      else if c == '{' then
        var (m, r) :- ParseObject(s1); Parsed(Map(m), r)
      else if c == '[' then
        var (xs, r) :- ParseArray(s1); Parsed(List(xs), r)
      else ParseLiteral(s1);
    Parsed(v, Skip(r))
  }

  function ParseString(s: string): (p: Outcome<Variant>)
    ensures p.Parsed? ==> |p.rest| <= |s| && (p.value.Invalid? || p.value.Str?)
    ensures p.Parsed? && p.value != Invalid ==> |p.rest| < |s|
  {
    var (c, s1) :- At0(Skip(s));
    if c != '"' then Parsed(Invalid, s1) else
      var body := s1[1..];
      var size := IndexOf(body, '"');
      if size == |body| then Parsed(Invalid, body)
      else if size > 0 && body[size - 1] == '\\' then Failed(Spins)
      else Parsed(Str(body[..size]), Skip(body[size + 1..]))
  }

  function ParseNumber(s: string): (p: Outcome<Variant>)
    ensures p != Failed(Spins)
    ensures p.Parsed? ==> |p.rest| <= |s|
    ensures p.Parsed? && p.value != Invalid ==> |p.rest| < |s|
  {
    var (c, s1) :- At0(Skip(s));
    ParseUnsigned(if c == '-' then s1[1..] else s1, c == '-')
  }

  /** The rest of `parseNumber`, once the sign is removed. */
  function ParseUnsigned(s: string, negative: bool): (p: Outcome<Variant>)
    ensures p != Failed(Spins)
    ensures p.Parsed? ==> |p.rest| <= |s|
    ensures p.Parsed? && p.value != Invalid ==> |p.rest| < |s|
  {
    var (d, _) :- At0(s);
    if !IsDigit(d) then Parsed(Invalid, s) else
      var (number, s1) :- if d == '0' then Parsed(0.0, s[1..]) else ParseInt(s);
      var (e, _) :- At0(s1);
      if e != '.' && e != 'e' && e != 'E' then Parsed(Float(number), Skip(s1)) else
        var (decimal, s2) :- ParseFraction(s1, number);
        var (scaled, s3) :- ParseExponent(s2, decimal);
        Parsed(Float(Signed(scaled, negative)), s3)
  }

  /** `number` plus the fraction part, if there is one. */
  function ParseFraction(s: string, number: real): (p: Outcome<real>)
    ensures p != Failed(Spins)
    ensures p.Parsed? ==> |p.rest| <= |s|
  {
    var (c, _) :- At0(s);
    if c != '.' then Parsed(number, s) else
      var (fraction, r) :- ParseAfterInt(s[1..]);
      Parsed(number + fraction, r)
  }

  /** `number` scaled by the exponent part, if there is one. */
  function ParseExponent(s: string, number: real): (p: Outcome<real>)
    ensures p != Failed(Spins)
    ensures p.Parsed? ==> |p.rest| <= |s|
  {
    var (e, _) :- At0(s);
    if e != 'e' && e != 'E' then Parsed(number, s) else ParsePower(s[1..], number)
  }

  /** `number` scaled by the signed exponent in front. */
  function ParsePower(s: string, number: real): (p: Outcome<real>)
    ensures p != Failed(Spins)
    ensures p.Parsed? ==> |p.rest| <= |s|
  {
    var (m, _) :- At0(s);
    var (exponent, r) :- ParseInt(if m == '-' then s[1..] else s);
    Parsed(Scaled(number, exponent.Floor, m == '-'), r)
  }

  /** The digits in front; reading on past the end of the text throws. */
  function ParseDigits(s: string): (p: Outcome<string>)
    ensures p != Failed(Spins)
    ensures p.Parsed? ==> p.value + p.rest == s && forall i | 0 <= i < |p.value| :: IsDigit(p.value[i])
    ensures p.Parsed? && s != "" && IsDigit(s[0]) ==> p.value != ""
  {
    var n := Run(s, IsDigit);
    if n == |s| then Failed(OutOfRange) else Parsed(s[..n], s[n..])
  }

  function ParseInt(s: string): (p: Outcome<real>)
    ensures p != Failed(Spins)
    ensures p.Parsed? ==> |p.rest| <= |s| && p.value.Floor >= 0
    ensures p.Parsed? && s != "" && IsDigit(s[0]) ==> |p.rest| < |s|
  {
    var (digits, r) :- ParseDigits(s);
    Parsed(DigitsValue(digits) as real, r)
  }

  function ParseAfterInt(s: string): (p: Outcome<real>)
    ensures p != Failed(Spins)
    ensures p.Parsed? ==> |p.rest| <= |s|
  {
    var (digits, r) :- ParseDigits(s);
    Parsed(FractionValue(digits), r)
  }

  function ParseLiteral(s: string): (p: Outcome<Variant>)
    ensures p != Failed(Spins)
    ensures p.Parsed? ==> |p.rest| <= |s|
    ensures p.Parsed? && p.value != Invalid ==> |p.rest| < |s|
  {
    var (c, s1) :- At0(Skip(s));
    if !IsAlpha(c) then Parsed(Invalid, s1) else
      var n := Run(s1, IsAlpha);
      if n == |s1| then Failed(OutOfRange) else
        Parsed(LiteralOf(s1[..n]), Skip(s1[n..]))
  }

  function LiteralOf(word: string): Variant {
    if word == "true" then Bool(true)
    else if word == "false" then Bool(false)
    else if word == "null" then Null
    else Invalid
  }
}
