/**
  What every value the parser returns is like, and what it leaves of its input, on all inputs.
  The skeleton of a text is the text without what stands between its quotes.
 */
module JsonParserFacts {
  import opened Text
  import opened Variant
  import opened Decimal
  import opened JsonParserSpec
  import opened JsonRoundTrip

  function Skeleton(s: string, quoted: bool): string {
    if s == "" then ""
    else if s[0] == '"' then "\"" + Skeleton(s[1..], !quoted)
    else if quoted then Skeleton(s[1..], quoted)
    else [s[0]] + Skeleton(s[1..], quoted)
  }

  /** Every quote that is opened is closed. */
  predicate Closed(s: string, quoted: bool) {
    if s == "" then !quoted else Closed(s[1..], if s[0] == '"' then !quoted else quoted)
  }

  /** Opening minus closing square brackets. */
  function Balance(t: string): int {
    if t == "" then 0 else (if t[0] == '[' then 1 else if t[0] == ']' then -1 else 0) + Balance(t[1..])
  }

  ghost predicate NoEmptyBrackets(t: string) {
    forall i | 0 <= i < |t| - 1 && t[i] == '[' :: t[i + 1] != ']'
  }

  /** A backslash right in front of a quote. */
  ghost predicate HasEscapedQuote(s: string) {
    exists i | 0 <= i < |s| - 1 :: s[i] == '\\' && s[i + 1] == '"'
  }

  /** Strings and keys are clean, list elements valid, numbers floats: at every depth. */
  predicate Sound(v: Variant) {
    match v
    case Str(s) => Clean(s)
    case Int(_) => false
    case List(elements) => forall e | e in elements :: e != Invalid && Sound(e)
    case Map(members) => forall k | k in members :: Clean(k) && Sound(members[k])
    case _ => true
  }

  predicate NoNull(v: Variant) {
    match v
    case Null => false
    case List(elements) => forall e | e in elements :: NoNull(e)
    case Map(members) => forall k | k in members :: NoNull(members[k])
    case _ => true
  }

  predicate NoEmptyList(v: Variant) {
    match v
    case List(elements) => elements != [] && forall e | e in elements :: NoEmptyList(e)
    case Map(members) => forall k | k in members :: NoEmptyList(members[k])
    case _ => true
  }

  // ---- what consuming a piece of text does to the rest

  /** `r` is left of `s`, and what is gone holds `gained` more opening than closing brackets and no `+`. */
  ghost predicate Leaves(s: string, r: string, gained: int) {
    && Suffix(r, s)
    && (Closed(s, false) ==>
          && Closed(r, false)
          && Suffix(Skeleton(r, false), Skeleton(s, false))
          && ('+' in Skeleton(s, false) ==> '+' in Skeleton(r, false))
          && Balance(Skeleton(s, false)) == Balance(Skeleton(r, false)) + gained)
  }

  lemma LeavesTrans(a: string, b: string, c: string, m: int, n: int)
    requires Leaves(a, b, m) && Leaves(b, c, n)
    ensures Leaves(a, c, m + n)
  {
    SuffixTrans(c, b, a);
    if Closed(a, false) { SuffixTrans(Skeleton(c, false), Skeleton(b, false), Skeleton(a, false)); }
  }

  lemma Untouched(s: string)
    ensures Leaves(s, s, 0)
  {
    assert s[0..] == s && Skeleton(s, false)[0..] == Skeleton(s, false);
  }

  function Weight(c: char): int {
    if c == '[' then 1 else if c == ']' then -1 else 0
  }

  lemma OneLeft(s: string)
    requires s != "" && s[0] != '"' && s[0] != '+'
    ensures Leaves(s, s[1..], Weight(s[0]))
  {
    assert Skeleton(s, false)[1..] == Skeleton(s[1..], false);
  }

  /** A run of characters that are neither quotes nor brackets nor `+`. */
  lemma {:induction false} RunLeft(s: string, n: nat)
    requires n <= |s| && forall i | 0 <= i < n :: s[i] !in "\"[]+"
    ensures Leaves(s, s[n..], 0)
  {
    if n == 0 {
      assert s[0..] == s;
    } else {
      OneLeft(s);
      RunLeft(s[1..], n - 1);
      assert s[1..][n - 1..] == s[n..];
      LeavesTrans(s, s[1..], s[n..], 0, 0);
    }
  }

  lemma {:induction false} SkipLeft(s: string)
    ensures Leaves(s, Skip(s), 0)
  {
    if s != "" && IsSpace(s[0]) {
      OneLeft(s);
      SkipLeft(s[1..]);
      LeavesTrans(s, s[1..], Skip(s), 0, 0);
    } else {
      assert s[0..] == s;
    }
  }

  /** Inside quotes, up to and including the closing one. */
  lemma {:induction false} ClosingQuote(body: string)
    ensures var n := IndexOf(body, '"');
            && (n == |body| ==> !Closed(body, true))
            && (n < |body| ==> Closed(body, true) == Closed(body[n + 1..], false))
            && (n < |body| ==> Skeleton(body, true) == "\"" + Skeleton(body[n + 1..], false))
  {
    if body != "" && body[0] != '"' {
      ClosingQuote(body[1..]);
      var n := IndexOf(body, '"');
      if n < |body| { assert body[1..][n..] == body[n + 1..]; }
    }
  }

  lemma TwoQuotes(t: string)
    ensures var s := "\"" + ("\"" + t); Suffix(t, s) && Balance(s) == Balance(t)
  {
    assert ("\"" + t)[1..] == t;
    assert ("\"" + ("\"" + t))[1..] == "\"" + t;
    assert ("\"" + ("\"" + t))[2..] == t;
  }

  lemma QuoteLeft(s: string)
    requires s != "" && s[0] == '"'
    ensures var n := IndexOf(s[1..], '"');
            && (n == |s[1..]| ==> !Closed(s, false))
            && (n < |s[1..]| ==> Leaves(s, s[1..][n + 1..], 0))
  {
    hide *;
    var body := s[1..];
    var n := IndexOf(body, '"');
    ClosingQuote(body);
    QuoteOpens(s);
    if n < |body| {
      TwoQuotes(Skeleton(body[n + 1..], false));
      RestOfRest(s, n + 1);
      LeavesAfterQuotes(s, body[n + 1..]);
    }
  }

  lemma QuoteOpens(s: string)
    requires s != "" && s[0] == '"'
    ensures Closed(s, false) == Closed(s[1..], true) && Skeleton(s, false) == "\"" + Skeleton(s[1..], true)
  {}

  lemma RestOfRest(s: string, n: nat)
    requires s != "" && n <= |s[1..]|
    ensures Suffix(s[1..][n..], s)
  {
    assert s[n + 1..] == s[1..][n..];
  }

  lemma LeavesAfterQuotes(s: string, r: string)
    requires Suffix(r, s) && Closed(s, false) == Closed(r, false)
    requires Skeleton(s, false) == "\"" + ("\"" + Skeleton(r, false))
    requires Suffix(Skeleton(r, false), Skeleton(s, false))
           && Balance(Skeleton(s, false)) == Balance(Skeleton(r, false))
    ensures Leaves(s, r, 0)
  {
    hide Skeleton, Closed, Balance;
  }

  // ---- scalars

  lemma DigitsLeft(s: string)
    requires ParseDigits(s).Parsed?
    ensures Leaves(s, ParseDigits(s).rest, 0)
  {
    RunLeft(s, Run(s, IsDigit));
  }

  lemma NumberLeft(s: string)
    requires ParseNumber(s).Parsed?
    ensures Leaves(s, ParseNumber(s).rest, 0)
  {
    hide Leaves, ParseUnsigned, Skip;
    var s1 := Skip(s);
    SkipLeft(s);
    if s1[0] == '-' {
      OneLeft(s1);
      UnsignedLeft(s1[1..], true);
      LeavesTrans(s1, s1[1..], ParseNumber(s).rest, 0, 0);
    } else {
      UnsignedLeft(s1, false);
    }
    LeavesTrans(s, s1, ParseNumber(s).rest, 0, 0);
  }

  lemma IntLeft(s: string)
    requires ParseInt(s).Parsed?
    ensures Leaves(s, ParseInt(s).rest, 0)
  {
    DigitsLeft(s);
  }

  lemma AfterIntLeft(s: string)
    requires ParseAfterInt(s).Parsed?
    ensures Leaves(s, ParseAfterInt(s).rest, 0)
  {
    DigitsLeft(s);
  }

  lemma UnsignedLeft(s: string, negative: bool)
    requires ParseUnsigned(s, negative).Parsed?
    ensures Leaves(s, ParseUnsigned(s, negative).rest, 0)
  {
    hide Leaves, ParseInt, ParseFraction, ParseExponent;
    Untouched(s);
    if IsDigit(s[0]) {
      var p := if s[0] == '0' then Parsed(0.0, s[1..]) else ParseInt(s);
      if s[0] == '0' { OneLeft(s); } else { IntLeft(s); }
      DecimalLeft(p.rest, p.value);
      var r := ParseUnsigned(s, negative).rest;
      LeavesTrans(s, p.rest, r, 0, 0);
    }
  }

  lemma DecimalLeft(s: string, number: real)
    ensures Leaves(s, Skip(s), 0)
    ensures var p := ParseFraction(s, number);
            p.Parsed? && ParseExponent(p.rest, p.value).Parsed? ==> Leaves(s, ParseExponent(p.rest, p.value).rest, 0)
  {
    hide Leaves, ParseFraction, ParseExponent;
    SkipLeft(s);
    var p := ParseFraction(s, number);
    if p.Parsed? && ParseExponent(p.rest, p.value).Parsed? {
      FractionLeft(s, number);
      ExponentLeft(p.rest, p.value);
      LeavesTrans(s, p.rest, ParseExponent(p.rest, p.value).rest, 0, 0);
    }
  }

  lemma FractionLeft(s: string, number: real)
    requires ParseFraction(s, number).Parsed?
    ensures Leaves(s, ParseFraction(s, number).rest, 0)
  {
    hide Leaves, ParseAfterInt;
    Untouched(s);
    if s[0] == '.' {
      OneLeft(s);
      AfterIntLeft(s[1..]);
      LeavesTrans(s, s[1..], ParseAfterInt(s[1..]).rest, 0, 0);
    }
  }

  lemma ExponentLeft(s: string, number: real)
    requires ParseExponent(s, number).Parsed?
    ensures Leaves(s, ParseExponent(s, number).rest, 0)
  {
    hide Leaves, ParsePower;
    Untouched(s);
    if s[0] == 'e' || s[0] == 'E' {
      OneLeft(s);
      PowerLeft(s[1..], number);
      LeavesTrans(s, s[1..], ParsePower(s[1..], number).rest, 0, 0);
    }
  }

  lemma PowerLeft(s: string, number: real)
    requires ParsePower(s, number).Parsed?
    ensures Leaves(s, ParsePower(s, number).rest, 0)
  {
    hide Leaves, ParseInt, Scaled;
    if s[0] == '-' {
      OneLeft(s);
      IntLeft(s[1..]);
      LeavesTrans(s, s[1..], ParseInt(s[1..]).rest, 0, 0);
    } else {
      IntLeft(s);
    }
  }

  lemma LiteralLeft(s: string)
    requires ParseLiteral(s).Parsed?
    ensures Leaves(s, ParseLiteral(s).rest, 0)
  {
    hide Leaves, LiteralOf;
    var s1 := Skip(s);
    SkipLeft(s);
    if IsAlpha(s1[0]) {
      var n := Run(s1, IsAlpha);
      RunLeft(s1, n);
      SkipLeft(s1[n..]);
      LeavesTrans(s1, s1[n..], Skip(s1[n..]), 0, 0);
      LeavesTrans(s, s1, Skip(s1[n..]), 0, 0);
    }
  }

  /** A null is read only where an `n` stands outside quotes. */
  lemma NullNeedsN(s: string)
    requires ParseLiteral(s).Parsed? && ParseLiteral(s).value.Null? && Closed(s, false)
    ensures 'n' in Skeleton(s, false)
  {
    var s1 := Skip(s);
    var n := Run(s1, IsAlpha);
    assert s1[..n] == "null";
    assert s1[0] == s1[..n][0];
    SkipLeft(s);
    assert Skeleton(s1, false)[0] == 'n';
  }

  lemma StringCases(s: string)
    requires ParseString(s).Parsed?
    ensures var s1, p := Skip(s), ParseString(s);
            && s1 != ""
            && (s1[0] != '"' ==> p == Parsed(Invalid, s1))
            && (s1[0] == '"' ==>
                  var body := s1[1..];
                  var n := IndexOf(body, '"');
                  if n == |body| then p == Parsed(Invalid, body)
                  else !(n > 0 && body[n - 1] == '\\') && p == Parsed(Str(body[..n]), Skip(body[n + 1..])))
  {
    hide Skip, IndexOf;
  }

  lemma StringLeft(s: string)
    requires ParseString(s).Parsed? && Closed(s, false)
    ensures Leaves(s, ParseString(s).rest, 0)
  {
    hide *;
    StringCases(s);
    var s1 := Skip(s);
    SkipLeft(s);
    if s1[0] == '"' {
      QuoteLeft(s1);
      ClosedLater(s, s1);
      var r := s1[1..][IndexOf(s1[1..], '"') + 1..];
      SkipLeft(r);
      LeavesTrans(s1, r, Skip(r), 0, 0);
      LeavesTrans(s, s1, Skip(r), 0, 0);
    }
  }

  lemma ClosedLater(s: string, r: string)
    requires Leaves(s, r, 0) && Closed(s, false)
    ensures Closed(r, false)
  {}

  lemma StringIsSuffix(s: string)
    requires ParseString(s).Parsed?
    ensures Suffix(ParseString(s).rest, s)
    ensures ParseString(s).value.Str? ==> Clean(ParseString(s).value.s)
  {
    hide *;
    StringCases(s);
    var s1 := Skip(s);
    SkipIsSuffix(s);
    if s1[0] == '"' {
      CleanBefore(s1[1..]);
      BehindOne(s, s1);
      var n := IndexOf(s1[1..], '"');
      if n < |s1[1..]| { BehindQuote(s, s1, n); }
    }
  }

  lemma BehindOne(s: string, s1: string)
    requires Suffix(s1, s) && s1 != ""
    ensures Suffix(s1[1..], s)
  {
    hide Suffix;
    SuffixRest(s1, 1);
    SuffixTrans(s1[1..], s1, s);
  }

  lemma BehindQuote(s: string, s1: string, n: nat)
    requires Suffix(s1, s) && s1 != "" && n < |s1[1..]|
    ensures Suffix(Skip(s1[1..][n + 1..]), s)
  {
    hide Suffix, Skip;
    BehindOne(s, s1);
    var r := s1[1..][n + 1..];
    SuffixRest(s1[1..], n + 1);
    SuffixTrans(r, s1[1..], s);
    SkipIsSuffix(r);
    SuffixTrans(Skip(r), r, s);
  }

  lemma CleanBefore(body: string)
    ensures var n := IndexOf(body, '"'); !(0 < n < |body| && body[n - 1] == '\\') && n < |body| ==> Clean(body[..n])
  {}

  lemma SuffixRest(s: string, n: nat)
    requires n <= |s|
    ensures Suffix(s[n..], s)
  {}

  // ---- whole values

  /** `r` is left of `s`; what is gone opens at least `gained` more brackets than it closes, and has no `+`. */
  ghost predicate Reaches(s: string, r: string, gained: int) {
    && Suffix(r, s)
    && (Closed(s, false) ==>
          && Closed(r, false)
          && Suffix(Skeleton(r, false), Skeleton(s, false))
          && ('+' in Skeleton(s, false) ==> '+' in Skeleton(r, false))
          && Balance(Skeleton(s, false)) >= Balance(Skeleton(r, false)) + gained)
  }

  lemma ReachesTrans(a: string, b: string, c: string, m: int, n: int)
    requires Reaches(a, b, m) && Reaches(b, c, n)
    ensures Reaches(a, c, m + n)
  {
    SuffixTrans(c, b, a);
    if Closed(a, false) { SuffixTrans(Skeleton(c, false), Skeleton(b, false), Skeleton(a, false)); }
  }

  /** Outside its quotes, `s` has no `n`. */
  ghost predicate WithoutN(s: string) {
    Closed(s, false) && 'n' !in Skeleton(s, false)
  }

  /** What is gone from `s` closes as many brackets as it opens and `gained` more, in a text with no `[]`. */
  ghost predicate Tight(s: string, r: string, gained: int) {
    && Closed(s, false)
    && NoEmptyBrackets(Skeleton(s, false))
    && Balance(Skeleton(s, false)) == Balance(Skeleton(r, false)) + gained
  }

  lemma WithoutNLater(s: string, r: string, gained: int)
    requires Reaches(s, r, gained) && WithoutN(s)
    ensures WithoutN(r)
  {}

  /** If all of `a` to `c` is tight, so are both parts. */
  lemma TightParts(a: string, b: string, c: string, m: int, n: int)
    requires Reaches(a, b, m) && Reaches(b, c, n) && Tight(a, c, m + n)
    ensures Tight(a, b, m) && Tight(b, c, n)
  {
    assert NoEmptyBrackets(Skeleton(b, false)) by {
      var t, u := Skeleton(a, false), Skeleton(b, false);
      forall i | 0 <= i < |u| - 1 && u[i] == '[' ensures u[i + 1] != ']' {
        assert t[|t| - |u| + i] == '[' && t[|t| - |u| + i + 1] == u[i + 1];
      }
    }
  }

  /** All that is known about a value read from `s` with `r` left. */
  ghost predicate ValueFact(s: string, r: string, v: Variant) {
    && Reaches(s, r, 0)
    && Sound(v)
    && (WithoutN(s) ==> NoNull(v))
    && (Tight(s, r, 0) ==> NoEmptyList(v))
  }

  ghost predicate AllElements(vs: seq<Variant>, p: Variant -> bool) {
    forall i | 0 <= i < |vs| :: p(vs[i])
  }

  predicate SoundElement(v: Variant) { v != Invalid && Sound(v) }

  ghost predicate ElementsFact(s: string, r: string, vs: seq<Variant>, done: seq<Variant>) {
    && Reaches(s, r, -1)
    && AllElements(vs, SoundElement)
    && (WithoutN(s) && AllElements(done, NoNull) ==> AllElements(vs, NoNull))
    && (Tight(s, r, -1) && AllElements(done, NoEmptyList) ==>
          AllElements(vs, NoEmptyList) && (vs == [] ==> done == [] && s != "" && s[0] == ']'))
  }

  ghost predicate MembersFact(s: string, r: string, m: map<string, Variant>, done: map<string, Variant>) {
    && Reaches(s, r, 0)
    && Sound(Map(m))
    && (WithoutN(s) && NoNull(Map(done)) ==> NoNull(Map(m)))
    && (Tight(s, r, 0) && NoEmptyList(Map(done)) ==> NoEmptyList(Map(m)))
  }

  lemma LeavesReaches(s: string, r: string, gained: int)
    requires Leaves(s, r, gained)
    ensures Reaches(s, r, gained)
  {}

  lemma SkipReaches(s: string)
    ensures Reaches(s, Skip(s), 0)
  {
    SkipLeft(s);
    LeavesReaches(s, Skip(s), 0);
  }

  /** White space in front of a value and behind it changes nothing. */
  lemma FactAround(s: string, s1: string, r1: string, r: string, v: Variant)
    requires Reaches(s, s1, 0) && ValueFact(s1, r1, v) && Reaches(r1, r, 0)
    ensures ValueFact(s, r, v)
  {
    ReachesTrans(s, s1, r1, 0, 0);
    ReachesTrans(s, r1, r, 0, 0);
    if WithoutN(s) { WithoutNLater(s, s1, 0); }
    if Tight(s, r, 0) {
      TightParts(s, r1, r, 0, 0);
      TightParts(s, s1, r1, 0, 0);
    }
  }

  lemma ScalarFacts(s: string)
    requires s != "" && Skip(s) == s && s[0] !in "{["
    requires ParseValue(s).Parsed?
    ensures ValueFact(s, ParseValue(s).rest, ParseValue(s).value)
  {
    hide *;
    ScalarIs(s);
    if s[0] == '"' {
      StringFact(s);
    } else if IsDigit(s[0]) || s[0] == '-' {
      NumberFact(s);
    } else {
      LiteralFact(s);
    }
  }

  /** Which function a scalar is read by. */
  lemma ScalarIs(s: string)
    requires s != "" && Skip(s) == s && s[0] !in "{["
    ensures var p := if s[0] == '"' then ParseString(s)
                     else if IsDigit(s[0]) || s[0] == '-' then ParseNumber(s)
                     else ParseLiteral(s);
            ParseValue(s) == if p.Parsed? then Parsed(p.value, Skip(p.rest)) else p
  {
    hide ParseString, ParseNumber, ParseLiteral, ParseObject, ParseArray, Skip;
  }

  lemma StringFact(s: string)
    requires s != "" && s[0] == '"' && ParseString(s).Parsed?
    ensures ValueFact(s, Skip(ParseString(s).rest), ParseString(s).value)
  {
    hide ParseString, Leaves, Reaches, Skip, ValueFact;
    var p := ParseString(s);
    StringReaches(s);
    SkipReaches(p.rest);
    Untouched(s);
    LeavesReaches(s, s, 0);
    FactAround(s, s, p.rest, Skip(p.rest), p.value);
  }

  lemma NumberFact(s: string)
    requires s != "" && ParseNumber(s).Parsed?
    ensures ValueFact(s, Skip(ParseNumber(s).rest), ParseNumber(s).value)
  {
    hide ParseNumber, Leaves, Reaches, Skip, Tight;
    var p := ParseNumber(s);
    NumberLeft(s);
    NumberIsFloat(s);
    LeavesReaches(s, p.rest, 0);
    SkipReaches(p.rest);
    ReachesTrans(s, p.rest, Skip(p.rest), 0, 0);
  }

  lemma LiteralFact(s: string)
    requires s != "" && Skip(s) == s && ParseLiteral(s).Parsed?
    ensures ValueFact(s, Skip(ParseLiteral(s).rest), ParseLiteral(s).value)
  {
    hide ParseLiteral, Leaves, Reaches, Skip, Tight;
    var p := ParseLiteral(s);
    LiteralLeft(s);
    LiteralIs(s);
    LeavesReaches(s, p.rest, 0);
    SkipReaches(p.rest);
    ReachesTrans(s, p.rest, Skip(p.rest), 0, 0);
    if p.value.Null? && Closed(s, false) { NullNeedsN(s); }
  }

  lemma NumberIsFloat(s: string)
    requires ParseNumber(s).Parsed?
    ensures ParseNumber(s).value.Invalid? || ParseNumber(s).value.Float?
  {
    hide ParseInt, ParseFraction, ParseExponent;
  }

  lemma LiteralIs(s: string)
    requires ParseLiteral(s).Parsed?
    ensures var v := ParseLiteral(s).value; v.Invalid? || v.Bool? || v.Null?
  {}

  lemma StringReaches(s: string)
    requires ParseString(s).Parsed?
    ensures Reaches(s, ParseString(s).rest, 0)
    ensures ParseString(s).value.Str? ==> Clean(ParseString(s).value.s)
  {
    hide ParseString;
    StringIsSuffix(s);
    if Closed(s, false) { StringLeft(s); }
  }

  lemma {:induction false} ValueFacts(s: string)
    requires ParseValue(s).Parsed?
    ensures ValueFact(s, ParseValue(s).rest, ParseValue(s).value)
    decreases |s|, 2
  {
    hide Reaches, ValueFact, ParseObject, ParseArray, ParseString, ParseNumber, ParseLiteral;
    var s1 := Skip(s);
    var p := ParseValue(s);
    ValueSkip(s);
    SkipReaches(s);
    SkipTwice(s);
    if s1[0] == '{' {
      ObjectFacts(s1);
      var q := ParseObject(s1);
      SkipReaches(q.rest);
      FactAround(s, s1, q.rest, Skip(q.rest), Map(q.value));
    } else if s1[0] == '[' {
      ArrayFacts(s1);
      var q := ParseArray(s1);
      SkipReaches(q.rest);
      FactAround(s, s1, q.rest, Skip(q.rest), List(q.value));
    } else {
      ScalarFacts(s1);
      SkipReaches(p.rest);
      SkipTwice(p.rest);
      Untouched(p.rest);
      LeavesReaches(p.rest, p.rest, 0);
      FactAround(s, s1, p.rest, p.rest, p.value);
    }
  }

  lemma NotAtOnceClosed(s: string, r: string)
    requires s != "" && s[0] == '[' && Tight(s, r, 0)
    ensures s[1..] != "" ==> s[1..][0] != ']'
  {
    if |s| > 1 { NotAtOnce(s); }
  }

  lemma NotAtOnce(s: string)
    requires |s| > 1 && s[0] == '[' && NoEmptyBrackets(Skeleton(s, false))
    ensures s[1..][0] != ']'
  {
    var t := Skeleton(s, false);
    assert t == "[" + Skeleton(s[1..], false);
    assert t[0] == '[' && |t| > 1;
    assert t[1] == Skeleton(s[1..], false)[0];
  }

  lemma {:induction false} ArrayFacts(s: string)
    requires s != "" && s[0] == '[' && ParseArray(s).Parsed?
    ensures ValueFact(s, ParseArray(s).rest, List(ParseArray(s).value))
    decreases |s|, 1
  {
    hide *;
    ArrayIs(s);
    ElementsFacts(s[1..], []);
    ArrayCloses(s, ParseElements(s[1..], []).rest, ParseElements(s[1..], []).value);
  }

  lemma ArrayIs(s: string)
    requires s != "" && s[0] == '[' && ParseArray(s).Parsed?
    ensures ParseElements(s[1..], []) == ParseArray(s) && AllElements([], SoundElement)
  {
    assert Skip(s) == s;
    hide ParseElements;
  }

  /** What holds of the elements behind a `[` holds of the list. */
  lemma ArrayCloses(s: string, r: string, vs: seq<Variant>)
    requires s != "" && s[0] == '[' && ElementsFact(s[1..], r, vs, [])
    ensures ValueFact(s, r, List(vs))
  {
    hide Reaches, Tight, WithoutN;
    OneLeft(s);
    LeavesReaches(s, s[1..], 1);
    ReachesTrans(s, s[1..], r, 1, -1);
    if WithoutN(s) { WithoutNLater(s, s[1..], 1); }
    if Tight(s, r, 0) {
      TightParts(s, s[1..], r, 1, -1);
      NotAtOnceClosed(s, r);
    }
  }

  lemma {:induction false} ElementsFacts(s: string, done: seq<Variant>)
    requires ParseElements(s, done).Parsed? && AllElements(done, SoundElement)
    ensures ElementsFact(s, ParseElements(s, done).rest, ParseElements(s, done).value, done)
    decreases |s|, 3
  {
    hide Reaches, ValueFact, ElementsFact;
    if s[0] == ']' {
      ElementsClose(s, done);
    } else {
      var s1 := Skip(s);
      var p := ParseValue(s1);
      SkipReaches(s);
      ValueFacts(s1);
      if p.value.Invalid? {
        ElementsGiveUp(s, s1, p.rest, p.value, done);
      } else {
        var s2 := if p.rest[0] == ',' then p.rest[1..] else p.rest;
        CommaReaches(p.rest);
        SkipReaches(s2);
        ReachesTrans(p.rest, s2, Skip(s2), 0, 0);
        FactAround(s, s1, p.rest, Skip(s2), p.value);
        FactSound(s1, p.rest, p.value);
        ElementsFacts(Skip(s2), done + [p.value]);
        ElementsGoOn(s, Skip(s2), ParseElements(s, done).rest, p.value, ParseElements(s, done).value, done);
      }
    }
  }

  lemma FactSound(s: string, r: string, v: Variant)
    requires ValueFact(s, r, v)
    ensures Sound(v) && Reaches(s, r, 0)
  {}

  lemma ElementsClose(s: string, done: seq<Variant>)
    requires s != "" && s[0] == ']' && AllElements(done, SoundElement)
    ensures ElementsFact(s, Skip(s[1..]), done, done)
  {
    OneLeft(s);
    LeavesReaches(s, s[1..], -1);
    SkipReaches(s[1..]);
    ReachesTrans(s, s[1..], Skip(s[1..]), -1, 0);
  }

  lemma ElementsGiveUp(s: string, s1: string, r: string, v: Variant, done: seq<Variant>)
    requires Reaches(s, s1, 0) && ValueFact(s1, r, v)
    ensures ElementsFact(s, r, [], done)
  {
    ReachesTrans(s, s1, r, 0, 0);
  }

  lemma CommaReaches(s: string)
    requires s != ""
    ensures Reaches(s, if s[0] == ',' then s[1..] else s, 0)
  {
    Untouched(s);
    if s[0] == ',' { OneLeft(s); }
  }

  lemma ElementsGoOn(s: string, s1: string, r: string, v: Variant, vs: seq<Variant>, done: seq<Variant>)
    requires ValueFact(s, s1, v) && ElementsFact(s1, r, vs, done + [v])
    ensures ElementsFact(s, r, vs, done)
  {
    hide Reaches, Tight, WithoutN;
    ReachesTrans(s, s1, r, 0, -1);
    if WithoutN(s) { WithoutNLater(s, s1, 0); }
    if Tight(s, r, -1) { TightParts(s, s1, r, 0, -1); }
  }

  lemma {:induction false} ObjectFacts(s: string)
    requires s != "" && s[0] == '{' && ParseObject(s).Parsed?
    ensures ValueFact(s, ParseObject(s).rest, Map(ParseObject(s).value))
    decreases |s|, 1
  {
    hide Reaches, MembersFact, ParseMembers;
    assert Skip(s) == s;
    var s2 := Skip(s[1..]);
    OneLeft(s);
    LeavesReaches(s, s[1..], 0);
    SkipReaches(s[1..]);
    ReachesTrans(s, s[1..], s2, 0, 0);
    if s2[0] == '}' {
      OneLeft(s2);
      LeavesReaches(s2, s2[1..], 0);
      ReachesTrans(s, s2, s2[1..], 0, 0);
    } else if s2[0] == '"' {
      MembersFacts(s2, map[]);
      MembersAfter(s, s2, ParseObject(s).rest, ParseObject(s).value);
    }
  }

  lemma MembersAfter(s: string, s1: string, r: string, m: map<string, Variant>)
    requires Reaches(s, s1, 0) && MembersFact(s1, r, m, map[])
    ensures ValueFact(s, r, Map(m))
  {
    hide Reaches, Tight, WithoutN;
    ReachesTrans(s, s1, r, 0, 0);
    if WithoutN(s) { WithoutNLater(s, s1, 0); }
    if Tight(s, r, 0) { TightParts(s, s1, r, 0, 0); }
  }

  lemma MembersGoOn(s: string, s1: string, r: string, key: string, v: Variant, m: map<string, Variant>,
      done: map<string, Variant>)
    requires ValueFact(s, s1, v) && MembersFact(s1, r, m, done[key := v])
    ensures MembersFact(s, r, m, done)
  {
    hide Reaches, Tight, WithoutN;
    ReachesTrans(s, s1, r, 0, 0);
    if WithoutN(s) { WithoutNLater(s, s1, 0); }
    if Tight(s, r, 0) { TightParts(s, s1, r, 0, 0); }
  }

  lemma MembersSkip(s: string, s1: string, r: string, m: map<string, Variant>, done: map<string, Variant>)
    requires Reaches(s, s1, 0) && MembersFact(s1, r, m, done)
    ensures MembersFact(s, r, m, done)
  {
    hide Reaches, Tight, WithoutN;
    ReachesTrans(s, s1, r, 0, 0);
    if WithoutN(s) { WithoutNLater(s, s1, 0); }
    if Tight(s, r, 0) { TightParts(s, s1, r, 0, 0); }
  }

  /** Giving up, or being done, with `m` in hand. */
  lemma MembersStop(s: string, r: string, m: map<string, Variant>, done: map<string, Variant>)
    requires Reaches(s, r, 0) && Sound(Map(m)) && (m == map[] || m == done)
    ensures MembersFact(s, r, m, done)
  {}

  lemma {:induction false} MembersFacts(s: string, done: map<string, Variant>)
    requires ParseMembers(s, done).Parsed? && Sound(Map(done))
    ensures MembersFact(s, ParseMembers(s, done).rest, ParseMembers(s, done).value, done)
    decreases |s|, 3
  {
    hide Reaches, ValueFact, MembersFact, ParseValue, ParseString;
    var p := ParseMembers(s, done);
    if s[0] == '}' {
      OneLeft(s);
      LeavesReaches(s, s[1..], 0);
      SkipReaches(s[1..]);
      ReachesTrans(s, s[1..], p.rest, 0, 0);
      MembersStop(s, p.rest, done, done);
    } else if s[0] == ',' {
      OneLeft(s);
      LeavesReaches(s, s[1..], 0);
      SkipReaches(s[1..]);
      ReachesTrans(s, s[1..], Skip(s[1..]), 0, 0);
      MembersFacts(Skip(s[1..]), done);
      MembersSkip(s, Skip(s[1..]), p.rest, p.value, done);
    } else if s[0] == '"' {
      MemberFacts(s, done);
    } else {
      Untouched(s);
      LeavesReaches(s, s, 0);
      MembersStop(s, s, map[], done);
    }
  }

  lemma {:induction false} MemberFacts(s: string, done: map<string, Variant>)
    requires s != "" && s[0] == '"' && ParseMembers(s, done).Parsed? && Sound(Map(done))
    ensures MembersFact(s, ParseMembers(s, done).rest, ParseMembers(s, done).value, done)
    decreases |s|, 2
  {
    hide Reaches, ValueFact, MembersFact, ParseValue, ParseString;
    var key := ParseString(s);
    StringReaches(s);
    var s2 := Skip(key.rest);
    SkipReaches(key.rest);
    ReachesTrans(s, key.rest, s2, 0, 0);
    if key.value.Invalid? {
      MembersStop(s, key.rest, map[], done);
    } else if s2[0] != ':' {
      MembersStop(s, s2, map[], done);
    } else {
      var s3 := Skip(s2[1..]);
      OneLeft(s2);
      LeavesReaches(s2, s2[1..], 0);
      SkipReaches(s2[1..]);
      ReachesTrans(s2, s2[1..], s3, 0, 0);
      ReachesTrans(s, s2, s3, 0, 0);
      var p := ParseValue(s3);
      ValueFacts(s3);
      FactSound(s3, p.rest, p.value);
      SkipReaches(p.rest);
      FactAround(s, s3, p.rest, Skip(p.rest), p.value);
      MembersFacts(Skip(p.rest), done[key.value.s := p.value]);
      MembersGoOn(s, Skip(p.rest), ParseMembers(s, done).rest, key.value.s, p.value, ParseMembers(s, done).value, done);
    }
  }

  // ---- termination

  lemma LaterHasNoEscape(s: string, r: string)
    requires !HasEscapedQuote(s) && Suffix(r, s)
    ensures !HasEscapedQuote(r)
  {
    forall i | 0 <= i < |r| - 1 ensures !(r[i] == '\\' && r[i + 1] == '"') {
      assert s[|s| - |r| + i] == r[i] && s[|s| - |r| + i + 1] == r[i + 1];
    }
  }

  lemma StringTerminates(s: string)
    requires !HasEscapedQuote(s)
    ensures ParseString(s) != Failed(Spins)
  {
    var s1 := Skip(s);
    SkipIsSuffix(s);
    LaterHasNoEscape(s, s1);
    if s1 != "" && s1[0] == '"' {
      var n := IndexOf(s1[1..], '"');
      if 0 < n < |s1[1..]| { assert s1[n] == s1[1..][n - 1] && s1[n + 1] == s1[1..][n]; }
    }
  }

  lemma {:induction false} ValueTerminates(s: string)
    requires !HasEscapedQuote(s)
    ensures ParseValue(s) != Failed(Spins)
    decreases |s|, 2
  {
    hide HasEscapedQuote, ParseString, ParseNumber, ParseLiteral, ParseObject, ParseArray;
    var s1 := Skip(s);
    SkipIsSuffix(s);
    LaterHasNoEscape(s, s1);
    StringTerminates(s1);
    ArrayTerminates(s1);
    ObjectTerminates(s1);
  }

  lemma {:induction false} ArrayTerminates(s: string)
    requires !HasEscapedQuote(s)
    ensures ParseArray(s) != Failed(Spins)
    decreases |s|, 1
  {
    hide HasEscapedQuote;
    var s1 := Skip(s);
    SkipIsSuffix(s);
    if s1 != "" {
      assert Suffix(s1[1..], s1);
      SuffixTrans(s1[1..], s1, s);
      LaterHasNoEscape(s, s1[1..]);
      ElementsTerminate(s1[1..], []);
    }
  }

  /** What the loop of `parseArray` goes on with is still a suffix. */
  lemma AfterElement(s: string)
    requires ParseValue(Skip(s)).Parsed?
    ensures var r := ParseValue(Skip(s)).rest;
            r != "" ==> Suffix(Skip(if r[0] == ',' then r[1..] else r), s)
  {
    hide ParseValue, Suffix;
    var r := ParseValue(Skip(s)).rest;
    SkipIsSuffix(s);
    ValueIsSuffix(Skip(s));
    SuffixTrans(r, Skip(s), s);
    if r != "" {
      var r' := if r[0] == ',' then r[1..] else r;
      SuffixRest(r, 0);
      SuffixRest(r, 1);
      assert r[0..] == r;
      SkipIsSuffix(r');
      SuffixTrans(r', r, s);
      SuffixTrans(Skip(r'), r', s);
    }
  }

  /** Only the value in front, or what comes behind it, can keep the loop of `parseArray` from ending. */
  lemma ElementsSpin(s: string, done: seq<Variant>)
    requires ParseValue(Skip(s)) != Failed(Spins) && ParseElements(s, done) == Failed(Spins)
    ensures var p := ParseValue(Skip(s));
            && p.Parsed? && !p.value.Invalid? && p.rest != ""
            && ParseElements(Skip(if p.rest[0] == ',' then p.rest[1..] else p.rest), done + [p.value]) == Failed(Spins)
  {
    hide ParseValue, Skip;
  }

  lemma {:induction false} ElementsTerminate(s: string, done: seq<Variant>)
    requires !HasEscapedQuote(s)
    ensures ParseElements(s, done) != Failed(Spins)
    decreases |s|, 3
  {
    hide *;
    SkipIsSuffix(s);
    LaterHasNoEscape(s, Skip(s));
    ValueTerminates(Skip(s));
    if ParseElements(s, done) == Failed(Spins) { ElementsSpin(s, done); }
    var p := ParseValue(Skip(s));
    if p.Parsed? && !p.value.Invalid? && p.rest != "" {
      AfterElement(s);
      var s2 := Skip(if p.rest[0] == ',' then p.rest[1..] else p.rest);
      LaterHasNoEscape(s, s2);
      ElementsTerminate(s2, done + [p.value]);
    }
  }

  lemma {:induction false} ObjectTerminates(s: string)
    requires !HasEscapedQuote(s)
    ensures ParseObject(s) != Failed(Spins)
    decreases |s|, 1
  {
    hide HasEscapedQuote, ParseMembers;
    var s1 := Skip(s);
    SkipIsSuffix(s);
    if s1 != "" {
      var s2 := Skip(s1[1..]);
      SkipIsSuffix(s1[1..]);
      assert Suffix(s1[1..], s1);
      SuffixTrans(s1[1..], s1, s);
      SuffixTrans(s2, s1[1..], s);
      LaterHasNoEscape(s, s2);
      MembersTerminate(s2, map[]);
    }
  }

  /** Where the loop of `parseObject` looks for the value of a member is still a suffix. */
  lemma AfterColon(s: string)
    requires ParseString(s).Parsed? && Skip(ParseString(s).rest) != ""
    ensures Suffix(Skip(Skip(ParseString(s).rest)[1..]), s)
  {
    hide ParseString, Suffix;
    var r := ParseString(s).rest;
    var t := Skip(r)[1..];
    StringIsSuffix(s);
    SkipIsSuffix(r);
    SuffixTrans(Skip(r), r, s);
    SuffixRest(Skip(r), 1);
    SuffixTrans(t, Skip(r), s);
    SkipIsSuffix(t);
    SuffixTrans(Skip(t), t, s);
  }

  lemma ValueIsSuffix(s: string)
    requires ParseValue(s).Parsed?
    ensures Suffix(ParseValue(s).rest, s)
  {
    hide ParseValue, ValueFact;
    ValueFacts(s);
    FactSound(s, ParseValue(s).rest, ParseValue(s).value);
  }

  lemma {:induction false} MembersTerminate(s: string, done: map<string, Variant>)
    requires !HasEscapedQuote(s)
    ensures ParseMembers(s, done) != Failed(Spins)
    decreases |s|, 3
  {
    hide HasEscapedQuote, ParseString, ParseValue, Suffix;
    if s != "" && s[0] == ',' {
      SuffixRest(s, 1);
      SkipIsSuffix(s[1..]);
      SuffixTrans(Skip(s[1..]), s[1..], s);
      LaterHasNoEscape(s, Skip(s[1..]));
      MembersTerminate(Skip(s[1..]), done);
    } else if s != "" && s[0] == '"' {
      StringTerminates(s);
      if ParseString(s).Parsed? && ParseString(s).value.Str? && Skip(ParseString(s).rest) != "" {
        AfterColon(s);
        MemberTerminates(s, ParseString(s).value.s, Skip(Skip(ParseString(s).rest)[1..]), done);
      }
    }
  }

  /** The loop of `parseObject` from the value of the member that starts at `s`. */
  lemma {:induction false} MemberTerminates(s: string, key: string, t: string, done: map<string, Variant>)
    requires !HasEscapedQuote(s) && Suffix(t, s) && |t| < |s|
    ensures ParseValue(t) != Failed(Spins)
    ensures ParseValue(t).Parsed? ==>
              ParseMembers(Skip(ParseValue(t).rest), done[key := ParseValue(t).value]) != Failed(Spins)
    decreases |s|, 2
  {
    hide HasEscapedQuote, ParseValue, ParseMembers;
    LaterHasNoEscape(s, t);
    ValueTerminates(t);
    var p := ParseValue(t);
    if p.Parsed? {
      ValueIsSuffix(t);
      SkipIsSuffix(p.rest);
      SuffixTrans(Skip(p.rest), p.rest, t);
      SuffixTrans(Skip(p.rest), t, s);
      LaterHasNoEscape(s, Skip(p.rest));
      MembersTerminate(Skip(p.rest), done[key := p.value]);
    }
  }

  /** No text without a backslash in front of a quote can make `parse` hang. */
  lemma ParseTerminates(s: string)
    requires !HasEscapedQuote(s)
    ensures Parse(s) != Failed(Spins)
  {
    hide HasEscapedQuote, ParseObject, ParseArray;
    SkipIsSuffix(s);
    LaterHasNoEscape(s, Skip(s));
    ObjectTerminates(Skip(s));
    ArrayTerminates(Skip(s));
  }

  /** A list of one string that holds an escaped quote does make it hang. */
  lemma ParseHangs()
    ensures Parse("[\"\\\"\"]") == Failed(Spins)
  {
    var s := "[\"\\\"\"]";
    assert Skip(s) == s;
    assert s[1..] == "\"\\\"\"]" && Skip(s[1..]) == s[1..];
    assert s[1..][1..] == "\\\"\"]";
    assert s[1..][1..][1..] == "\"\"]";
    assert IndexOf(s[1..][1..][1..], '"') == 0;
    assert IndexOf(s[1..][1..], '"') == 1;
    assert ParseString(s[1..]) == Failed(Spins);
    assert ParseValue(s[1..]) == Failed(Spins);
  }

  /** Whatever `parse` returns, it has clean strings and keys, only valid list elements, and no int. */
  lemma ParsedIsSound(s: string)
    requires Parse(s).Parsed?
    ensures Sound(Parse(s).value)
  {
    hide ParseObject, ParseArray, ValueFact;
    var s1 := Skip(s);
    SkipTwice(s);
    if s1[0] == '{' {
      ObjectFacts(s1);
      FactSound(s1, ParseObject(s1).rest, Map(ParseObject(s1).value));
    } else if s1[0] == '[' {
      ArrayFacts(s1);
      FactSound(s1, ParseArray(s1).rest, List(ParseArray(s1).value));
    }
  }
}
