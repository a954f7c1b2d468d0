/** The exact condition under which parsing undoes generating. */
module JsonExact {
  import opened Text
  import opened Variant
  import opened Decimal
  import opened JsonParserSpec
  import opened JsonNumbers
  import opened JsonRoundTrip
  import opened JsonParserFacts
  import Gen = JsonGenerator

  /**
    The values the two are inverse on: no null at all, no invalid list element, ints that are
    not negative, floats spelled without a `+` and, if negative, with a fraction or an exponent,
    clean strings and keys and, in the pretty form, no empty list.
   */
  predicate Printable(v: Variant, compact: bool, fmt: Gen.FloatFormat) {
    match v
    case Null => false
    case Int(n) => n >= 0
    case Float(x) => '+' !in fmt(x) && (x == 0.0 || !BareNegative(fmt(x)))
    case Str(s) => Clean(s)
    case List(elements) =>
      (compact || elements != []) && forall e | e in elements :: e != Invalid && Printable(e, compact, fmt)
    case Map(members) => forall k | k in members :: Clean(k) && Printable(members[k], compact, fmt)
    case _ => true
  }

  predicate RoundTrips(v: Variant, compact: bool, fmt: Gen.FloatFormat) {
    (v.List? || v.Map?) && Printable(v, compact, fmt)
  }

  /**
    Parsing the text generated for `v` gives `v` back, its ints widened to floats, if and only
    if `v` is a list or map that is printable.
   */
  lemma RoundTripIff(v: Variant, compact: bool, fmt: Gen.FloatFormat)
    requires FloatsSpelled(v, fmt)
    ensures var p := Parse(Gen.Text(v, compact, 0, fmt));
            p.Parsed? && p.value == Widen(v) <==> RoundTrips(v, compact, fmt)
  {
    hide Parse;
    var p := Parse(Gen.Text(v, compact, 0, fmt));
    if RoundTrips(v, compact, fmt) {
      PrintableIs(v, compact, fmt);
      LegibleReads(v, compact, fmt);
    }
    if p.Parsed? && p.value == Widen(v) {
      OnlyContainers(v, compact, fmt);
      ReadBackIsLegible(v, compact, fmt);
      LegibleReads(v, compact, fmt);
      PrintableIs(v, compact, fmt);
    }
  }

  ghost predicate Recovered(v: Variant, compact: bool, fmt: Gen.FloatFormat) {
    var p := Parse(Gen.Text(v, compact, 0, fmt)); p.Parsed? && p.value == Widen(v)
  }

  /**
    One input of each kind that is lost: a negative int, a null, a quote, a trailing backslash, and a
    pretty empty list.
   */
  lemma Lost(fmt: Gen.FloatFormat)
    ensures !Recovered(List([Int(-1)]), true, fmt) && !Recovered(List([Null]), true, fmt)
    ensures !Recovered(List([Str("\"")]), true, fmt) && !Recovered(List([Str("\\")]), true, fmt)
    ensures !Recovered(List([]), false, fmt) && Recovered(List([]), true, fmt)
  {
    hide *;
    NonePrintable(fmt);
    LostOne(Int(-1), fmt);
    LostOne(Null, fmt);
    LostOne(Str("\""), fmt);
    LostOne(Str("\\"), fmt);
    RoundTripIff(List([]), false, fmt);
    RoundTripIff(List([]), true, fmt);
    RecoveredIs(List([]), false, fmt);
    RecoveredIs(List([]), true, fmt);
  }

  lemma NonePrintable(fmt: Gen.FloatFormat)
    ensures FloatsSpelled(Int(-1), fmt) && FloatsSpelled(Null, fmt) && FloatsSpelled(Str("\""), fmt)
           && FloatsSpelled(Str("\\"), fmt)
    ensures !Printable(Int(-1), true, fmt) && !Printable(Null, true, fmt)
    ensures !Printable(Str("\""), true, fmt) && !Printable(Str("\\"), true, fmt)
    ensures FloatsSpelled(List([]), fmt) && !RoundTrips(List([]), false, fmt) && RoundTrips(List([]), true, fmt)
  {}

  lemma RecoveredIs(v: Variant, compact: bool, fmt: Gen.FloatFormat)
    ensures Recovered(v, compact, fmt) <==> var p := Parse(Gen.Text(v, compact, 0, fmt));
           p.Parsed? && p.value == Widen(v)
  {
    hide Parse;
  }

  /**
    Floats that a stream spells as -1 and as 1e+06, exactly, are lost as well. The second is what an
    int of a million comes back as, so that one survives a first round trip and not a second.
   */
  lemma LostFloats(fmt: Gen.FloatFormat)
    requires fmt(-1.0) == "-1" && fmt(1000000.0) == "1e+06"
    ensures FloatsSpelled(Float(-1.0), fmt) && !Recovered(List([Float(-1.0)]), true, fmt)
    ensures FloatsSpelled(Float(1000000.0), fmt) && !Recovered(List([Float(1000000.0)]), true, fmt)
    ensures Recovered(List([Int(1000000)]), true, fmt) && Widen(List([Int(1000000)])) == List([Float(1000000.0)])
  {
    hide *;
    var one, million := Numeral(true, "1", "", NoExponent), Numeral(false, "1", "", Exponent('e', Plus, "06"));
    MinusOneIs();
    MillionIs();
    SpelledBy(-1.0, one, fmt);
    SpelledBy(1000000.0, million, fmt);
    LostFloat(-1.0, fmt);
    LostFloat(1000000.0, fmt);
    IntRecovered(1000000, fmt);
  }

  lemma SpelledBy(x: real, n: Numeral, fmt: Gen.FloatFormat)
    requires n.Valid() && n.Spelling() == fmt(x) && n.Value() == x
    ensures FloatsSpelled(Float(x), fmt)
  {
    ValueDenotes(n, x);
  }

  lemma LostFloat(x: real, fmt: Gen.FloatFormat)
    requires FloatsSpelled(Float(x), fmt) && ('+' in fmt(x) || (BareNegative(fmt(x)) && x != 0.0))
    ensures !Recovered(List([Float(x)]), true, fmt)
  {
    LostOne(Float(x), fmt);
  }

  lemma IntRecovered(n: nat, fmt: Gen.FloatFormat)
    ensures Recovered(List([Int(n)]), true, fmt) && Widen(List([Int(n)])) == List([Float(n as real)])
  {
    hide Parse;
    assert forall e | e in [Int(n)] :: e == Int(n);
    assert Printable(Int(n), true, fmt) && FloatsSpelled(Int(n), fmt);
    RoundTripIff(List([Int(n)]), true, fmt);
  }

  lemma MinusOneIs()
    ensures var n := Numeral(true, "1", "", NoExponent); n.Valid() && n.Spelling() == "-1" && n.Value() == -1.0
    ensures BareNegative("-1")
  {}

  lemma MillionIs()
    ensures var n := Numeral(false, "1", "", Exponent('e', Plus, "06"));
            n.Valid() && n.Spelling() == "1e+06" && n.Value() == 1000000.0
    ensures '+' in "1e+06"
  {
    assert DigitsValue("06") == 6 && DigitsValue("1") == 1;
    assert Pow10(6) == 10.0 * Pow10(5) == 100.0 * Pow10(4) == 1000.0 * Pow10(3) == 1000000.0;
  }

  lemma LostOne(v: Variant, fmt: Gen.FloatFormat)
    requires FloatsSpelled(v, fmt) && !Printable(v, true, fmt)
    ensures !Recovered(List([v]), true, fmt)
  {
    hide Parse;
    assert v in [v];
    RoundTripIff(List([v]), true, fmt);
  }

  /** Both forms of a value that neither loses anything parse to the same value. */
  lemma FormsAgree(v: Variant, fmt: Gen.FloatFormat)
    requires FloatsSpelled(v, fmt) && RoundTrips(v, false, fmt)
    ensures Parse(Gen.Text(v, true, 0, fmt)) == Parse(Gen.Text(v, false, 0, fmt)) == Parsed(Widen(v), "")
  {
    hide Parse;
    PrintableIs(v, false, fmt);
    LegibleReads(v, false, fmt);
    LegibleInCompact(v, fmt);
    LegibleReads(v, true, fmt);
  }

  lemma {:induction false} LegibleInCompact(v: Variant, fmt: Gen.FloatFormat)
    requires Legible(v, false, fmt)
    ensures Legible(v, true, fmt)
  {
    match v
    case List(elements) => forall e | e in elements ensures Legible(e, true, fmt) { LegibleInCompact(e, fmt); }
    case Map(members) => forall k | k in members
        ensures Legible(members[k], true, fmt) { LegibleInCompact(members[k], fmt); }
    case _ =>
  }

  /** Printable is legible without loss. */
  lemma {:induction false} PrintableIs(v: Variant, compact: bool, fmt: Gen.FloatFormat)
    ensures Printable(v, compact, fmt) <==> Legible(v, compact, fmt) && ReadBack(v, fmt) == Widen(v)
  {
    match v
    case List(elements) =>
      forall e | e in elements ensures Printable(e, compact, fmt)
          <==> Legible(e, compact, fmt) && ReadBack(e, fmt) == Widen(e) {
        PrintableIs(e, compact, fmt);
      }
      ListsAgree(elements, fmt);
    case Map(members) =>
      forall k | k in members
        ensures Printable(members[k], compact, fmt)
               <==> Legible(members[k], compact, fmt) && ReadBack(members[k], fmt) == Widen(members[k])
      {
        PrintableIs(members[k], compact, fmt);
      }
      MapsAgree(members, fmt);
    case _ =>
  }

  lemma ListsAgree(elements: seq<Variant>, fmt: Gen.FloatFormat)
    ensures ReadBack(List(elements), fmt) == Widen(List(elements))
           <==> forall e | e in elements :: ReadBack(e, fmt) == Widen(e)
  {
    var a, b := ReadBack(List(elements), fmt).elements, Widen(List(elements)).elements;
    if a == b {
      forall e | e in elements ensures ReadBack(e, fmt) == Widen(e) {
        var i :| 0 <= i < |elements| && elements[i] == e;
        assert a[i] == b[i];
      }
    }
  }

  lemma MapsAgree(members: map<string, Variant>, fmt: Gen.FloatFormat)
    ensures ReadBack(Map(members), fmt) == Widen(Map(members))
           <==> forall k | k in members :: ReadBack(members[k], fmt) == Widen(members[k])
  {
    var a, b := ReadBack(Map(members), fmt).members, Widen(Map(members)).members;
    if a == b {
      forall k | k in members ensures ReadBack(members[k], fmt) == Widen(members[k]) {
        assert a[k] == b[k];
      }
    }
  }

  /** A scalar on its own is never parsed back. */
  lemma OnlyContainers(v: Variant, compact: bool, fmt: Gen.FloatFormat)
    requires FloatsSpelled(v, fmt)
    requires var p := Parse(Gen.Text(v, compact, 0, fmt)); p.Parsed? && p.value == Widen(v)
    ensures v.List? || v.Map?
  {
    hide ParseObject, ParseArray;
    if !v.List? && !v.Map? && !Empty(v) { ScalarStarts(v, compact, fmt); }
  }

  lemma ScalarStarts(v: Variant, compact: bool, fmt: Gen.FloatFormat)
    requires FloatsSpelled(v, fmt) && !Empty(v) && !v.List? && !v.Map?
    ensures var t := Gen.Text(v, compact, 0, fmt); t != "" && Skip(t) == t && t[0] != '{' && t[0] != '['
  {
    TextStarts(v, compact, 0, fmt);
    match v
    case Float(x) =>
      var n: Numeral :| n.Valid() && n.Spelling() == fmt(x);
      assert n.Spelling()[0] == if n.negative then '-' else n.whole[0];
    case Int(n) => assert IntText(n)[0] == if n < 0 then '-' else NatText(n)[0];
    case _ =>
  }

  // ---- the text of a value whose strings are clean

  ghost predicate OpensBroken(t: string) {
    forall i | 0 <= i < |t| && t[i] == '[' :: i + 1 < |t| && t[i + 1] == '\r'
  }

  /**
    Quotes closed, brackets balanced, no `n` outside quotes; in pretty form every `[` ends its
    line. Outside quotes there is a `+` unless `clean` holds.
   */
  ghost predicate Aligned(t: string, pretty: bool, clean: bool) {
    && WithoutN(t)
    && Balance(Skeleton(t, false)) == 0
    && (pretty ==> OpensBroken(Skeleton(t, false)))
    && (clean || '+' in Skeleton(t, false))
  }

  lemma Associate(a: string, b: string, c: string)
    ensures (a + b) + c == a + (b + c)
  {}

  function SkeletonHead(c: char, quoted: bool): string {
    if c == '"' || !quoted then [c] else ""
  }

  lemma {:induction false} SkeletonConcat(a: string, b: string, quoted: bool)
    requires Closed(a, quoted)
    ensures Skeleton(a + b, quoted) == Skeleton(a, quoted) + Skeleton(b, false)
    ensures Closed(a + b, quoted) == Closed(b, false)
  {
    if a == "" {
      assert a + b == b;
    } else {
      assert (a + b)[1..] == a[1..] + b;
      var quoted' := if a[0] == '"' then !quoted else quoted;
      SkeletonConcat(a[1..], b, quoted');
      assert Skeleton(a + b, quoted) == SkeletonHead(a[0], quoted) + Skeleton(a[1..] + b, quoted');
      assert Skeleton(a, quoted) == SkeletonHead(a[0], quoted) + Skeleton(a[1..], quoted');
      Associate(SkeletonHead(a[0], quoted), Skeleton(a[1..], quoted'), Skeleton(b, false));
    }
  }

  lemma {:induction false} BalanceConcat(a: string, b: string)
    ensures Balance(a + b) == Balance(a) + Balance(b)
  {
    if a == "" {
      assert a + b == b;
    } else {
      assert (a + b)[1..] == a[1..] + b;
      BalanceConcat(a[1..], b);
    }
  }

  lemma AlignedConcat(a: string, b: string, pretty: bool, cleanA: bool, cleanB: bool)
    requires Aligned(a, pretty, cleanA) && Aligned(b, pretty, cleanB)
    ensures Aligned(a + b, pretty, cleanA && cleanB)
  {
    SkeletonConcat(a, b, false);
    BalanceConcat(Skeleton(a, false), Skeleton(b, false));
  }

  lemma {:induction false} AlignedPlain(t: string, pretty: bool)
    requires forall i | 0 <= i < |t| :: t[i] !in "\"[]n"
    ensures Aligned(t, pretty, '+' !in t) && Skeleton(t, false) == t
  {
    if t != "" { AlignedPlain(t[1..], pretty); }
  }

  lemma AlignedQuoted(s: string, pretty: bool)
    requires '"' !in s
    ensures Aligned(Gen.Quoted(s), pretty, true)
  {
    var body := s + ['"'] + "";
    assert body == s + ['"'];
    assert Gen.Quoted(s)[1..] == body;
    IndexOfPrefix(s, "", '"');
    ClosingQuote(body);
    assert body[|s| + 1..] == "";
    TwoQuotes("");
    assert "\"" + ("\"" + "") == "\"\"";
    assert Skeleton(Gen.Quoted(s), false) == "\"\"";
  }

  lemma AlignedArray(body: string, pretty: bool, clean: bool)
    requires Aligned(body, pretty, clean) && (pretty ==> body != "" && body[0] == '\r')
    ensures Aligned("[" + body + "]", pretty, clean)
  {
    hide Skeleton, Balance, Closed;
    var t := Skeleton(body, false);
    SkeletonBracket(body);
    BalanceBracket(t);
    assert ("[" + (t + "]"))[1..] == t + "]";
    if pretty { SkeletonStart(body); }
  }

  lemma SkeletonBracket(body: string)
    requires Closed(body, false)
    ensures Skeleton("[" + body + "]", false) == "[" + (Skeleton(body, false) + "]") && Closed("[" + body + "]", false)
  {
    SkeletonConcat(body, "]", false);
    assert ("[" + body + "]")[1..] == body + "]";
    assert Skeleton("]", false) == "]";
  }

  lemma SkeletonStart(body: string)
    requires body != "" && body[0] == '\r'
    ensures Skeleton(body, false) != "" && Skeleton(body, false)[0] == '\r'
  {}

  lemma BalanceBracket(t: string)
    ensures Balance("[" + (t + "]")) == Balance(t)
  {
    BalanceConcat(t, "]");
    assert ("[" + (t + "]"))[1..] == t + "]";
    assert Balance("]") == -1;
  }

  lemma AnyAligned(t: string, pretty: bool, clean: bool)
    requires Aligned(t, pretty, clean)
    ensures Aligned(t, pretty, true)
  {}

  lemma PlainParts(pretty: bool)
    ensures Aligned("", pretty, true) && Aligned(", ", pretty, true) && Aligned(": ", pretty, true)
    ensures Aligned("{", pretty, true) && Aligned("}", pretty, true)
  {
    hide Aligned;
    AlignedPlain("", pretty);
    AlignedPlain(", ", pretty);
    AlignedPlain(": ", pretty);
    AlignedPlain("{", pretty);
    AlignedPlain("}", pretty);
  }

  lemma {:induction false} AlignedJoin(parts: seq<string>, pretty: bool, cleans: seq<bool>)
    requires |cleans| == |parts| && forall i | 0 <= i < |parts| :: Aligned(parts[i], pretty, cleans[i])
    ensures Aligned(Gen.Join(parts), pretty, AllTrue(cleans))
  {
    hide Aligned;
    PlainParts(pretty);
    if |parts| == 1 {
      assert cleans == [cleans[0]];
      if !cleans[0] { NotAllTrue(cleans, 0); } else { AnyAligned(parts[0], pretty, cleans[0]); }
    } else if |parts| > 1 {
      AlignedJoin(parts[1..], pretty, cleans[1..]);
      AlignedConcat(parts[0], ", ", pretty, cleans[0], true);
      AlignedConcat(parts[0] + ", ", Gen.Join(parts[1..]), pretty, cleans[0], AllTrue(cleans[1..]));
      AllTrueFirst(cleans);
    }
  }

  predicate AllTrue(bs: seq<bool>) { forall i | 0 <= i < |bs| :: bs[i] }

  lemma NotAllTrue(bs: seq<bool>, i: nat)
    requires i < |bs| && !bs[i]
    ensures !AllTrue(bs)
  {}

  lemma AllTrueFirst(bs: seq<bool>)
    requires bs != []
    ensures AllTrue(bs) == (bs[0] && AllTrue(bs[1..]))
  {
    assert forall i | 0 < i < |bs| :: bs[i] == bs[1..][i - 1];
  }

  lemma {:induction false} AlignedWhiteSpace(compact: bool, depth: nat, pretty: bool)
    ensures Aligned(Gen.WhiteSpace(compact, depth), pretty, true)
  {
    WhiteSpaceIsSpace(compact, depth);
    AlignedPlain(Gen.WhiteSpace(compact, depth), pretty);
  }

  /** Strings and keys are clean at every depth. */
  predicate CleanStrings(v: Variant) {
    match v
    case Str(s) => Clean(s)
    case List(elements) => forall e | e in elements :: CleanStrings(e)
    case Map(members) => forall k | k in members :: Clean(k) && CleanStrings(members[k])
    case _ => true
  }

  /** No float inside `v` is spelled with a `+`. */
  predicate NoPlus(v: Variant, fmt: Gen.FloatFormat) {
    match v
    case Float(x) => '+' !in fmt(x)
    case List(elements) => forall e | e in elements :: NoPlus(e, fmt)
    case Map(members) => forall k | k in members :: NoPlus(members[k], fmt)
    case _ => true
  }

  lemma NumeralAligned(n: Numeral, pretty: bool)
    requires n.Valid()
    ensures Aligned(n.Spelling(), pretty, '+' !in n.Spelling())
  {
    SpellingPlain(n);
    AlignedPlain(n.Spelling(), pretty);
  }

  lemma SpellingPlain(n: Numeral)
    requires n.Valid()
    ensures forall i | 0 <= i < |n.Spelling()| :: n.Spelling()[i] !in "\"[]n"
  {
    var a, b, c := if n.negative then "-" else "", n.FractionPart(), n.exponent.Spelling();
    assert (forall x | x in a :: x !in "\"[]n") && (forall x | x in n.whole :: x !in "\"[]n");
    assert (forall x | x in b :: x !in "\"[]n") && (forall x | x in c :: x !in "\"[]n");
    assert forall x | x in n.Spelling() :: x in a || x in n.whole || x in b || x in c;
  }

  lemma WordAligned(b: bool, pretty: bool)
    ensures Aligned(if b then "true" else "false", pretty, true) && Aligned("", pretty, true)
  {
    hide Aligned;
    AlignedPlain("", pretty);
    AlignedPlain(if b then "true" else "false", pretty);
  }

  lemma ScalarAligned(v: Variant, compact: bool, depth: nat, fmt: Gen.FloatFormat)
    requires !v.List? && !v.Map? && CleanStrings(v) && FloatsSpelled(v, fmt)
    ensures Aligned(Gen.Text(v, compact, depth, fmt), !compact, NoPlus(v, fmt))
  {
    hide Aligned, Gen.Quoted, IntText;
    match v
    case Invalid => WordAligned(true, !compact);
    case Null => WordAligned(true, !compact);
    case Bool(b) => WordAligned(b, !compact);
    case Int(n) => IntAligned(n, !compact);
    case Float(x) =>
      var n: Numeral :| n.Valid() && n.Spelling() == fmt(x) && Denotes(n, x);
      NumeralAligned(n, !compact);
    case Str(s) => AlignedQuoted(s, !compact);
  }

  lemma IntAligned(n: int, pretty: bool)
    ensures Aligned(IntText(n), pretty, true)
  {
    hide Aligned, IntText;
    NumeralAligned(IntNumeral(n), pretty);
    AnyAligned(IntText(n), pretty, '+' !in IntText(n));
  }

  lemma {:induction false} TextAligned(v: Variant, compact: bool, depth: nat, fmt: Gen.FloatFormat)
    requires CleanStrings(v) && FloatsSpelled(v, fmt)
    ensures Aligned(Gen.Text(v, compact, depth, fmt), !compact, NoPlus(v, fmt))
    decreases v, 1
  {
    hide Aligned, Gen.MemberText, Gen.ElementText, Gen.ObjectText, Gen.ArrayText, NoPlus;
    if v.Map? {
      MembersAligned(v, compact, depth, fmt);
      ObjectAligned(v, compact, depth, fmt);
    } else if v.List? {
      ElementsAligned(v, compact, depth, fmt);
      ArrayAligned(v, compact, depth, fmt);
    } else {
      ScalarAligned(v, compact, depth, fmt);
    }
  }

  lemma {:induction false} MembersAligned(v: Variant, compact: bool, depth: nat, fmt: Gen.FloatFormat)
    requires v.Map? && CleanStrings(v) && FloatsSpelled(v, fmt)
    ensures forall k | k in v.members ::
           Aligned(Gen.MemberText(v, k, compact, depth, fmt), !compact, NoPlus(v.members[k], fmt))
    decreases v, 0
  {
    hide Aligned, Gen.Text, Gen.MemberText, NoPlus;
    forall k | k in v.members ensures Aligned(Gen.MemberText(v, k, compact, depth, fmt), !compact,
        NoPlus(v.members[k], fmt)) {
      TextAligned(v.members[k], compact, depth + 1, fmt);
      MemberAligned(v, k, compact, depth, fmt, NoPlus(v.members[k], fmt));
    }
  }

  lemma {:induction false} ElementsAligned(v: Variant, compact: bool, depth: nat, fmt: Gen.FloatFormat)
    requires v.List? && CleanStrings(v) && FloatsSpelled(v, fmt)
    ensures forall e | e in v.elements :: Aligned(Gen.ElementText(e, compact, depth, fmt), !compact, NoPlus(e, fmt))
    decreases v, 0
  {
    hide Aligned, Gen.Text, Gen.ElementText, NoPlus;
    forall e | e in v.elements ensures Aligned(Gen.ElementText(e, compact, depth, fmt), !compact, NoPlus(e, fmt)) {
      TextAligned(e, compact, depth + 1, fmt);
      ElementAligned(e, compact, depth, fmt, NoPlus(e, fmt));
    }
  }

  lemma ElementAligned(e: Variant, compact: bool, depth: nat, fmt: Gen.FloatFormat, clean: bool)
    requires Aligned(Gen.Text(e, compact, depth + 1, fmt), !compact, clean)
    ensures Aligned(Gen.ElementText(e, compact, depth, fmt), !compact, clean)
  {
    hide Aligned, Gen.Text;
    AlignedWhiteSpace(compact, depth + 1, !compact);
    AlignedConcat(Gen.WhiteSpace(compact, depth + 1), Gen.Text(e, compact, depth + 1, fmt), !compact, true, clean);
  }

  lemma MemberAligned(m: Variant, key: string, compact: bool, depth: nat, fmt: Gen.FloatFormat, clean: bool)
    requires m.Map? && key in m.members && Clean(key)
    requires Aligned(Gen.Text(m.members[key], compact, depth + 1, fmt), !compact, clean)
    ensures Aligned(Gen.MemberText(m, key, compact, depth, fmt), !compact, clean)
  {
    hide Aligned, Gen.Text;
    var w, q := Gen.WhiteSpace(compact, depth + 1), Gen.Quoted(key);
    AlignedWhiteSpace(compact, depth + 1, !compact);
    AlignedQuoted(key, !compact);
    PlainParts(!compact);
    AlignedConcat(w, q, !compact, true, true);
    AlignedConcat(w + q, ": ", !compact, true, true);
    AlignedConcat(w + q + ": ", Gen.Text(m.members[key], compact, depth + 1, fmt), !compact, true, clean);
  }

  function CleanKeys(m: map<string, Variant>, keys: seq<string>, fmt: Gen.FloatFormat): (bs: seq<bool>)
    requires forall k | k in keys :: k in m
    ensures |bs| == |keys| && forall i | 0 <= i < |keys| :: bs[i] == NoPlus(m[keys[i]], fmt)
  {
    seq(|keys|, i requires 0 <= i < |keys| => NoPlus(m[keys[i]], fmt))
  }

  lemma CleanMembers(m: map<string, Variant>, keys: seq<string>, fmt: Gen.FloatFormat)
    requires forall k :: k in keys <==> k in m
    ensures AllTrue(CleanKeys(m, keys, fmt)) == NoPlus(Map(m), fmt)
  {
    var bs := CleanKeys(m, keys, fmt);
    if AllTrue(bs) {
      forall k | k in m ensures NoPlus(m[k], fmt) {
        var i :| 0 <= i < |keys| && keys[i] == k;
        assert bs[i];
      }
    }
  }

  function CleanElements(elements: seq<Variant>, fmt: Gen.FloatFormat): (bs: seq<bool>)
    ensures |bs| == |elements| && forall i | 0 <= i < |elements| :: bs[i] == NoPlus(elements[i], fmt)
  {
    seq(|elements|, i requires 0 <= i < |elements| => NoPlus(elements[i], fmt))
  }

  lemma CleanList(elements: seq<Variant>, fmt: Gen.FloatFormat)
    ensures AllTrue(CleanElements(elements, fmt)) == NoPlus(List(elements), fmt)
  {
    var bs := CleanElements(elements, fmt);
    if AllTrue(bs) {
      forall e | e in elements ensures NoPlus(e, fmt) {
        var i :| 0 <= i < |elements| && elements[i] == e;
        assert bs[i];
      }
    }
  }

  lemma ObjectAligned(m: Variant, compact: bool, depth: nat, fmt: Gen.FloatFormat)
    requires m.Map?
    requires forall k | k in m.members ::
           Aligned(Gen.MemberText(m, k, compact, depth, fmt), !compact, NoPlus(m.members[k], fmt))
    ensures Aligned(Gen.ObjectText(m, compact, depth, fmt), !compact, NoPlus(m, fmt))
  {
    hide Aligned, Gen.MemberText, Gen.Join, NoPlus;
    var keys := SortedKeys(m.members.Keys);
    var body := Gen.Join(Gen.MemberTexts(m, keys, compact, depth, fmt));
    var w := Gen.WhiteSpace(compact, depth);
    AlignedJoin(Gen.MemberTexts(m, keys, compact, depth, fmt), !compact, CleanKeys(m.members, keys, fmt));
    CleanMembers(m.members, keys, fmt);
    PlainParts(!compact);
    AlignedWhiteSpace(compact, depth, !compact);
    AlignedConcat("{", body, !compact, true, NoPlus(m, fmt));
    AlignedConcat("{" + body, w, !compact, NoPlus(m, fmt), true);
    AlignedConcat("{" + body + w, "}", !compact, NoPlus(m, fmt), true);
  }

  /** In pretty form, whatever follows the opening bracket starts a new line. */
  lemma BodyStarts(v: Variant, depth: nat, fmt: Gen.FloatFormat)
    requires v.List?
    ensures var s := Gen.Join(Gen.ElementTexts(v.elements, false, depth, fmt)) + Gen.WhiteSpace(false, depth);
            s != "" && s[0] == '\r'
  {
    hide Gen.Text;
    var parts := Gen.ElementTexts(v.elements, false, depth, fmt);
    if parts != [] {
      assert parts[0][0] == '\r';
      assert Gen.Join(parts)[0] == parts[0][0];
    } else {
      assert Gen.Join(parts) == "";
    }
  }

  lemma ArrayAligned(v: Variant, compact: bool, depth: nat, fmt: Gen.FloatFormat)
    requires v.List?
    requires forall e | e in v.elements :: Aligned(Gen.ElementText(e, compact, depth, fmt), !compact, NoPlus(e, fmt))
    ensures Aligned(Gen.ArrayText(v, compact, depth, fmt), !compact, NoPlus(v, fmt))
  {
    hide Aligned, Gen.Join, Gen.ElementText, NoPlus;
    var parts := Gen.ElementTexts(v.elements, compact, depth, fmt);
    var body := Gen.Join(parts);
    var w := Gen.WhiteSpace(compact, depth);
    if !compact { BodyStarts(v, depth, fmt); }
    AlignedJoin(parts, !compact, CleanElements(v.elements, fmt));
    CleanList(v.elements, fmt);
    AlignedWhiteSpace(compact, depth, !compact);
    AlignedConcat(body, w, !compact, NoPlus(v, fmt), true);
    AlignedArray(body + w, !compact, NoPlus(v, fmt));
    assert "[" + (body + w) + "]" == "[" + body + w + "]";
  }

  // ---- what a value that comes back must be like

  lemma {:induction false} WidenSound(v: Variant)
    requires Sound(Widen(v))
    ensures CleanStrings(v)
    ensures v.List? ==> forall e | e in v.elements :: e != Invalid
  {
    match v
    case List(elements) =>
      forall e | e in elements ensures CleanStrings(e) && e != Invalid {
        var i :| 0 <= i < |elements| && elements[i] == e;
        assert Widen(v).elements[i] in Widen(v).elements;
        WidenSound(e);
      }
    case Map(members) =>
      forall k | k in members ensures Clean(k) && CleanStrings(members[k]) {
        assert k in Widen(v).members;
        WidenSound(members[k]);
      }
    case _ =>
  }

  /** Sound, without nulls or a `+` and, in pretty form, without empty lists: then legible. */
  lemma {:induction false} LegibleIf(v: Variant, compact: bool, fmt: Gen.FloatFormat)
    requires Sound(Widen(v)) && NoNull(Widen(v)) && NoPlus(v, fmt) && (compact || NoEmptyList(Widen(v)))
    ensures Legible(v, compact, fmt)
  {
    match v
    case List(elements) =>
      assert |Widen(v).elements| == |elements|;
      forall e | e in elements ensures !Empty(e) && Legible(e, compact, fmt) {
        var i :| 0 <= i < |elements| && elements[i] == e;
        assert Widen(v).elements[i] in Widen(v).elements;
        LegibleIf(e, compact, fmt);
      }
    case Map(members) =>
      forall k | k in members ensures Clean(k) && Legible(members[k], compact, fmt) {
        assert k in Widen(v).members;
        LegibleIf(members[k], compact, fmt);
      }
    case _ =>
  }

  /** A container that comes back is legible: nothing else can slip through. */
  lemma ReadBackIsLegible(v: Variant, compact: bool, fmt: Gen.FloatFormat)
    requires v.List? || v.Map?
    requires FloatsSpelled(v, fmt)
    requires var p := Parse(Gen.Text(v, compact, 0, fmt)); p.Parsed? && p.value == Widen(v)
    ensures Legible(v, compact, fmt)
  {
    var t := Gen.Text(v, compact, 0, fmt);
    var r := ContainerText(v, compact, fmt);
    hide *;
    ParsedIsSound(t);
    WidenSound(v);
    TextAligned(v, compact, 0, fmt);
    FactGives(t, r, Widen(v), !compact, NoPlus(v, fmt));
    LegibleIf(v, compact, fmt);
  }

  /** What the parser leaves of a container's text that it reads to its end. */
  lemma ContainerText(v: Variant, compact: bool, fmt: Gen.FloatFormat) returns (r: string)
    requires v.List? || v.Map?
    requires var p := Parse(Gen.Text(v, compact, 0, fmt)); p.Parsed? && p.value == Widen(v)
    ensures ValueFact(Gen.Text(v, compact, 0, fmt), r, Widen(v)) && Skip(r) == ""
  {
    hide *;
    var t := Gen.Text(v, compact, 0, fmt);
    TextHead(v, compact, fmt);
    WidenKeeps(v);
    if v.List? {
      ListParsed(t);
      ArrayFacts(t);
      r := ParseArray(t).rest;
    } else {
      MapParsed(t);
      ObjectFacts(t);
      r := ParseObject(t).rest;
    }
  }

  lemma TextHead(v: Variant, compact: bool, fmt: Gen.FloatFormat)
    requires v.List? || v.Map?
    ensures var t := Gen.Text(v, compact, 0, fmt); t != "" && t[0] == (if v.List? then '[' else '{') && Skip(t) == t
  {
    hide Gen.Join, Gen.WhiteSpace, Gen.ElementTexts, Gen.MemberTexts, SortedKeys;
  }

  lemma WidenKeeps(v: Variant)
    ensures v.List? ==> Widen(v).List?
    ensures v.Map? ==> Widen(v).Map?
  {}

  lemma ListParsed(t: string)
    requires t != "" && t[0] == '[' && Skip(t) == t && Parse(t).Parsed? && !Parse(t).value.Invalid?
    ensures ParseArray(t).Parsed? && Parse(t).value == List(ParseArray(t).value) && Skip(ParseArray(t).rest) == ""
  {
    hide ParseArray, ParseObject, Skip;
  }

  lemma MapParsed(t: string)
    requires t != "" && t[0] == '{' && Skip(t) == t && Parse(t).Parsed? && !Parse(t).value.Invalid?
    ensures ParseObject(t).Parsed? && Parse(t).value == Map(ParseObject(t).value) && Skip(ParseObject(t).rest) == ""
  {
    hide ParseArray, ParseObject, Skip;
  }

  lemma FactGives(t: string, r: string, v: Variant, pretty: bool, clean: bool)
    requires ValueFact(t, r, v) && Aligned(t, pretty, clean) && Skip(r) == ""
    ensures Sound(v) && NoNull(v) && clean && (pretty ==> NoEmptyList(v))
  {
    hide Sound, NoNull, NoEmptyList, Reaches, Aligned, Tight, WithoutN;
    NoPlusLeft(t, r, pretty, clean);
    if pretty { TightToEnd(t, r, clean); }
  }

  /** A text parsed to its end has no `n` and no `+` outside quotes. */
  lemma NoPlusLeft(t: string, r: string, pretty: bool, clean: bool)
    requires Aligned(t, pretty, clean) && Reaches(t, r, 0) && Skip(r) == ""
    ensures WithoutN(t) && clean
  {
    SkipLeft(r);
  }

  /** A text parsed to its end with no bracket left open had none left open on the way. */
  lemma TightToEnd(t: string, r: string, clean: bool)
    requires Aligned(t, true, clean) && Reaches(t, r, 0) && Skip(r) == ""
    ensures Tight(t, r, 0)
  {
    SkipLeft(r);
  }
}
