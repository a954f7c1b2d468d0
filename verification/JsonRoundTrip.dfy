/** Parsing what the generator writes: for which values the two are inverse, and what comes back otherwise. */
module JsonRoundTrip {
  import opened Text
  import opened Variant
  import opened Decimal
  import opened JsonParserSpec
  import opened JsonNumbers
  import Gen = JsonGenerator

  /** A string the scan for the closing quote reads back: no quote inside, no backslash at the end. */
  predicate Clean(s: string) {
    '"' !in s && (s == "" || s[|s| - 1] != '\\')
  }

  /**
    What the model assumes of the stream's float format: it writes the floats inside `v` as numerals
    of their value.
   */
  ghost predicate FloatsSpelled(v: Variant, fmt: Gen.FloatFormat) {
    match v
    case Float(x) => exists n: Numeral :: n.Valid() && n.Spelling() == fmt(x) && Denotes(n, x)
    case List(elements) => forall e | e in elements :: FloatsSpelled(e, fmt)
    case Map(members) => forall k | k in members :: FloatsSpelled(members[k], fmt)
    case _ => true
  }

  /** `v` with every number as `parseNumber` stores it, a float. */
  function Widen(v: Variant): Variant {
    match v
    case Int(n) => Float(n as real)
    case List(elements) => List(seq(|elements|, i requires 0 <= i < |elements| => Widen(elements[i])))
    case Map(members) => Map(map k | k in members :: Widen(members[k]))
    case _ => v
  }

  predicate Empty(v: Variant) { v.Invalid? || v.Null? }

  /** The values whose text the parser can follow to its end. */
  predicate Legible(v: Variant, compact: bool, fmt: Gen.FloatFormat) {
    match v
    case Float(x) => '+' !in fmt(x)
    case Str(s) => Clean(s)
    case List(elements) =>
      && (compact || elements != [])
      && forall e | e in elements :: !Empty(e) && Legible(e, compact, fmt)
    case Map(members) => forall k | k in members :: Clean(k) && Legible(members[k], compact, fmt)
    case _ => true
  }

  /** What a legible value comes back as: bare numbers lose their sign, a null member becomes an invalid one. */
  function ReadBack(v: Variant, fmt: Gen.FloatFormat): Variant {
    match v
    case Int(n) => Float((if n < 0 then -n else n) as real)
    case Float(x) => Float(if BareNegative(fmt(x)) then -x else x)
    case Null => Invalid
    case List(elements) => List(seq(|elements|, i requires 0 <= i < |elements| => ReadBack(elements[i], fmt)))
    case Map(members) => Map(map k | k in members :: ReadBack(members[k], fmt))
    case _ => v
  }

  /** In front of `r` a value ends. */
  ghost predicate Delim(r: string) {
    Skip(r) != "" && Skip(r)[0] in ",]}"
  }

  lemma {:induction false} WhiteSpaceIsSpace(compact: bool, depth: nat)
    ensures AllSpace(Gen.WhiteSpace(compact, depth))
  {
    if !compact { TabIsSpace(depth); }
  }

  lemma {:induction false} TabIsSpace(n: nat)
    ensures AllSpace(Gen.Tab(n))
  {
    if n > 0 { TabIsSpace(n - 1); }
  }

  lemma {:induction false} SkipTwice(s: string)
    ensures Skip(Skip(s)) == Skip(s)
  {}

  // ---- one value, element or member at a time

  lemma StringReads(s: string, r: string)
    requires Clean(s)
    ensures ParseString(Gen.Quoted(s) + r) == Parsed(Str(s), Skip(r))
  {
    var body := s + ['"'] + r;
    assert (Gen.Quoted(s) + r)[1..] == body;
    IndexOfPrefix(s, r, '"');
    assert body[..|s|] == s && body[|s| + 1..] == r;
  }

  lemma WordReads(word: string, r: string)
    requires word != "" && r != "" && !IsAlpha(r[0])
    requires forall i | 0 <= i < |word| :: IsAlpha(word[i])
    ensures ParseLiteral(word + r) == Parsed(LiteralOf(word), Skip(r))
  {
    hide Run, LiteralOf;
    RunOfPrefix(word, r, IsAlpha);
    assert (word + r)[..|word|] == word && (word + r)[|word|..] == r;
    assert Skip(word + r) == word + r;
  }

  /** `ParseValue` hands the text to the function for its first character, and skips the white space behind. */
  lemma ValueOf(s: string, v: Variant, r: string)
    requires s != "" && !IsSpace(s[0])
    requires if s[0] == '"' then ParseString(s) == Parsed(v, r)
             else if IsDigit(s[0]) || s[0] == '-' then ParseNumber(s) == Parsed(v, r)
             else if s[0] == '{' then v.Map? && ParseObject(s) == Parsed(v.members, r)
             else if s[0] == '[' then v.List? && ParseArray(s) == Parsed(v.elements, r)
             else ParseLiteral(s) == Parsed(v, r)
    ensures ParseValue(s) == Parsed(v, Skip(r))
  {
    assert Skip(s) == s;
  }

  /** In front of any text that may follow a value, `text` is read as `v`. */
  ghost predicate Reads(text: string, v: Variant) {
    forall r | Delim(r) :: ParseValue(text + r) == Parsed(v, Skip(r))
  }

  lemma ValueSkip(s: string)
    ensures ParseValue(Skip(s)) == ParseValue(s)
  {
    hide ParseString, ParseNumber, ParseObject, ParseArray, ParseLiteral, Skip;
    SkipTwice(s);
  }

  lemma NothingReads()
    ensures Reads("", Invalid)
  {
    forall r | Delim(r) ensures ParseValue("" + r) == Parsed(Invalid, Skip(r)) {
      assert "" + r == r;
      ValueSkip(r);
      SkipTwice(r);
      NotALiteral(Skip(r));
      ValueOf(Skip(r), Invalid, Skip(r));
    }
  }

  lemma NotALiteral(s: string)
    requires s != "" && s[0] in ",]}"
    ensures ParseLiteral(s) == Parsed(Invalid, s)
  {
    assert Skip(s) == s;
  }

  lemma BoolReads(b: bool)
    ensures Reads(if b then "true" else "false", Bool(b))
  {
    var word := if b then "true" else "false";
    forall r | Delim(r) ensures ParseValue(word + r) == Parsed(Bool(b), Skip(r)) {
      WordReads(word, r);
      SkipTwice(r);
      ValueOf(word + r, Bool(b), Skip(r));
    }
  }

  lemma NumeralReads(n: Numeral)
    requires n.Valid() && !n.exponent.HasPlus()
    ensures Reads(n.Spelling(), Float(Reading(n)))
  {
    var text := n.Spelling();
    forall r | Delim(r) ensures ParseValue(text + r) == Parsed(Float(Reading(n)), Skip(r)) {
      NumberReads(n, r);
      SkipTwice(r);
      assert (text + r)[0] == if n.negative then '-' else n.whole[0];
      ValueOf(text + r, Float(Reading(n)), After(n, r));
    }
  }

  lemma QuotedReads(s: string)
    requires Clean(s)
    ensures Reads(Gen.Quoted(s), Str(s))
  {
    forall r | Delim(r) ensures ParseValue(Gen.Quoted(s) + r) == Parsed(Str(s), Skip(r)) {
      StringReads(s, r);
      SkipTwice(r);
      ValueOf(Gen.Quoted(s) + r, Str(s), Skip(r));
    }
  }

  // ---- lists

  /** The text of an element starts with neither white space nor the closing bracket. */
  ghost predicate Starts(text: string) {
    text != "" && !IsSpace(text[0]) && text[0] != ']'
  }

  /** `parseArray`'s loop passes over one element and the comma behind it. */
  lemma ElementStep(text: string, r: string, v: Variant, done: seq<Variant>)
    requires Starts(text) && Reads(text, v) && v != Invalid && Delim(r)
    ensures ParseElements(text + r, done)
         == ParseElements(Skip(if Skip(r)[0] == ',' then Skip(r)[1..] else Skip(r)), done + [v])
  {
    assert Skip(text + r) == text + r;
  }

  lemma ElementsEnd(r: string, done: seq<Variant>)
    ensures ParseElements("]" + r, done) == Parsed(done, Skip(r))
  {
    assert ("]" + r)[1..] == r;
  }

  ghost predicate ListReads(w: string, texts: seq<string>, vs: seq<Variant>) {
    && AllSpace(w) && |texts| == |vs|
    && forall i | 0 <= i < |texts| :: Starts(texts[i]) && Reads(texts[i], vs[i]) && vs[i] != Invalid
  }

  function Prefixed(w: string, texts: seq<string>): (parts: seq<string>)
    ensures |parts| == |texts| && forall i | 0 <= i < |texts| :: parts[i] == w + texts[i]
  {
    seq(|texts|, i requires 0 <= i < |texts| => w + texts[i])
  }

  lemma PrefixedTail(w: string, texts: seq<string>)
    requires texts != []
    ensures Prefixed(w, texts)[1..] == Prefixed(w, texts[1..])
  {}

  lemma MembersTail(w: string, keys: seq<string>, texts: seq<string>)
    requires |keys| == |texts| && keys != []
    ensures Members(w, keys, texts)[1..] == Members(w, keys[1..], texts[1..])
  {}

  /** The loop behind an element, if another one follows. */
  lemma ElementsComma(text: string, next: string, v: Variant, done: seq<Variant>)
    requires Starts(text) && Reads(text, v) && v != Invalid
    ensures ParseElements(text + (", " + next), done) == ParseElements(Skip(next), done + [v])
  {
    CommaSkipped(next);
    ElementStep(text, ", " + next, v, done);
  }

  lemma CommaSkipped(next: string)
    ensures var t := ", " + next; Skip(t) == t && Skip(t[1..]) == Skip(next)
  {
    assert (", " + next)[1..] == " " + next;
    SkipPast(" ", next);
  }

  /** The loop behind the last element. */
  lemma ElementsLast(text: string, tail: string, r: string, v: Variant, done: seq<Variant>)
    requires Starts(text) && Reads(text, v) && v != Invalid && Skip(tail) == "]" + r
    ensures ParseElements(text + tail, done) == Parsed(done + [v], Skip(r))
  {
    ElementStep(text, tail, v, done);
    SkipTwice(tail);
    ElementsEnd(r, done + [v]);
  }

  /** The loop reads all elements of a printed list, up to and including the bracket. */
  lemma {:induction false} ElementsRead(w: string, texts: seq<string>, vs: seq<Variant>, tail: string, r: string,
      done: seq<Variant>)
    requires ListReads(w, texts, vs) && texts != [] && Skip(tail) == "]" + r
    ensures var s := Skip(Gen.Join(Prefixed(w, texts)) + tail);
            Starts(s) && ParseElements(s, done) == Parsed(done + vs, Skip(r))
  {
    hide ParseElements, ParseValue, Gen.Join, Reads, Starts;
    Gen.JoinFirst(Prefixed(w, texts), tail);
    PrefixedTail(w, texts);
    var next := Gen.Join(Prefixed(w, texts[1..])) + tail;
    var t := if |texts| == 1 then tail else ", " + next;
    SkipTo(w, texts[0], t);
    assert (done + [vs[0]]) + vs[1..] == done + vs;
    if |texts| == 1 {
      assert vs == [vs[0]];
      ElementsLast(texts[0], tail, r, vs[0], done);
    } else {
      ElementsComma(texts[0], next, vs[0], done);
      ElementsRead(w, texts[1..], vs[1..], tail, r, done + [vs[0]]);
    }
  }

  lemma SkipTo(w: string, text: string, t: string)
    requires AllSpace(w) && Starts(text)
    ensures Skip((w + text) + t) == text + t && Starts(text + t)
  {
    assert (w + text) + t == w + (text + t);
    SkipPast(w, text + t);
    assert Skip(text + t) == text + t;
  }

  lemma ArrayReads(w: string, texts: seq<string>, vs: seq<Variant>, w': string, r: string)
    requires ListReads(w, texts, vs) && AllSpace(w') && (texts == [] ==> w' == "")
    ensures ParseArray("[" + Gen.Join(Prefixed(w, texts)) + w' + "]" + r) == Parsed(vs, Skip(r))
  {
    assert |texts| == |vs|;
    hide ParseElements, Gen.Join, Prefixed, ListReads;
    var body := Gen.Join(Prefixed(w, texts));
    var tail := w' + ("]" + r);
    var s := "[" + body + w' + "]" + r;
    Enclosed("[", body, w', "]", r);
    SkipPast(w', "]" + r);
    assert Skip(s) == s;
    if texts == [] {
      JoinNone(w);
      assert s[1..] == "]" + r;
      ElementsEnd(r, []);
    } else {
      ElementsRead(w, texts, vs, tail, r, []);
      ElementsSkip(body + tail, []);
      assert [] + vs == vs;
    }
  }

  lemma JoinNone(w: string)
    ensures Gen.Join(Prefixed(w, [])) == ""
  {}

  /** The loop does not see white space in front of an element. */
  lemma ElementsSkip(s: string, done: seq<Variant>)
    requires Starts(Skip(s))
    ensures ParseElements(s, done) == ParseElements(Skip(s), done)
  {
    SkipTwice(s);
  }

  // ---- maps

  /** `parseObject`'s loop passes over one member. */
  lemma MemberStep(key: string, text: string, r: string, v: Variant, done: map<string, Variant>)
    requires Clean(key) && Reads(text, v) && Delim(r)
    ensures ParseMembers(Gen.Quoted(key) + (": " + (text + r)), done) == ParseMembers(Skip(r), done[key := v])
  {
    var s1 := ": " + (text + r);
    StringReads(key, s1);
    ColonReads(text, r, v);
    SkipTwice(r);
    MemberUnfold(Gen.Quoted(key) + s1, key, s1, v, Skip(r), done);
  }

  lemma ColonReads(text: string, r: string, v: Variant)
    requires Reads(text, v) && Delim(r)
    ensures var s := ": " + (text + r); Skip(s) == s && ParseValue(Skip(s[1..])) == Parsed(v, Skip(r))
  {
    hide ParseValue;
    assert (": " + (text + r))[1..] == " " + (text + r);
    SkipPast(" ", text + r);
    ValueSkip(text + r);
  }

  /** One turn of `parseObject`'s loop on a well-formed member. */
  lemma MemberUnfold(s: string, key: string, s1: string, v: Variant, s2: string, done: map<string, Variant>)
    requires s != "" && s[0] == '"' && ParseString(s) == Parsed(Str(key), s1)
    requires Skip(s1) == s1 && s1 != "" && s1[0] == ':'
    requires ParseValue(Skip(s1[1..])) == Parsed(v, s2)
    ensures ParseMembers(s, done) == ParseMembers(Skip(s2), done[key := v])
  {}

  lemma MembersEnd(r: string, done: map<string, Variant>)
    ensures ParseMembers("}" + r, done) == Parsed(done, Skip(r))
  {
    assert ("}" + r)[1..] == r;
  }

  lemma MembersComma(s: string, done: map<string, Variant>)
    ensures ParseMembers(", " + s, done) == ParseMembers(Skip(s), done)
  {
    assert (", " + s)[1..] == " " + s;
    SkipPast(" ", s);
  }

  ghost predicate MapReads(w: string, keys: seq<string>, texts: seq<string>, vs: seq<Variant>) {
    && AllSpace(w) && |keys| == |texts| == |vs|
    && forall i | 0 <= i < |keys| :: Clean(keys[i]) && Reads(texts[i], vs[i])
  }

  function Members(w: string, keys: seq<string>, texts: seq<string>): (parts: seq<string>)
    requires |keys| == |texts|
    ensures |parts| == |keys|
    ensures forall i | 0 <= i < |keys| :: parts[i] == w + Gen.Quoted(keys[i]) + ": " + texts[i]
  {
    seq(|keys|, i requires 0 <= i < |keys| => w + Gen.Quoted(keys[i]) + ": " + texts[i])
  }

  /** `done` with the pairs assigned one after the other. */
  function Assign(done: map<string, Variant>, keys: seq<string>, vs: seq<Variant>): map<string, Variant>
    requires |keys| == |vs|
    decreases |keys|
  {
    if keys == [] then done else Assign(done[keys[0] := vs[0]], keys[1..], vs[1..])
  }

  lemma RegroupMember(w: string, key: string, text: string, t: string)
    ensures (w + Gen.Quoted(key) + ": " + text) + t == w + (Gen.Quoted(key) + (": " + (text + t)))
  {}

  lemma {:induction false} MembersRead(w: string, keys: seq<string>, texts: seq<string>, vs: seq<Variant>,
      tail: string, r: string, done: map<string, Variant>)
    requires MapReads(w, keys, texts, vs) && keys != [] && Skip(tail) == "}" + r
    ensures var s := Skip(Gen.Join(Members(w, keys, texts)) + tail);
            s != "" && s[0] == '"' && ParseMembers(s, done) == Parsed(Assign(done, keys, vs), Skip(r))
  {
    hide ParseMembers, ParseValue, Gen.Join, Reads;
    Gen.JoinFirst(Members(w, keys, texts), tail);
    MembersTail(w, keys, texts);
    var next := Gen.Join(Members(w, keys[1..], texts[1..])) + tail;
    var t := if |keys| == 1 then tail else ", " + next;
    var s := Gen.Quoted(keys[0]) + (": " + (texts[0] + t));
    RegroupMember(w, keys[0], texts[0], t);
    SkipPast(w, s);
    assert Skip(s) == s;
    MemberStep(keys[0], texts[0], t, vs[0], done);
    var done' := done[keys[0] := vs[0]];
    if |keys| == 1 {
      MembersEnd(r, done');
    } else {
      assert Skip(t) == t;
      MembersComma(next, done');
      MembersRead(w, keys[1..], texts[1..], vs[1..], tail, r, done');
    }
  }

  lemma ObjectReads(w: string, keys: seq<string>, texts: seq<string>, vs: seq<Variant>, w': string, r: string)
    requires MapReads(w, keys, texts, vs) && AllSpace(w')
    ensures var p := ParseObject("{" + Gen.Join(Members(w, keys, texts)) + w' + "}" + r);
            p.Parsed? && p.value == Assign(map[], keys, vs) && Skip(p.rest) == Skip(r)
  {
    var body := Gen.Join(Members(w, keys, texts));
    var tail := w' + ("}" + r);
    var s := "{" + body + w' + "}" + r;
    Enclosed("{", body, w', "}", r);
    SkipPast(w', "}" + r);
    assert Skip(s) == s;
    SkipTwice(r);
    if keys == [] {
      assert s[1..] == tail;
      assert ("}" + r)[1..] == r;
    } else {
      MembersRead(w, keys, texts, vs, tail, r, map[]);
    }
  }

  // ---- any value

  lemma {:induction false} AssignIsMap(done: map<string, Variant>, keys: seq<string>, m: map<string, Variant>,
      fmt: Gen.FloatFormat)
    requires forall k | k in keys :: k in m
    requires forall k :: k in m ==> k in done || k in keys
    requires forall k | k in done :: k in m && done[k] == ReadBack(m[k], fmt)
    ensures Assign(done, keys, ReadBacks(keys, m, fmt)) == ReadBack(Map(m), fmt).members
    decreases |keys|
  {
    hide *;
    if keys == [] {
      AssignNone(done);
      DoneIsAll(done, m, fmt);
    } else {
      var done' := done[keys[0] := ReadBack(m[keys[0]], fmt)];
      AssignFirst(done, keys, m, fmt);
      assert keys[0] in keys && forall k :: k in keys <==> k == keys[0] || k in keys[1..];
      AssignIsMap(done', keys[1..], m, fmt);
    }
  }

  lemma AssignNone(done: map<string, Variant>)
    ensures Assign(done, [], []) == done
  {}

  lemma AssignFirst(done: map<string, Variant>, keys: seq<string>, m: map<string, Variant>, fmt: Gen.FloatFormat)
    requires keys != [] && forall k | k in keys :: k in m
    ensures forall k | k in keys[1..] :: k in m
    ensures Assign(done, keys, ReadBacks(keys, m, fmt))
         == Assign(done[keys[0] := ReadBack(m[keys[0]], fmt)], keys[1..], ReadBacks(keys[1..], m, fmt))
  {
    hide ReadBack;
    assert ReadBacks(keys, m, fmt)[1..] == ReadBacks(keys[1..], m, fmt);
  }

  lemma DoneIsAll(done: map<string, Variant>, m: map<string, Variant>, fmt: Gen.FloatFormat)
    requires forall k :: k in m ==> k in done
    requires forall k | k in done :: k in m && done[k] == ReadBack(m[k], fmt)
    ensures ReadBack(Map(m), fmt).Map? && done == ReadBack(Map(m), fmt).members
  {
    hide ReadBack;
    AllAssigned(done, m, fmt);
  }

  lemma AllAssigned(done: map<string, Variant>, m: map<string, Variant>, fmt: Gen.FloatFormat)
    requires done.Keys == m.Keys && forall k | k in m :: done[k] == ReadBack(m[k], fmt)
    ensures ReadBack(Map(m), fmt).Map? && done == ReadBack(Map(m), fmt).members
  {}

  function ReadBacks(keys: seq<string>, m: map<string, Variant>, fmt: Gen.FloatFormat): (vs: seq<Variant>)
    requires forall k | k in keys :: k in m
    ensures |vs| == |keys| && forall i | 0 <= i < |keys| :: vs[i] == ReadBack(m[keys[i]], fmt)
  {
    seq(|keys|, i requires 0 <= i < |keys| => ReadBack(m[keys[i]], fmt))
  }

  function Texts(vs: seq<Variant>, compact: bool, depth: nat, fmt: Gen.FloatFormat): (texts: seq<string>)
    ensures |texts| == |vs| && forall i | 0 <= i < |vs| :: texts[i] == Gen.Text(vs[i], compact, depth, fmt)
  {
    seq(|vs|, i requires 0 <= i < |vs| => Gen.Text(vs[i], compact, depth, fmt))
  }

  function ValuesAt(keys: seq<string>, m: map<string, Variant>): (vs: seq<Variant>)
    requires forall k | k in keys :: k in m
    ensures |vs| == |keys| && forall i | 0 <= i < |keys| :: vs[i] == m[keys[i]]
  {
    seq(|keys|, i requires 0 <= i < |keys| => m[keys[i]])
  }

  lemma NumeralStarts(n: Numeral)
    requires n.Valid()
    ensures Starts(n.Spelling())
  {
    assert n.Spelling()[0] == if n.negative then '-' else n.whole[0];
  }

  lemma IntStarts(n: int)
    ensures Starts(IntText(n))
  {
    assert IntText(n)[0] == if n < 0 then '-' else NatText(n)[0];
  }

  /** Text between two outer characters. */
  lemma BracketStarts(first: string, body: string, space: string, last: string)
    requires Starts(first)
    ensures Starts(first + body + space + last)
  {
    assert (first + body + space + last)[0] == first[0];
  }

  lemma TextStarts(v: Variant, compact: bool, depth: nat, fmt: Gen.FloatFormat)
    requires !Empty(v) && FloatsSpelled(v, fmt)
    ensures Starts(Gen.Text(v, compact, depth, fmt))
  {
    hide Gen.Join, SortedKeys, Gen.MemberTexts, Gen.ElementTexts, Gen.WhiteSpace, IntText;
    match v
    case Float(x) =>
      var n: Numeral :| n.Valid() && n.Spelling() == fmt(x) && Denotes(n, x);
      NumeralStarts(n);
    case Int(n) => IntStarts(n);
    case Map(_) =>
      var texts := Gen.MemberTexts(v, SortedKeys(v.members.Keys), compact, depth, fmt);
      BracketStarts("{", Gen.Join(texts), Gen.WhiteSpace(compact, depth), "}");
    case List(elements) =>
      var texts := Gen.ElementTexts(elements, compact, depth, fmt);
      BracketStarts("[", Gen.Join(texts), Gen.WhiteSpace(compact, depth), "]");
    case _ =>
  }

  lemma NumeralOf(x: real, fmt: Gen.FloatFormat) returns (n: Numeral)
    requires FloatsSpelled(Float(x), fmt)
    ensures n.Valid() && n.Spelling() == fmt(x) && n.Value() == x
  {
    n :| n.Valid() && n.Spelling() == fmt(x) && Denotes(n, x);
    ValueDenotes(n, x);
  }

  lemma ReadingIs(n: Numeral, x: real, fmt: Gen.FloatFormat)
    requires n.Valid() && n.Spelling() == fmt(x) && n.Value() == x && '+' !in fmt(x)
    ensures !n.exponent.HasPlus() && Float(Reading(n)) == ReadBack(Float(x), fmt)
  {
    hide Numeral.Valid, Numeral.Spelling, Numeral.Value, Numeral.Magnitude, Numeral.Bare, Reading, BareNegative;
    SpellingShows(n);
    SignLost(n);
  }

  lemma FloatReads(x: real, fmt: Gen.FloatFormat)
    requires '+' !in fmt(x) && FloatsSpelled(Float(x), fmt)
    ensures Reads(fmt(x), ReadBack(Float(x), fmt))
  {
    hide *;
    var n := NumeralOf(x, fmt);
    ReadingIs(n, x, fmt);
    NumeralReads(n);
  }

  lemma ScalarReads(v: Variant, compact: bool, depth: nat, fmt: Gen.FloatFormat)
    requires !v.Map? && !v.List? && Legible(v, compact, fmt) && FloatsSpelled(v, fmt)
    ensures Reads(Gen.Text(v, compact, depth, fmt), ReadBack(v, fmt))
  {
    hide Reads, IntText, BareNegative, FloatsSpelled, Clean, Gen.Quoted;
    match v
    case Invalid => NothingReads();
    case Null => NothingReads();
    case Bool(b) => BoolReads(b);
    case Int(n) => IntTextReads(n);
    case Float(x) => FloatReads(x, fmt);
    case Str(s) => QuotedReads(s);
  }

  lemma IntTextReads(n: int)
    ensures Reads(IntText(n), Float((if n < 0 then -n else n) as real))
  {
    hide *;
    var m := IntNumeral(n);
    BareHasNoPlus(m);
    NumeralReads(m);
  }

  lemma BareHasNoPlus(n: Numeral)
    ensures n.Bare() ==> !n.exponent.HasPlus()
  {}

  lemma ContainerTextIs(v: Variant, compact: bool, depth: nat, fmt: Gen.FloatFormat)
    ensures v.Map? ==> Gen.Text(v, compact, depth, fmt) == Gen.ObjectText(v, compact, depth, fmt)
    ensures v.List? ==> Gen.Text(v, compact, depth, fmt) == Gen.ArrayText(v, compact, depth, fmt)
  {}

  /** Every legible value is read, wherever it stands, as its read-back. */
  lemma {:induction false} TextReads(v: Variant, compact: bool, depth: nat, fmt: Gen.FloatFormat)
    requires Legible(v, compact, fmt) && FloatsSpelled(v, fmt)
    ensures Reads(Gen.Text(v, compact, depth, fmt), ReadBack(v, fmt))
    decreases v, 2
  {
    hide *;
    ContainerTextIs(v, compact, depth, fmt);
    match v
    case Map(_) => ObjectTextReads(v, compact, depth, fmt);
    case List(_) => ArrayTextReads(v, compact, depth, fmt);
    case _ => ScalarReads(v, compact, depth, fmt);
  }

  lemma {:induction false} ObjectTextReads(v: Variant, compact: bool, depth: nat, fmt: Gen.FloatFormat)
    requires v.Map? && Legible(v, compact, fmt) && FloatsSpelled(v, fmt)
    ensures Reads(Gen.ObjectText(v, compact, depth, fmt), ReadBack(v, fmt))
    decreases v, 1
  {
    hide ParseObject, ParseValue, Legible, FloatsSpelled, Gen.Join;
    var text := Gen.ObjectText(v, compact, depth, fmt);
    forall r | Delim(r) ensures ParseValue(text + r) == Parsed(ReadBack(v, fmt), Skip(r)) {
      MapReadsBack(v, compact, depth, fmt, r);
      ValueOf(text + r, ReadBack(v, fmt), ParseObject(text + r).rest);
    }
  }

  lemma {:induction false} ArrayTextReads(v: Variant, compact: bool, depth: nat, fmt: Gen.FloatFormat)
    requires v.List? && Legible(v, compact, fmt) && FloatsSpelled(v, fmt)
    ensures Reads(Gen.ArrayText(v, compact, depth, fmt), ReadBack(v, fmt))
    decreases v, 1
  {
    hide ParseArray, ParseValue, Legible, FloatsSpelled, Gen.Join;
    var text := Gen.ArrayText(v, compact, depth, fmt);
    forall r | Delim(r) ensures ParseValue(text + r) == Parsed(ReadBack(v, fmt), Skip(r)) {
      ListReadsBack(v, compact, depth, fmt, r);
      ValueOf(text + r, ReadBack(v, fmt), Skip(r));
      SkipTwice(r);
    }
  }

  lemma {:induction false} ElementsReadBack(v: Variant, compact: bool, depth: nat, fmt: Gen.FloatFormat)
    requires v.List? && Legible(v, compact, fmt) && FloatsSpelled(v, fmt)
    ensures ListReads(Gen.WhiteSpace(compact, depth), Texts(v.elements, compact, depth, fmt), ReadBack(v, fmt).elements)
    decreases v, 0, 0
  {
    var texts := Texts(v.elements, compact, depth, fmt);
    var vs := ReadBack(v, fmt).elements;
    forall i | 0 <= i < |texts| ensures Starts(texts[i]) && Reads(texts[i], vs[i]) && vs[i] != Invalid {
      assert v.elements[i] in v.elements;
      TextStarts(v.elements[i], compact, depth, fmt);
      TextReads(v.elements[i], compact, depth, fmt);
    }
    WhiteSpaceIsSpace(compact, depth);
  }

  lemma ArrayTextParts(v: Variant, compact: bool, depth: nat, fmt: Gen.FloatFormat)
    requires v.List?
    ensures Gen.ElementTexts(v.elements, compact, depth, fmt)
         == Prefixed(Gen.WhiteSpace(compact, depth + 1), Texts(v.elements, compact, depth + 1, fmt))
  {}

  lemma {:induction false} ListReadsBack(v: Variant, compact: bool, depth: nat, fmt: Gen.FloatFormat, r: string)
    requires v.List? && Legible(v, compact, fmt) && FloatsSpelled(v, fmt)
    ensures ParseArray(Gen.ArrayText(v, compact, depth, fmt) + r) == Parsed(ReadBack(v, fmt).elements, Skip(r))
    decreases v, 0, 1
  {
    ElementsReadBack(v, compact, depth + 1, fmt);
    WhiteSpaceIsSpace(compact, depth);
    ArrayTextParts(v, compact, depth, fmt);
    ArrayReads(Gen.WhiteSpace(compact, depth + 1), Texts(v.elements, compact, depth + 1, fmt),
        ReadBack(v, fmt).elements,
               Gen.WhiteSpace(compact, depth), r);
  }

  lemma {:induction false} MembersReadBack(v: Variant, keys: seq<string>, compact: bool, depth: nat,
      fmt: Gen.FloatFormat)
    requires v.Map? && Legible(v, compact, fmt) && FloatsSpelled(v, fmt)
    requires forall k | k in keys :: k in v.members
    ensures MapReads(Gen.WhiteSpace(compact, depth), keys, Texts(ValuesAt(keys, v.members), compact, depth, fmt),
                     ReadBacks(keys, v.members, fmt))
    decreases v, 0, 0
  {
    forall i | 0 <= i < |keys|
      ensures Clean(keys[i])
      ensures Reads(Gen.Text(v.members[keys[i]], compact, depth, fmt), ReadBack(v.members[keys[i]], fmt))
    {
      assert keys[i] in v.members;
      TextReads(v.members[keys[i]], compact, depth, fmt);
    }
    WhiteSpaceIsSpace(compact, depth);
  }

  lemma ObjectTextParts(v: Variant, keys: seq<string>, compact: bool, depth: nat, fmt: Gen.FloatFormat)
    requires v.Map? && forall k | k in keys :: k in v.members
    ensures Gen.MemberTexts(v, keys, compact, depth, fmt)
         == Members(Gen.WhiteSpace(compact, depth + 1), keys, Texts(ValuesAt(keys, v.members), compact, depth + 1, fmt))
  {}

  lemma ObjectTextIs(v: Variant, compact: bool, depth: nat, fmt: Gen.FloatFormat, r: string)
    requires v.Map?
    ensures var keys := SortedKeys(v.members.Keys);
            var texts := Texts(ValuesAt(keys, v.members), compact, depth + 1, fmt);
            Gen.ObjectText(v, compact, depth, fmt) + r
            == "{" + Gen.Join(Members(Gen.WhiteSpace(compact, depth + 1), keys, texts))
               + Gen.WhiteSpace(compact, depth) + "}" + r
  {
    hide Texts, Members, Gen.Join, ValuesAt;
    ObjectTextParts(v, SortedKeys(v.members.Keys), compact, depth, fmt);
  }

  lemma {:induction false} MapReadsBack(v: Variant, compact: bool, depth: nat, fmt: Gen.FloatFormat, r: string)
    requires v.Map? && Legible(v, compact, fmt) && FloatsSpelled(v, fmt)
    ensures var p := ParseObject(Gen.ObjectText(v, compact, depth, fmt) + r);
            p.Parsed? && p.value == ReadBack(v, fmt).members && Skip(p.rest) == Skip(r)
    decreases v, 0, 1
  {
    assert ReadBack(v, fmt).Map?;
    hide ParseObject, Assign, Legible, FloatsSpelled, ReadBack, ReadBacks, Gen.ObjectText, Gen.Join, Members, Texts,
        MapReads;
    var keys := SortedKeys(v.members.Keys);
    var vs := ReadBacks(keys, v.members, fmt);
    MembersReadBack(v, keys, compact, depth + 1, fmt);
    WhiteSpaceIsSpace(compact, depth);
    AssignIsMap(map[], keys, v.members, fmt);
    assert v == Map(v.members);
    ObjectTextIs(v, compact, depth, fmt, r);
    ObjectReads(Gen.WhiteSpace(compact, depth + 1), keys, Texts(ValuesAt(keys, v.members), compact, depth + 1, fmt),
                vs, Gen.WhiteSpace(compact, depth), r);
  }

  /** The exact value every legible list or map comes back as. */
  lemma LegibleReads(v: Variant, compact: bool, fmt: Gen.FloatFormat)
    requires v.List? || v.Map?
    requires Legible(v, compact, fmt) && FloatsSpelled(v, fmt)
    ensures Parse(Gen.Text(v, compact, 0, fmt)) == Parsed(ReadBack(v, fmt), "")
  {
    var s := Gen.Text(v, compact, 0, fmt);
    assert s + "" == s;
    if v.List? {
      ListReadsBack(v, compact, 0, fmt, "");
    } else {
      MapReadsBack(v, compact, 0, fmt, "");
    }
    assert s[0] == if v.List? then '[' else '{';
    assert Skip(s) == s;
  }
}
