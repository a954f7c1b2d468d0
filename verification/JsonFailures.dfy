/** What the parser makes of words, and of texts that are not well-formed. */
module JsonFailures {
  import opened Text
  import opened Variant
  import opened Decimal
  import opened JsonParserSpec
  import opened JsonNumbers
  import opened JsonRoundTrip
  import Gen = JsonGenerator

  // ---- words

  ghost predicate Word(word: string) {
    word != "" && forall i | 0 <= i < |word| :: IsAlpha(word[i])
  }

  /** Three words are read as values, `null` too, which is never written; any other word is none. */
  lemma WordsRead(word: string)
    requires Word(word)
    ensures Reads("true", Bool(true)) && Reads("false", Bool(false)) && Reads("null", Null)
    ensures word != "true" && word != "false" && word != "null" ==> Reads(word, Invalid)
  {
    BoolReads(true);
    BoolReads(false);
    assert LiteralOf("null") == Null;
    WordReadsAs("null");
    WordReadsAs(word);
  }

  lemma WordReadsAs(word: string)
    requires Word(word)
    ensures Reads(word, LiteralOf(word))
  {
    forall r | Delim(r) ensures ParseValue(word + r) == Parsed(LiteralOf(word), Skip(r)) {
      DelimNoWord(r);
      WordReads(word, r);
      WordStarts(word, r);
      SkipTwice(r);
      ValueOf(word + r, LiteralOf(word), Skip(r));
    }
  }

  lemma DelimNoWord(r: string)
    requires Delim(r)
    ensures r != "" && !IsAlpha(r[0])
  {}

  lemma WordStarts(word: string, r: string)
    requires Word(word)
    ensures var c := (word + r)[0]; !IsSpace(c) && c != '"' && !IsDigit(c) && c != '-' && c != '{' && c != '['
  {
    assert (word + r)[0] == word[0] && IsAlpha(word[0]);
  }

  /** What starts with no letter is no word, and left as it is; a word at the end of the text throws. */
  lemma NoWord(s: string)
    requires s != "" && !IsSpace(s[0])
    ensures !IsAlpha(s[0]) ==> ParseLiteral(s) == Parsed(Invalid, s)
    ensures Word(s) ==> ParseLiteral(s) == Failed(OutOfRange)
  {
    assert Skip(s) == s;
    if Word(s) { AllRun(s); }
    hide LiteralOf;
  }

  lemma {:induction false} AllRun(s: string)
    requires forall i | 0 <= i < |s| :: IsAlpha(s[i])
    ensures Run(s, IsAlpha) == |s|
  {
    if s != "" { AllRun(s[1..]); }
  }

  // ---- numbers

  /** A minus sign without a digit behind it is no number, and is passed over. */
  lemma SignAlone(s: string)
    requires s != "" && !IsDigit(s[0])
    ensures ParseNumber("-" + s) == Parsed(Invalid, s)
  {
    NoSpaceFirst("-" + s);
    assert ("-" + s)[1..] == s;
  }

  /** A whole number at the end of the text throws. */
  lemma NumberCutOff(digits: string)
    requires digits != "" && AllDigits(digits) && (digits[0] == '0' ==> digits == "0")
    ensures ParseNumber(digits) == Failed(OutOfRange)
  {
    NoSpaceFirst(digits);
    DigitsToEnd(digits);
    hide DigitsValue;
  }

  lemma DigitsToEnd(digits: string)
    requires AllDigits(digits)
    ensures ParseDigits(digits) == Failed(OutOfRange)
  {
    AllDigitsRun(digits);
  }

  lemma {:induction false} AllDigitsRun(s: string)
    requires AllDigits(s)
    ensures Run(s, IsDigit) == |s|
  {
    if s != "" { AllDigitsRun(s[1..]); }
  }

  // ---- strings

  /** A string that is not closed is none, and what stands behind its quote is left. */
  lemma UnclosedString(s: string)
    requires '"' !in s
    ensures ParseString("\"" + s) == Parsed(Invalid, s)
  {
    IndexOfAbsent(s, '"');
    assert ("\"" + s)[1..] == s;
  }

  // ---- lists

  /** Elements with a comma behind each are read one by one. */
  lemma {:induction false} ElementsThen(w: string, texts: seq<string>, vs: seq<Variant>, s: string, done: seq<Variant>)
    requires ListReads(w, texts, vs) && texts != []
    ensures var t := Skip(Gen.Join(Prefixed(w, texts)) + (", " + s));
            Starts(t) && ParseElements(t, done) == ParseElements(Skip(s), done + vs)
  {
    hide ParseElements, ParseValue, Gen.Join, Reads, Starts;
    Gen.JoinFirst(Prefixed(w, texts), ", " + s);
    PrefixedTail(w, texts);
    var next := if |texts| == 1 then s else Gen.Join(Prefixed(w, texts[1..])) + (", " + s);
    SkipTo(w, texts[0], ", " + next);
    ElementsComma(texts[0], next, vs[0], done);
    assert (done + [vs[0]]) + vs[1..] == done + vs;
    if |texts| > 1 {
      ElementsThen(w, texts[1..], vs[1..], s, done + [vs[0]]);
    } else {
      assert vs == [vs[0]];
    }
  }

  lemma ListThen(w: string, texts: seq<string>, vs: seq<Variant>, s: string)
    requires ListReads(w, texts, vs) && texts != []
    ensures ParseArray("[" + (Gen.Join(Prefixed(w, texts)) + (", " + s))) == ParseElements(Skip(s), vs)
  {
    var body := Gen.Join(Prefixed(w, texts)) + (", " + s);
    ElementsThen(w, texts, vs, s, []);
    hide Gen.Join, ListReads, ParseElements, Prefixed;
    ElementsSkip(body, []);
    OpenList(body);
    assert [] + vs == vs;
  }

  lemma OpenList(body: string)
    ensures ParseArray("[" + body) == ParseElements(body, [])
  {
    assert ("[" + body)[1..] == body && Skip("[" + body) == "[" + body;
  }

  /**
    Behind elements and a comma: a bracket ends the list, the end of the text throws, and at anything
    that is no value the whole list comes back empty, whatever was read of it.
   */
  lemma ListGoesOn(w: string, texts: seq<string>, vs: seq<Variant>, s: string)
    requires ListReads(w, texts, vs) && texts != []
    ensures var p := ParseArray("[" + (Gen.Join(Prefixed(w, texts)) + (", " + s)));
            var t := Skip(s);
            && (t == "" ==> p == Failed(OutOfRange))
            && (t != "" && t[0] == ']' ==> p == Parsed(vs, Skip(t[1..])))
            && (t != "" && t[0] != ']' && ParseValue(t).Parsed? && ParseValue(t).value == Invalid ==>
                  p == Parsed([], ParseValue(t).rest))
  {
    ListThen(w, texts, vs, s);
    SkipTwice(s);
    hide ParseValue, ParseArray, Gen.Join, ListReads, Prefixed;
  }

  /**
    Right behind the opening bracket: another bracket ends the list, but not behind white space; the end
    of the text throws; and anything that is no value gives an empty list.
   */
  lemma ListOpens(s: string)
    ensures var p := ParseArray("[" + s);
            && (s == "" ==> p == Failed(OutOfRange))
            && (s != "" && s[0] == ']' ==> p == Parsed([], Skip(s[1..])))
            && (s != "" && s[0] != ']' && ParseValue(Skip(s)).Parsed? && ParseValue(Skip(s)).value == Invalid ==>
                  p == Parsed([], ParseValue(Skip(s)).rest))
  {
    OpenList(s);
    hide ParseValue, ParseArray, Skip;
  }

  /** Elements need no comma between them. */
  lemma NoCommaNeeded(a: string, b: string)
    requires Clean(a) && Clean(b)
    ensures ParseArray("[" + (Gen.Quoted(a) + (" " + (Gen.Quoted(b) + "]")))) == Parsed([Str(a), Str(b)], "")
  {
    hide *;
    var t := Gen.Quoted(b) + "]";
    OpenList(Gen.Quoted(a) + (" " + t));
    BlankThenQuote(b);
    StringElement(a, " " + t, []);
    BracketAlone();
    StringElement(b, "]", [Str(a)]);
    ElementsEnd("", [Str(a), Str(b)]);
    assert [] + [Str(a)] == [Str(a)] && [Str(a)] + [Str(b)] == [Str(a), Str(b)];
  }

  lemma BracketAlone()
    ensures "]" + "" == "]" && Skip("]") == "]" && Skip("") == ""
  {}

  lemma BlankThenQuote(b: string)
    ensures var t := Gen.Quoted(b) + "]"; Skip(" " + t) == t && t != "" && t[0] != ','
  {
    var t := Gen.Quoted(b) + "]";
    SkipPast(" ", t);
    assert t[0] == '"' && Skip(t) == t;
  }

  lemma StringElement(a: string, r: string, done: seq<Variant>)
    requires Clean(a) && Skip(r) != "" && Skip(r)[0] != ','
    ensures ParseElements(Gen.Quoted(a) + r, done) == ParseElements(Skip(r), done + [Str(a)])
  {
    var s := Gen.Quoted(a) + r;
    StringReads(a, r);
    ValueOf(s, Str(a), Skip(r));
    SkipTwice(r);
    assert s[0] == '"' && Skip(s) == s;
    hide ParseValue, Gen.Quoted;
  }

  // ---- maps

  /** Any number of commas between members is passed over. */
  lemma {:induction false} CommasSkipped(n: nat, s: string, done: map<string, Variant>)
    ensures ParseMembers(Commas(n) + s, done) == ParseMembers(if n == 0 then s else Skip(s), done)
  {
    hide *;
    CommasFirst(n, s);
    if n > 0 {
      CommaPassed(Commas(n - 1) + s, done);
      if n > 1 {
        CommasFirst(n - 1, s);
        CommaNoSpace(Commas(n - 2) + s);
        CommasSkipped(n - 1, s, done);
      } else {
        CommasFirst(0, s);
      }
    }
  }

  lemma CommasFirst(n: nat, s: string)
    ensures Commas(n) + s == if n == 0 then s else "," + (Commas(n - 1) + s)
  {}

  lemma CommaNoSpace(s: string)
    ensures Skip("," + s) == "," + s
  {}

  lemma CommaPassed(s: string, done: map<string, Variant>)
    ensures ParseMembers("," + s, done) == ParseMembers(Skip(s), done)
  {
    assert ("," + s)[1..] == s;
    hide Skip;
  }

  function Commas(n: nat): string {
    if n == 0 then "" else "," + Commas(n - 1)
  }

  /** Members with a comma behind each are read one by one. */
  lemma {:induction false} MembersThen(w: string, keys: seq<string>, texts: seq<string>, vs: seq<Variant>, s: string,
      done: map<string, Variant>)
    requires MapReads(w, keys, texts, vs) && keys != []
    ensures var t := Skip(Gen.Join(Members(w, keys, texts)) + (", " + s));
            t != "" && t[0] == '"' && ParseMembers(t, done) == ParseMembers(Skip(s), Assign(done, keys, vs))
  {
    hide ParseMembers, ParseValue, Gen.Join, Reads;
    Gen.JoinFirst(Members(w, keys, texts), ", " + s);
    MembersTail(w, keys, texts);
    var next := if |keys| == 1 then s else Gen.Join(Members(w, keys[1..], texts[1..])) + (", " + s);
    var t := ", " + next;
    RegroupMember(w, keys[0], texts[0], t);
    SkipPast(w, Gen.Quoted(keys[0]) + (": " + (texts[0] + t)));
    assert Skip(t) == t;
    MemberStep(keys[0], texts[0], t, vs[0], done);
    MembersComma(next, done[keys[0] := vs[0]]);
    if |keys| > 1 {
      MembersThen(w, keys[1..], texts[1..], vs[1..], s, done[keys[0] := vs[0]]);
    }
  }

  /**
    Behind members and a comma: a brace ends the map, the end of the text throws, and at anything but a
    quote, a comma or a brace the whole map comes back empty, whatever was read of it.
   */
  lemma MapGoesOn(w: string, keys: seq<string>, texts: seq<string>, vs: seq<Variant>, s: string)
    requires MapReads(w, keys, texts, vs) && keys != []
    ensures var p := ParseObject("{" + (Gen.Join(Members(w, keys, texts)) + (", " + s)));
            var t := Skip(s);
            && (t == "" ==> p == Failed(OutOfRange))
            && (t != "" && t[0] == '}' ==> p == Parsed(Assign(map[], keys, vs), Skip(t[1..])))
            && (t != "" && t[0] !in "\",}" ==> p == Parsed(map[], t))
  {
    var body := Gen.Join(Members(w, keys, texts)) + (", " + s);
    MembersThen(w, keys, texts, vs, s, map[]);
    OpenMap(body);
    hide Gen.Join, MapReads, Members, ParseObject, ParseValue, ParseString, Assign;
  }

  lemma OpenMap(body: string)
    requires Skip(body) != "" && Skip(body)[0] == '"'
    ensures ParseObject("{" + body) == ParseMembers(Skip(body), map[])
  {
    assert ("{" + body)[1..] == body && Skip("{" + body) == "{" + body;
    hide ParseMembers;
  }

  /**
    Behind the opening brace: another brace ends the map, the end of the text throws, and all but a
    quote gives an empty map.
   */
  lemma MapOpens(s: string)
    ensures var p, t := ParseObject("{" + s), Skip(s);
            && (t == "" ==> p == Failed(OutOfRange))
            && (t != "" && t[0] == '}' ==> p == Parsed(map[], t[1..]))
            && (t != "" && t[0] != '}' && t[0] != '"' ==> p == Parsed(map[], t))
  {
    assert ("{" + s)[1..] == s && Skip("{" + s) == "{" + s;
    hide ParseMembers;
  }

  /** A key without a colon behind it, or one that is not closed, empties the map as well. */
  lemma KeyGivesUp(key: string, r: string, done: map<string, Variant>)
    requires Clean(key) && Skip(r) != "" && Skip(r)[0] != ':'
    ensures ParseMembers(Gen.Quoted(key) + r, done) == Parsed(map[], Skip(r))
    ensures ParseMembers("\"" + key, done) == Parsed(map[], key)
  {
    StringReads(key, r);
    UnclosedString(key);
    SkipTwice(r);
    assert (Gen.Quoted(key) + r)[0] == '"';
    hide ParseString, ParseValue, Gen.Quoted;
  }

  // ---- whole texts

  /** Text behind the value makes the whole parse fail. */
  lemma TrailingText(v: Variant, compact: bool, fmt: Gen.FloatFormat, more: string)
    requires (v.List? || v.Map?) && Legible(v, compact, fmt) && FloatsSpelled(v, fmt)
    ensures var p := Parse(Gen.Text(v, compact, 0, fmt) + more);
            p == Parsed(if Skip(more) == "" then ReadBack(v, fmt) else Invalid, Skip(more))
  {
    hide *;
    ContainerStarts(v, compact, fmt);
    ContainerTextIs(v, compact, 0, fmt);
    var s := Gen.Text(v, compact, 0, fmt);
    BracketNoSpace(s, more);
    SkipTwice(more);
    if v.List? {
      ListReadsBack(v, compact, 0, fmt, more);
      ListAtTop(s + more);
      ReadBackKeeps(v, fmt);
    } else {
      MapReadsBack(v, compact, 0, fmt, more);
      MapAtTop(s + more);
      ReadBackKeeps(v, fmt);
    }
  }

  lemma BracketNoSpace(s: string, more: string)
    requires s != "" && (s[0] == '[' || s[0] == '{')
    ensures s + more != "" && (s + more)[0] == s[0] && Skip(s + more) == s + more
  {}

  lemma ReadBackKeeps(v: Variant, fmt: Gen.FloatFormat)
    ensures v.List? ==> ReadBack(v, fmt).List?
    ensures v.Map? ==> ReadBack(v, fmt).Map?
  {}

  lemma ListAtTop(s: string)
    requires Skip(s) == s != "" && s[0] == '[' && ParseArray(s).Parsed?
    ensures var p := ParseArray(s);
           Parse(s) == Parsed(if Skip(p.rest) == "" then List(p.value) else Invalid, Skip(p.rest))
  {
    hide ParseArray, ParseObject, Skip;
  }

  lemma MapAtTop(s: string)
    requires Skip(s) == s != "" && s[0] == '{' && ParseObject(s).Parsed?
    ensures var p := ParseObject(s);
           Parse(s) == Parsed(if Skip(p.rest) == "" then Map(p.value) else Invalid, Skip(p.rest))
  {
    hide ParseArray, ParseObject, Skip;
  }

  /** At the top, only a list or a map is parsed; an empty text throws. */
  lemma ContainersOnly(s: string)
    ensures var t := Skip(s);
            && (t == "" ==> Parse(s) == Failed(OutOfRange))
            && (t != "" && t[0] != '[' && t[0] != '{' ==> Parse(s) == Parsed(Invalid, t))
  {
    hide Skip, ParseArray, ParseObject;
  }

  lemma ContainerStarts(v: Variant, compact: bool, fmt: Gen.FloatFormat)
    requires v.List? || v.Map?
    ensures var s := Gen.Text(v, compact, 0, fmt); s != "" && s[0] == if v.List? then '[' else '{'
  {
    hide Gen.Join, Gen.WhiteSpace, Gen.ElementTexts, Gen.MemberTexts, SortedKeys;
  }

  /** A list closed by the brace of the map around it is taken for an empty one, and the map for a good one. */
  lemma Misnested(key: string, w: string, texts: seq<string>, vs: seq<Variant>)
    requires Clean(key) && ListReads(w, texts, vs) && texts != []
    ensures Parse("{" + (Gen.Quoted(key) + (": " + ("[" + (Gen.Join(Prefixed(w, texts)) + (", " + "}"))))))
         == Parsed(Map(map[key := List([])]), "")
  {
    var list := "[" + (Gen.Join(Prefixed(w, texts)) + (", " + "}"));
    var body := Gen.Quoted(key) + (": " + list);
    var s := "{" + body;
    ListGoesOn(w, texts, vs, "}");
    NoValue();
    hide Gen.Join, Prefixed, ListReads;
    assert Skip("}") == "}";
    assert ParseArray(list) == Parsed([], "}");
    ValueOf(list, List([]), "}");
    StringReads(key, ": " + list);
    BehindColon(list);
    MemberUnfold(body, key, ": " + list, List([]), "}", map[]);
    OpenMap(body);
    MembersEnd("", map[key := List([])]);
    assert "}" + "" == "}" && Skip(s) == s;
    hide ParseMembers, ParseArray, ParseValue, ParseObject, Gen.Quoted;
  }

  lemma NoValue()
    ensures ParseValue("}") == Parsed(Invalid, "}")
  {
    assert Skip("}") == "}";
    NotALiteral("}");
    ValueOf("}", Invalid, "}");
  }

  lemma BehindColon(list: string)
    requires list != "" && list[0] == '['
    ensures var s := ": " + list; Skip(s) == s && Skip(s[1..]) == list
  {
    assert (": " + list)[1..] == " " + list;
    SkipPast(" ", list);
    assert Skip(list) == list;
  }
}
