/** Printing queries and header blocks and parsing them again; in both the first of equal keys wins. */
module FieldsRoundTrip {
  import opened Text
  import opened RequestSpec
  import opened RequestRoundTrip

  // ---- first key wins

  /** A pair whose key is new, and new among the pairs before it, decides the value of its key. */
  lemma {:induction false} FirstKeyWins(m: map<string, string>, pairs: seq<(string, string)>, i: nat)
    requires i < |pairs| && pairs[i].0 !in m && forall j | 0 <= j < i :: pairs[j].0 != pairs[i].0
    ensures pairs[i].0 in EmplaceAll(m, pairs) && EmplaceAll(m, pairs)[pairs[i].0] == pairs[i].1
    decreases i
  {
    var next := Emplace(m, pairs[0].0, pairs[0].1);
    if i == 0 {
      KeyStays(next, pairs[1..], pairs[0].0);
    } else {
      FirstKeyWins(next, pairs[1..], i - 1);
    }
  }

  lemma {:induction false} KeyStays(m: map<string, string>, pairs: seq<(string, string)>, k: string)
    requires k in m
    ensures k in EmplaceAll(m, pairs) && EmplaceAll(m, pairs)[k] == m[k]
    decreases |pairs|
  {
    if pairs != [] { KeyStays(Emplace(m, pairs[0].0, pairs[0].1), pairs[1..], k); }
  }

  // ---- query (section 3.4 of RFC 3986)

  function Joined(pieces: seq<string>): string {
    if pieces == [] then "" else if |pieces| == 1 then pieces[0] else pieces[0] + ("&" + Joined(pieces[1..]))
  }

  /** Splitting undoes joining. */
  lemma {:induction false} SplitJoined(pieces: seq<string>)
    requires pieces != [] && forall i | 0 <= i < |pieces| :: '&' !in pieces[i]
    ensures Split(Joined(pieces), '&') == pieces
    decreases |pieces|
  {
    hide *;
    JoinedFirst(pieces);
    if |pieces| == 1 {
      SplitWhole(pieces[0]);
      assert pieces == [pieces[0]];
    } else {
      var rest := pieces[1..];
      assert forall i | 0 <= i < |rest| :: rest[i] == pieces[i + 1];
      SplitJoined(rest);
      SplitFirst(pieces[0], Joined(rest));
      assert pieces == [pieces[0]] + rest;
    }
  }

  lemma {:induction false} SplitWhole(s: string)
    requires '&' !in s
    ensures Split(s, '&') == [s]
  {
    IndexOfAbsent(s, '&');
  }

  lemma {:induction false} SplitFirst(a: string, b: string)
    requires '&' !in a
    ensures Split(a + (['&'] + b), '&') == [a] + Split(b, '&')
  {
    hide IndexOf;
    IndexAt(a, '&', b);
  }

  lemma JoinedFirst(pieces: seq<string>)
    requires pieces != []
    ensures Joined(pieces) == if |pieces| == 1 then pieces[0] else pieces[0] + (['&'] + Joined(pieces[1..]))
  {}

  function PairText(key: string, value: string): string {
    key + (['='] + value)
  }

  lemma PairRead(key: string, value: string)
    requires '=' !in key
    ensures PairOf(PairText(key, value)) == (key, value)
  {
    IndexAt(key, '=', value);
    hide IndexOf;
  }

  function PairTexts(m: map<string, string>, keys: seq<string>): (texts: seq<string>)
    requires forall i | 0 <= i < |keys| :: keys[i] in m
    ensures |texts| == |keys| && forall i | 0 <= i < |keys| :: texts[i] == PairText(keys[i], m[keys[i]])
  {
    seq(|keys|, i requires 0 <= i < |keys| => PairText(keys[i], m[keys[i]]))
  }

  /** A map printed as a query, its keys in the given order. */
  function QueryText(m: map<string, string>, keys: seq<string>): string
    requires forall i | 0 <= i < |keys| :: keys[i] in m
  {
    Joined(PairTexts(m, keys))
  }

  lemma {:induction false} EmplacedFrom(m: map<string, string>, from: map<string, string>, pairs: seq<(string, string)>)
    requires forall k | k in m :: k in from && m[k] == from[k]
    requires forall i | 0 <= i < |pairs| :: pairs[i].0 in from && pairs[i].1 == from[pairs[i].0]
    ensures forall k | k in EmplaceAll(m, pairs) :: k in from && EmplaceAll(m, pairs)[k] == from[k]
    ensures forall k | k in m :: k in EmplaceAll(m, pairs)
    ensures forall i | 0 <= i < |pairs| :: pairs[i].0 in EmplaceAll(m, pairs)
    decreases |pairs|
  {
    if pairs != [] {
      var next := Emplace(m, pairs[0].0, pairs[0].1);
      assert forall i | 0 <= i < |pairs[1..]| :: pairs[1..][i] == pairs[i + 1];
      EmplacedFrom(next, from, pairs[1..]);
      forall i | 0 <= i < |pairs| ensures pairs[i].0 in EmplaceAll(m, pairs) {
        if i > 0 { assert pairs[1..][i - 1] == pairs[i]; }
      }
    }
  }

  lemma PairTextEnds(key: string, value: string)
    requires '&' !in key && '&' !in value
    ensures '&' !in PairText(key, value) && PairText(key, value) != ""
  {}

  lemma PiecesJoined(pieces: seq<string>)
    requires forall i | 0 <= i < |pieces| :: '&' !in pieces[i]
    requires pieces != [] ==> pieces[|pieces| - 1] != ""
    ensures Pieces(Joined(pieces)) == pieces
  {
    if pieces != [] {
      SplitJoined(pieces);
    } else {
      assert Split("", '&') == [""];
    }
  }

  /** A separator at the end adds nothing. */
  lemma PiecesEnded(pieces: seq<string>)
    requires pieces != [] && forall i | 0 <= i < |pieces| :: '&' !in pieces[i]
    ensures Pieces(Joined(pieces) + "&") == pieces
  {
    var all := pieces + [""];
    JoinedLast(pieces);
    SplitJoined(all);
    assert all[..|all| - 1] == pieces;
    hide Split, Joined;
  }

  lemma {:induction false} JoinedLast(pieces: seq<string>)
    requires pieces != []
    ensures Joined(pieces + [""]) == Joined(pieces) + "&"
  {
    hide Joined;
    JoinedFirst(pieces);
    JoinedFirst(pieces + [""]);
    if |pieces| == 1 {
      JoinedFirst([""]);
      assert (pieces + [""])[1..] == [""];
    } else {
      JoinedLast(pieces[1..]);
      assert (pieces + [""])[1..] == pieces[1..] + [""];
      assert pieces[0] + (['&'] + (Joined(pieces[1..]) + "&")) == (pieces[0] + (['&'] + Joined(pieces[1..]))) + "&";
    }
  }

  // ---- queries of any items

  /** One item of a query, with or without a `=`. */
  datatype Item = Alone(key: string) | With(key: string, value: string)

  function ItemText(item: Item): string {
    match item
    case Alone(key) => key
    case With(key, value) => key + ("=" + value)
  }

  function ItemTexts(items: seq<Item>): (texts: seq<string>)
    ensures |texts| == |items| && forall i | 0 <= i < |items| :: texts[i] == ItemText(items[i])
  {
    seq(|items|, i requires 0 <= i < |items| => ItemText(items[i]))
  }

  ghost predicate GoodItem(item: Item) {
    '&' !in item.key && '=' !in item.key && (item.With? ==> '&' !in item.value)
  }

  lemma ItemRead(item: Item)
    requires GoodItem(item)
    ensures '&' !in ItemText(item)
    ensures PairOf(ItemText(item)) == (item.key, if item.With? then item.value else "")
  {
    match item
    case Alone(key) => IndexOfAbsent(key, '=');
    case With(key, value) => PairRead(key, value);
  }

  /** The pairs decide the map: its keys are theirs, and the first pair of a key its value. */
  ghost predicate FirstWins(m: map<string, string>, items: seq<Item>) {
    && (forall k | k in m :: exists i :: 0 <= i < |items| && items[i].key == k)
    && (forall i | 0 <= i < |items| && (forall j | 0 <= j < i :: items[j].key != items[i].key) ::
          items[i].key in m && m[items[i].key] == if items[i].With? then items[i].value else "")
  }

  /**
    A query of any items: each key is there once, with the value of its first item, which is empty for
    an item without `=`. A separator at the end changes nothing; the last item has to have a text.
   */
  lemma {:induction false} QueryItemsRead(items: seq<Item>)
    requires forall i | 0 <= i < |items| :: GoodItem(items[i])
    requires items != [] ==> ItemText(items[|items| - 1]) != ""
    ensures FirstWins(QueryMap(Joined(ItemTexts(items))), items)
    ensures items != [] ==> FirstWins(QueryMap(Joined(ItemTexts(items)) + "&"), items)
  {
    hide *;
    TextsRead(items);
    PiecesJoined(ItemTexts(items));
    if items != [] { PiecesEnded(ItemTexts(items)); }
    PairsDecide(items, Pairs(ItemTexts(items)));
    QueryIs(Joined(ItemTexts(items)));
    QueryIs(Joined(ItemTexts(items)) + "&");
  }

  lemma TextsRead(items: seq<Item>)
    requires forall i | 0 <= i < |items| :: GoodItem(items[i])
    ensures var texts := ItemTexts(items);
            forall i | 0 <= i < |items| ::
              '&' !in texts[i] && PairOf(texts[i]) == (items[i].key, if items[i].With? then items[i].value else "")
  {
    hide ItemText, PairOf, GoodItem;
    forall i | 0 <= i < |items| { ItemRead(items[i]); }
  }

  lemma {:induction false} PairsDecide(items: seq<Item>, pairs: seq<(string, string)>)
    requires |pairs| == |items|
    requires forall i | 0 <= i < |items| :: pairs[i] == (items[i].key, if items[i].With? then items[i].value else "")
    ensures FirstWins(EmplaceAll(map[], pairs), items)
  {
    hide EmplaceAll;
    forall i | 0 <= i < |items| && (forall j | 0 <= j < i :: items[j].key != items[i].key)
      ensures items[i].key in EmplaceAll(map[], pairs) && EmplaceAll(map[], pairs)[items[i].key] == pairs[i].1
    {
      FirstKeyWins(map[], pairs, i);
    }
    forall k | k in EmplaceAll(map[], pairs) ensures exists i :: 0 <= i < |items| && items[i].key == k {
      var i := PairFrom(map[], pairs, k);
      assert items[i].key == k;
    }
  }

  /** Every entry comes from a pair, if its key was not there before. */
  lemma {:induction false} PairFrom(m: map<string, string>, pairs: seq<(string, string)>, k: string) returns (i: nat)
    requires k in EmplaceAll(m, pairs) && k !in m
    ensures i < |pairs| && pairs[i] == (k, EmplaceAll(m, pairs)[k])
    decreases |pairs|
  {
    var next := Emplace(m, pairs[0].0, pairs[0].1);
    if k in next {
      i := 0;
      KeyStays(next, pairs[1..], k);
    } else {
      var j := PairFrom(next, pairs[1..], k);
      i := j + 1;
    }
  }

  /**
    Any map whose keys lack `&` and `=` and whose values lack `&` is read back from its query, in
    whatever order it is printed.
   */
  lemma QueryRoundTrip(m: map<string, string>, keys: seq<string>)
    requires forall k | k in m :: '&' !in k && '=' !in k && '&' !in m[k]
    requires forall i | 0 <= i < |keys| :: keys[i] in m
    requires forall k | k in m :: exists i :: 0 <= i < |keys| && keys[i] == k
    ensures QueryMap(QueryText(m, keys)) == m
  {
    var texts := PairTexts(m, keys);
    forall i | 0 <= i < |keys| ensures '&' !in texts[i] && texts[i] != "" && PairOf(texts[i]) == (keys[i], m[keys[i]]) {
      PairTextEnds(keys[i], m[keys[i]]);
      PairRead(keys[i], m[keys[i]]);
    }
    hide PairText, PairOf, Joined, PairTexts;
    PiecesJoined(texts);
    hide Pieces;
    EmplacedFrom(map[], m, Pairs(texts));
    hide EmplaceAll;
    AllPaired(m, keys, Pairs(texts));
  }

  lemma AllPaired(m: map<string, string>, keys: seq<string>, pairs: seq<(string, string)>)
    requires |pairs| == |keys| && forall i | 0 <= i < |keys| :: keys[i] in m && pairs[i] == (keys[i], m[keys[i]])
    requires forall k | k in m :: exists i :: 0 <= i < |keys| && keys[i] == k
    requires forall i | 0 <= i < |pairs| :: pairs[i].0 in EmplaceAll(map[], pairs)
    requires forall k | k in EmplaceAll(map[], pairs) :: k in m && EmplaceAll(map[], pairs)[k] == m[k]
    ensures EmplaceAll(map[], pairs) == m
  {
    hide EmplaceAll;
    forall k | k in m ensures k in EmplaceAll(map[], pairs) {
      var i :| 0 <= i < |keys| && keys[i] == k;
      assert pairs[i].0 == k;
    }
  }

  // ---- headers (section 3.2 of RFC 7230)

  /** A header field: name, blanks before the value, and value. */
  datatype Field = Field(name: string, blanks: nat, value: string)

  function Blanks(n: nat): (s: string)
    ensures |s| == n && forall i | 0 <= i < n :: s[i] == ' '
  {
    seq(n, i => ' ')
  }

  ghost predicate GoodField(f: Field) {
    && ':' !in f.name && OneLine(f.name)
    && OneLine(f.value) && (f.value == "" || f.value[0] != ' ')
  }

  function FieldLine(f: Field): string {
    f.name + ([':'] + (Blanks(f.blanks) + f.value))
  }

  function Block(fields: seq<Field>): string {
    if fields == [] then "" else FieldLine(fields[0]) + ("\r\n" + Block(fields[1..]))
  }

  function Lowered(fields: seq<Field>): (pairs: seq<(string, string)>)
    ensures |pairs| == |fields| && forall i | 0 <= i < |fields| ::
           pairs[i] == (ToLower(fields[i].name), ToLower(fields[i].value))
  {
    seq(|fields|, i requires 0 <= i < |fields| => (ToLower(fields[i].name), ToLower(fields[i].value)))
  }

  lemma DropBlanksOf(n: nat, value: string)
    requires value == "" || value[0] != ' '
    ensures DropBlanks(Blanks(n) + value) == value
  {
    RunOfPrefix(Blanks(n), value, IsBlank);
    hide Run;
  }

  lemma ColonOneLine(n: nat)
    ensures OneLine([':']) && OneLine(Blanks(n))
  {}

  lemma FieldRead(f: Field)
    requires GoodField(f)
    ensures FieldOf(FieldLine(f)) == (ToLower(f.name), ToLower(f.value))
    ensures OneLine(FieldLine(f)) && ':' in FieldLine(f) && FieldLine(f) != ""
  {
    IndexAt(f.name, ':', Blanks(f.blanks) + f.value);
    DropBlanksOf(f.blanks, f.value);
    ColonOneLine(f.blanks);
    hide IndexOf, DropBlanks, ToLower, OneLine;
    OneLineSum(Blanks(f.blanks), f.value);
    OneLineSum([':'], Blanks(f.blanks) + f.value);
    OneLineSum(f.name, [':'] + (Blanks(f.blanks) + f.value));
    assert FieldLine(f)[|f.name|] == ':';
  }

  /** Good fields in front of anything are taken in one by one. */
  lemma {:induction false} BlockRead(fields: seq<Field>, tail: string, r: Request, used: nat)
    requires forall i | 0 <= i < |fields| :: GoodField(fields[i])
    ensures HeaderStep(Block(fields) + tail, r, used)
         == HeaderStep(tail, r.(headers := EmplaceAll(r.headers, Lowered(fields))), used + |Block(fields)|)
    decreases |fields|
  {
    hide *;
    if fields == [] {
      NoFields(tail, r.headers);
    } else {
      var line := FieldLine(fields[0]);
      BlockFirst(fields, tail);
      FieldRead(fields[0]);
      HeaderField(line, Block(fields[1..]) + tail, r, used);
      InsertIs(r, line);
      LoweredFirst(fields, r.headers);
      BlockRead(fields[1..], tail, InsertField(r, line), used + |line| + 2);
    }
  }

  lemma NoFields(tail: string, m: map<string, string>)
    ensures Block([]) + tail == tail && |Block([])| == 0 && EmplaceAll(m, Lowered([])) == m
  {}

  /**
    The parser reads a printed header block to just behind the blank line, into the lower-cased
    map in which the first field of a name wins.
   */
  lemma HeaderRoundTrip(fields: seq<Field>, rest: string, r: Request, used: nat)
    requires forall i | 0 <= i < |fields| :: GoodField(fields[i])
    ensures HeaderStep(Block(fields) + ("\r\n" + rest), r, used)
         == Parsed(Step(true, r.(headers := EmplaceAll(r.headers, Lowered(fields))), used + |Block(fields)| + 2))
  {
    hide *;
    BlockRead(fields, "\r\n" + rest, r, used);
    BlankLine("\r\n" + rest, r.(headers := EmplaceAll(r.headers, Lowered(fields))), used + |Block(fields)|);
  }

  /** A line break in front ends the headers, also if nothing comes behind its first character. */
  lemma BlankLine(s: string, r: Request, used: nat)
    requires s != "" && s[0] in "\r\n"
    ensures HeaderStep(s, r, used) == Parsed(Step(true, r, used + 2))
  {}

  /** One line with a colon is taken in, and its line break passed over. */
  lemma {:induction false} HeaderField(line: string, more: string, r: Request, used: nat)
    requires OneLine(line) && ':' in line
    ensures HeaderStep(line + ("\r\n" + more), r, used) == HeaderStep(more, InsertField(r, line), used + |line| + 2)
  {
    hide *;
    LineBreakAt(line, more);
    HeaderCases(line + ("\r\n" + more), r, used);
  }

  lemma BlockFirst(fields: seq<Field>, tail: string)
    requires fields != []
    ensures Block(fields) + tail == FieldLine(fields[0]) + ("\r\n" + (Block(fields[1..]) + tail))
    ensures |Block(fields)| == |FieldLine(fields[0])| + 2 + |Block(fields[1..])|
  {
    hide FieldLine;
  }

  lemma LoweredFirst(fields: seq<Field>, m: map<string, string>)
    requires fields != []
    ensures EmplaceAll(m, Lowered(fields))
         == EmplaceAll(Emplace(m, ToLower(fields[0].name), ToLower(fields[0].value)), Lowered(fields[1..]))
  {
    hide Emplace, ToLower;
    assert Lowered(fields)[1..] == Lowered(fields[1..]);
  }

  /** The last line of the data, with at most one character behind it: its line break is not complete. */
  predicate Unfinished(tail: string) {
    LineEnd(tail) + 2 > |tail|
  }

  /**
    Data that ends in an unfinished line behind any good fields is read past its end if and only
    if that line has a colon. It is accepted, with the cursor one past its end, if and only if the
    line is the blank one cut short.
   */
  lemma HeaderCutOffIff(fields: seq<Field>, tail: string, r: Request, used: nat)
    requires Unfinished(tail) && forall i | 0 <= i < |fields| :: GoodField(fields[i])
    ensures var h := HeaderStep(Block(fields) + tail, r, used);
            && (h.OutOfRange? <==> ':' in tail[..LineEnd(tail)])
            && (h.Parsed? && h.step.ok <==> tail in ["\r", "\n"])
            && (h.Parsed? && h.step.ok ==>
                  h.step == Step(true, r.(headers := EmplaceAll(r.headers, Lowered(fields))),
                      used + |Block(fields) + tail| + 1))
  {
    hide *;
    BlockRead(fields, tail, r, used);
    LineCutOffIff(tail, r.(headers := EmplaceAll(r.headers, Lowered(fields))), used + |Block(fields)|);
  }

  lemma LineCutOffIff(tail: string, r: Request, used: nat)
    requires Unfinished(tail)
    ensures var h := HeaderStep(tail, r, used);
            && (h.OutOfRange? <==> ':' in tail[..LineEnd(tail)])
            && (h.Parsed? && h.step.ok <==> tail in ["\r", "\n"])
            && (h.Parsed? && h.step.ok ==> |tail| == 1 && h.step == Step(true, r, used + 2))
  {
    HeaderCases(tail, r, used);
    OneBreak(tail);
    hide HeaderStep, LineEnd, InsertField;
  }

  lemma OneBreak(tail: string)
    ensures LineEnd(tail) == 0 && |tail| == 1 <==> tail == "\r" || tail == "\n"
  {}

  // ---- upper and lower case

  /** The same letter of the alphabet, in either case. */
  ghost predicate SameLetter(c: char, d: char) {
    exists k :: 0 <= k < 26 && (c == UPPER[k] || c == LOWER[k]) && (d == UPPER[k] || d == LOWER[k])
  }

  /** Equal but for upper and lower case. */
  ghost predicate EqualFold(a: string, b: string) {
    |a| == |b| && forall i | 0 <= i < |a| :: a[i] == b[i] || SameLetter(a[i], b[i])
  }

  ghost predicate NoUpper(s: string) {
    forall i | 0 <= i < |s| :: s[i] !in UPPER
  }

  /** Each letter from A to Z becomes the one at its place from a to z; no other character changes. */
  lemma LetterLowered(c: char)
    ensures forall k | 0 <= k < 26 && c == UPPER[k] :: ToLowerChar(c) == LOWER[k]
    ensures c !in UPPER ==> ToLowerChar(c) == c
    ensures ToLowerChar(c) !in UPPER
  {
    forall k | 0 <= k < 26 ensures UPPER[k] as int == 'A' as int + k && LOWER[k] as int == 'a' as int + k {
      LettersAt(k);
    }
    if 'A' <= c <= 'Z' {
      assert UPPER[c as int - 'A' as int] == c;
    }
  }

  lemma SameLowered(c: char, d: char)
    ensures ToLowerChar(c) == ToLowerChar(d) <==> c == d || SameLetter(c, d)
  {
    forall k | 0 <= k < 26 ensures UPPER[k] as int == 'A' as int + k && LOWER[k] as int == 'a' as int + k {
      LettersAt(k);
    }
    var l := ToLowerChar(c);
    if l == ToLowerChar(d) && c != d {
      var k := l as int - 'a' as int;
      assert (c == UPPER[k] || c == LOWER[k]) && (d == UPPER[k] || d == LOWER[k]);
    }
  }

  /** Two names are lowered to the same if and only if they differ in case at most. */
  lemma LoweredAlikeIff(a: string, b: string)
    ensures ToLower(a) == ToLower(b) <==> EqualFold(a, b)
    ensures NoUpper(ToLower(a)) && EqualFold(ToLower(a), a)
    ensures NoUpper(a) ==> ToLower(a) == a
  {
    forall i | 0 <= i < |a| ensures ToLower(a)[i] !in UPPER
        && (ToLower(a)[i] == a[i] || SameLetter(ToLower(a)[i], a[i])) {
      LetterLowered(a[i]);
      SameLowered(ToLowerChar(a[i]), a[i]);
      LetterLowered(ToLowerChar(a[i]));
    }
    forall i | 0 <= i < |a| && a[i] !in UPPER ensures ToLowerChar(a[i]) == a[i] { LetterLowered(a[i]); }
    forall i | 0 <= i < |a| && |a| == |b|
        ensures ToLower(a)[i] == ToLower(b)[i] <==> a[i] == b[i] || SameLetter(a[i], b[i]) {
      SameLowered(a[i], b[i]);
    }
    hide SameLetter, ToLowerChar;
  }

  /**
    No upper-case letter is in the map. Under the name in lower case of each field that is the first of
    its name, in whatever case, is that field's value but for its case; there is no other key.
   */
  ghost predicate ByName(m: map<string, string>, fields: seq<Field>) {
    && (forall k | k in m :: NoUpper(k) && NoUpper(m[k]) && exists i ::
          0 <= i < |fields| && EqualFold(k, fields[i].name))
    && (forall i, k | 0 <= i < |fields| && NoUpper(k) && EqualFold(k, fields[i].name)
          && (forall j | 0 <= j < i :: !EqualFold(fields[j].name, fields[i].name)) ::
          k in m && EqualFold(m[k], fields[i].value))
  }

  /** A printed header block is read into a map by name, whatever the case names were written in. */
  lemma HeadersByName(fields: seq<Field>, rest: string, r: Request, used: nat)
    requires r.headers == map[] && forall i | 0 <= i < |fields| :: GoodField(fields[i])
    ensures var h := HeaderStep(Block(fields) + ("\r\n" + rest), r, used);
            && h.Parsed? && h.step == Step(true, r.(headers := h.step.request.headers), used + |Block(fields)| + 2)
            && ByName(h.step.request.headers, fields)
  {
    hide *;
    HeaderRoundTrip(fields, rest, r, used);
    LoweredByName(fields);
  }

  lemma LoweredByName(fields: seq<Field>)
    ensures ByName(EmplaceAll(map[], Lowered(fields)), fields)
  {
    hide EmplaceAll, NoUpper, EqualFold, ToLower;
    var pairs := Lowered(fields);
    var m := EmplaceAll(map[], pairs);
    forall k | k in m ensures NoUpper(k) && NoUpper(m[k]) && exists i ::
        0 <= i < |fields| && EqualFold(k, fields[i].name) {
      var i := PairFrom(map[], pairs, k);
      LoweredAlikeIff(fields[i].name, fields[i].name);
      LoweredAlikeIff(fields[i].value, fields[i].value);
    }
    forall i, k | 0 <= i < |fields| && NoUpper(k) && EqualFold(k, fields[i].name)
      && (forall j | 0 <= j < i :: !EqualFold(fields[j].name, fields[i].name))
      ensures k in m && EqualFold(m[k], fields[i].value)
    {
      LoweredAlikeIff(k, fields[i].name);
      LoweredAlikeIff(fields[i].value, fields[i].value);
      forall j | 0 <= j < i ensures pairs[j].0 != pairs[i].0 { LoweredAlikeIff(fields[j].name, fields[i].name); }
      FirstKeyWins(map[], pairs, i);
    }
  }

  // ---- lines that do not fit

  /** A line without a colon ends the parse; the fields in front of it are taken in, and the cursor stands before it. */
  lemma NoColonRefused(fields: seq<Field>, line: string, rest: string, r: Request, used: nat)
    requires forall i | 0 <= i < |fields| :: GoodField(fields[i])
    requires line != "" && OneLine(line) && ':' !in line && (rest == "" || !InLine(rest[0]))
    ensures HeaderStep(Block(fields) + (line + rest), r, used)
         == Parsed(Step(false, r.(headers := EmplaceAll(r.headers, Lowered(fields))), used + |Block(fields)|))
  {
    hide *;
    BlockRead(fields, line + rest, r, used);
    LineEndAt(line, rest);
    HeaderCases(line + rest, r.(headers := EmplaceAll(r.headers, Lowered(fields))), used + |Block(fields)|);
  }

  /** Behind a field, a break of one character takes the next character along, whatever that is. */
  lemma LoneBreak(f: Field, mark: char, next: char, more: string, r: Request, used: nat)
    requires GoodField(f) && !InLine(mark)
    ensures HeaderStep(FieldLine(f) + ([mark, next] + more), r, used)
         == HeaderStep(more, r.(headers := EmplaceAll(r.headers, Lowered([f]))), used + |FieldLine(f)| + 2)
  {
    var line, tail := FieldLine(f), [mark, next] + more;
    LoneTail(mark, next, more, line);
    hide *;
    FieldRead(f);
    LineEndAt(line, tail);
    HeaderCases(line + tail, r, used);
    InsertIs(r, line);
    LoweredOne(f, r.headers);
  }

  lemma LoneTail(mark: char, next: char, more: string, line: string)
    ensures ([mark, next] + more)[0] == mark && |line + ([mark, next] + more)| >= |line| + 2
    ensures (line + ([mark, next] + more))[|line| + 2..] == more
  {}

  lemma LoweredOne(f: Field, m: map<string, string>)
    ensures EmplaceAll(m, Lowered([f])) == Emplace(m, ToLower(f.name), ToLower(f.value))
  {
    LoweredFirst([f], m);
    assert [f][1..] == [];
    hide Emplace, ToLower;
  }

  /** Cut off inside the line break behind a field, for one. */
  lemma HeaderCutOff(fields: seq<Field>, f: Field, tail: string, r: Request, used: nat)
    requires GoodField(f) && forall i | 0 <= i < |fields| :: GoodField(fields[i])
    requires tail in ["", "\r", "\n"]
    ensures HeaderStep(Block(fields) + (FieldLine(f) + tail), r, used).OutOfRange?
  {
    FieldRead(f);
    assert tail == "" || tail == "\r" || tail == "\n";
    LineEndAt(FieldLine(f), tail);
    hide FieldLine, HeaderStep, LineEnd;
    HeaderCutOffIff(fields, FieldLine(f) + tail, r, used);
  }
}
