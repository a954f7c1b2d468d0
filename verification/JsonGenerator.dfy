/**
  json_generator: the text written for a value, as a function, and the methods that build
  it by appending to an output string.
 */
module JsonGenerator {
  import opened Variant
  import opened Decimal

  /** What `ostringstream << float` writes; a parameter of the model. */
  type FloatFormat = real -> string

  function Tab(n: nat): string {
    if n == 0 then "" else "    " + Tab(n - 1)
  }

  lemma {:induction false} TabIs(n: nat)
    ensures |Tab(n)| == 4 * n && forall i | 0 <= i < |Tab(n)| :: Tab(n)[i] == ' '
  {
    if n > 0 { TabIs(n - 1); }
  }

  function WhiteSpace(compact: bool, depth: nat): string {
    if compact then "" else "\r\n" + Tab(depth)
  }

  function Quoted(s: string): string { "\"" + s + "\"" }

  function Text(v: Variant, compact: bool, depth: nat, fmt: FloatFormat): string
    decreases v, 1, 0
  {
    match v
    case Invalid => ""
    case Null => "" // a stored nullptr is not `isNull`, so it falls through to the empty value
    case Bool(b) => if b then "true" else "false"
    case Int(n) => IntText(n)
    case Float(x) => fmt(x)
    case Str(s) => Quoted(s)
    case Map(_) => ObjectText(v, compact, depth, fmt)
    case List(_) => ArrayText(v, compact, depth, fmt)
  }

  function ObjectText(m: Variant, compact: bool, depth: nat, fmt: FloatFormat): string
    requires m.Map?
    decreases m, 0, 2
  {
    "{" + Join(MemberTexts(m, SortedKeys(m.members.Keys), compact, depth, fmt)) + WhiteSpace(compact, depth) + "}"
  }

  function ArrayText(list: Variant, compact: bool, depth: nat, fmt: FloatFormat): string
    requires list.List?
    decreases list, 0, 2
  {
    "[" + Join(ElementTexts(list.elements, compact, depth, fmt)) + WhiteSpace(compact, depth) + "]"
  }

  function MemberText(m: Variant, key: string, compact: bool, depth: nat, fmt: FloatFormat): string
    requires m.Map? && key in m.members
    decreases m, 0, 0
  {
    WhiteSpace(compact, depth + 1) + Quoted(key) + ": " + Text(m.members[key], compact, depth + 1, fmt)
  }

  function MemberTexts(m: Variant, keys: seq<string>, compact: bool, depth: nat, fmt: FloatFormat): (parts: seq<string>)
    requires m.Map? && forall k | k in keys :: k in m.members
    ensures |parts| == |keys|
    ensures forall i | 0 <= i < |keys| :: parts[i] == MemberText(m, keys[i], compact, depth, fmt)
    decreases m, 0, 1
  {
    seq(|keys|, i requires 0 <= i < |keys| => MemberText(m, keys[i], compact, depth, fmt))
  }

  function ElementText(v: Variant, compact: bool, depth: nat, fmt: FloatFormat): string
    decreases v, 2, 0
  {
    WhiteSpace(compact, depth + 1) + Text(v, compact, depth + 1, fmt)
  }

  function ElementTexts(elements: seq<Variant>, compact: bool, depth: nat, fmt: FloatFormat): (parts: seq<string>)
    ensures |parts| == |elements|
    ensures forall i | 0 <= i < |elements| :: parts[i] == ElementText(elements[i], compact, depth, fmt)
  {
    seq(|elements|, i requires 0 <= i < |elements| => ElementText(elements[i], compact, depth, fmt))
  }

  /** The parts separated by ", ". */
  function Join(parts: seq<string>): string {
    if parts == [] then ""
    else if |parts| == 1 then parts[0]
    else parts[0] + ", " + Join(parts[1..])
  }

  /** The first of several joined parts, and what comes behind it. */
  lemma JoinFirst(parts: seq<string>, tail: string)
    requires parts != []
    ensures Join(parts) + tail == parts[0] + if |parts| == 1 then tail else ", " + (Join(parts[1..]) + tail)
  {}

  /** The parts each followed by ", ", as the loops append them. */
  ghost function Terminated(parts: seq<string>): string {
    if parts == [] then "" else Terminated(parts[..|parts| - 1]) + parts[|parts| - 1] + ", "
  }

  /** What starts a line, in the pretty form, `depth` levels deep: the compact form has no lines. */
  lemma LineStarts(depth: nat)
    ensures WhiteSpace(true, depth) == ""
    ensures var w := WhiteSpace(false, depth);
            |w| == 2 + 4 * depth && w[0] == '\r' && w[1] == '\n' && forall i | 2 <= i < |w| :: w[i] == ' '
  {
    TabIs(depth);
  }

  /** How lists look: each element on a line of its own, one level deeper. */
  lemma ListLayout(a: Variant, b: Variant, compact: bool, depth: nat, fmt: FloatFormat)
    ensures var line := WhiteSpace(compact, depth + 1);
            Text(List([a, b]), compact, depth, fmt)
            == "[" + (line + Text(a, compact, depth + 1, fmt) + ", " + (line + Text(b, compact, depth + 1, fmt)))
               + WhiteSpace(compact, depth) + "]"
  {
    var line := WhiteSpace(compact, depth + 1);
    var first, second := line + Text(a, compact, depth + 1, fmt), line + Text(b, compact, depth + 1, fmt);
    assert ElementTexts([a, b], compact, depth, fmt) == [first, second] by { hide WhiteSpace, Text; }
    JoinTwo(first, second);
    ArrayTextIs(List([a, b]), compact, depth, fmt);
    ListText([a, b], compact, depth, fmt);
    hide *;
  }

  lemma ListText(elements: seq<Variant>, compact: bool, depth: nat, fmt: FloatFormat)
    ensures Text(List(elements), compact, depth, fmt) == ArrayText(List(elements), compact, depth, fmt)
  {}

  /** How maps look: each member on a line of its own, one level deeper. */
  lemma MapLayout(key: string, a: Variant, compact: bool, depth: nat, fmt: FloatFormat)
    ensures Text(Map(map[key := a]), compact, depth, fmt)
         == "{" + (WhiteSpace(compact, depth + 1) + ("\"" + key + "\"") + ": " + Text(a, compact, depth + 1, fmt))
            + WhiteSpace(compact, depth) + "}"
  {
    var m := Map(map[key := a]);
    var member := WhiteSpace(compact, depth + 1) + ("\"" + key + "\"") + ": " + Text(a, compact, depth + 1, fmt);
    assert MemberText(m, key, compact, depth, fmt) == member by { hide WhiteSpace, Text; }
    OneKey(key, a);
    assert MemberTexts(m, [key], compact, depth, fmt) == [member] by { hide MemberText, WhiteSpace, Text; }
    assert Join([member]) == member;
    ObjectTextIs(m, compact, depth, fmt);
    MapText(m.members, compact, depth, fmt);
    hide *;
  }

  lemma MapText(members: map<string, Variant>, compact: bool, depth: nat, fmt: FloatFormat)
    ensures Text(Map(members), compact, depth, fmt) == ObjectText(Map(members), compact, depth, fmt)
  {}

  lemma OneKey(key: string, a: Variant)
    ensures SortedKeys(map[key := a].Keys) == [key]
  {
    var keys := map[key := a].Keys;
    assert keys == {key};
    assert SortedKeys(keys)[0] in keys;
  }

  lemma JoinTwo(a: string, b: string)
    ensures Join([a, b]) == a + ", " + b
  {
    assert [a, b][1..] == [b];
  }

  lemma NoneYet(open: string, parts: seq<string>)
    ensures open == open + Terminated(parts[..0])
  {}

  lemma ObjectTextIs(m: Variant, compact: bool, depth: nat, fmt: FloatFormat)
    requires m.Map?
    ensures ObjectText(m, compact, depth, fmt)
         == "{" + Join(MemberTexts(m, SortedKeys(m.members.Keys), compact, depth, fmt))
            + WhiteSpace(compact, depth) + "}"
  {}

  lemma ArrayTextIs(list: Variant, compact: bool, depth: nat, fmt: FloatFormat)
    requires list.List?
    ensures ArrayText(list, compact, depth, fmt)
         == "[" + Join(ElementTexts(list.elements, compact, depth, fmt)) + WhiteSpace(compact, depth) + "]"
  {}

  lemma ElementTextIs(v: Variant, compact: bool, depth: nat, fmt: FloatFormat)
    ensures ElementText(v, compact, depth, fmt) == WhiteSpace(compact, depth + 1) + Text(v, compact, depth + 1, fmt)
  {}

  /** One turn of either loop. */
  lemma Append(open: string, parts: seq<string>, i: nat)
    requires i < |parts|
    ensures open + Terminated(parts[..i]) + parts[i] + ", " == open + Terminated(parts[..i + 1])
  {
    assert parts[..i + 1][..i] == parts[..i];
  }

  /** The erasing of the last separator. */
  lemma Trim(open: string, parts: seq<string>, n: nat)
    requires |open| == 1 && n == |parts|
    ensures var output := open + Terminated(parts[..n]);
            (if |output| > 1 then output[..|output| - 2] else output) == open + Join(parts)
  {
    assert parts[..n] == parts;
    if parts != [] { TerminatedIsJoin(parts); }
  }

  lemma {:induction false} TerminatedCons(part: string, parts: seq<string>)
    ensures Terminated([part] + parts) == part + ", " + Terminated(parts)
  {
    var all := [part] + parts;
    if parts == [] {
      assert all[..0] == [];
    } else {
      var front := parts[..|parts| - 1];
      assert all[..|all| - 1] == [part] + front;
      TerminatedCons(part, front);
    }
  }

  /** What is left after the loops erase the last two characters. */
  lemma {:induction false} TerminatedIsJoin(parts: seq<string>)
    requires parts != []
    ensures Terminated(parts) == Join(parts) + ", "
  {
    assert parts == [parts[0]] + parts[1..];
    TerminatedCons(parts[0], parts[1..]);
    if |parts| > 1 { TerminatedIsJoin(parts[1..]); }
  }

  method Generate(json: Variant, compact: bool, fmt: FloatFormat) returns (output: string)
    ensures output == Text(json, compact, 0, fmt)
  {
    output := GenValue(json, compact, 0, fmt);
  }

  method GenObject(m: Variant, compact: bool, depth: nat, fmt: FloatFormat) returns (output: string)
    requires m.Map?
    ensures output == ObjectText(m, compact, depth, fmt)
    decreases m, 0
  {
    hide *;
    output := "{";
    var keys := SortedKeys(m.members.Keys);
    ghost var parts := MemberTexts(m, keys, compact, depth, fmt);
    NoneYet("{", parts);
    ObjectTextIs(m, compact, depth, fmt);
    for i := 0 to |keys|
      invariant output == "{" + Terminated(parts[..i])
    {
      var part := GenMember(m, keys[i], compact, depth, fmt);
      output := output + part + ", ";
      Append("{", parts, i);
    }
    Trim("{", parts, |keys|);
    if |output| > 1 {
      output := output[..|output| - 2];
    }
    var ws := GetWhiteSpace(compact, depth);
    output := output + ws + "}";
  }

  /** What one turn of the loop of `genObject` appends, up to the separator. */
  method GenMember(m: Variant, key: string, compact: bool, depth: nat, fmt: FloatFormat) returns (part: string)
    requires m.Map? && key in m.members
    ensures part == MemberText(m, key, compact, depth, fmt)
    decreases m, -1
  {
    var ws := GetWhiteSpace(compact, depth + 1);
    var value := GenValue(m.members[key], compact, depth + 1, fmt);
    part := ws + GenString(Str(key)) + ": " + value;
  }

  method GenArray(list: Variant, compact: bool, depth: nat, fmt: FloatFormat) returns (output: string)
    requires list.List?
    ensures output == ArrayText(list, compact, depth, fmt)
    decreases list, 0
  {
    hide *;
    output := "[";
    var elements := list.elements;
    ArrayTextIs(list, compact, depth, fmt);
    ghost var parts := ElementTexts(elements, compact, depth, fmt);
    NoneYet("[", parts);
    var ws: string;
    for i := 0 to |elements|
      invariant output == "[" + Terminated(parts[..i])
    {
      ws := GetWhiteSpace(compact, depth + 1);
      var value := GenValue(elements[i], compact, depth + 1, fmt);
      var part := ws + value;
      ElementTextIs(elements[i], compact, depth, fmt);
      output := output + part + ", ";
      Append("[", parts, i);
    }
    Trim("[", parts, |elements|);
    if |output| > 1 {
      output := output[..|output| - 2];
    }
    ws := GetWhiteSpace(compact, depth);
    output := output + ws + "]";
  }

  method GenValue(value: Variant, compact: bool, depth: nat, fmt: FloatFormat) returns (output: string)
    ensures output == Text(value, compact, depth, fmt)
    decreases value, 1
  {
    match value
    case Bool(_) => output := GenLiteral(value);
    case Int(_) => output := GenNumber(value, fmt);
    case Float(_) => output := GenNumber(value, fmt);
    case Str(_) => output := GenString(value);
    case Map(_) => output := GenObject(value, compact, depth, fmt);
    case List(_) => output := GenArray(value, compact, depth, fmt);
    case Invalid => output := "";
    case Null => output := "";
  }

  function GenString(v: Variant): string {
    if v.Str? then "\"" + v.s + "\"" else ""
  }

  function GenNumber(v: Variant, fmt: FloatFormat): string {
    if v.Int? then IntText(v.n) else if v.Float? then fmt(v.x) else ""
  }

  function GenLiteral(v: Variant): string {
    if v.Bool? then if v.b then "true" else "false" else ""
  }

  method GetWhiteSpace(compact: bool, depth: nat) returns (output: string)
    ensures output == WhiteSpace(compact, depth)
  {
    if compact { return ""; }
    var tabs := GenTab(depth);
    output := "\r\n" + tabs;
  }

  method GenTab(tabCount: nat) returns (output: string)
    ensures output == Tab(tabCount)
  {
    output := "";
    var left := tabCount;
    while left > 0
      invariant output + Tab(left) == Tab(tabCount)
    {
      output := output + "    ";
      left := left - 1;
    }
  }
}
