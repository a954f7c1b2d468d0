/**
  json_parser: functions that shrink one shared `string_view` in place. Each is proved to
  return the value, and leave the cursor at the text, that its function in JsonParserSpec gives.
 */
module JsonParser {
  import opened Text
  import opened Variant
  import opened Decimal
  import Spec = JsonParserSpec

  /** How a call ends: with a value, with the exception of `at`, or never. */
  datatype Exit<+T> = Returns(value: T) | Throws | Hangs {
    predicate IsFailure() { !Returns? }

    function PropagateFailure<U>(): Exit<U>
      requires !Returns?
    {
      if Throws? then Throws else Hangs
    }

    function Extract(): T
      requires Returns?
    {
      value
    }
  }

  /** A run that ended as `e` with the cursor at `rest` did what `p` says. */
  ghost predicate Meets<T>(e: Exit<T>, rest: string, p: Spec.Outcome<T>) {
    match p
    case Parsed(value, r) => e == Returns(value) && rest == r
    case Failed(OutOfRange) => e == Throws
    case Failed(Spins) => e == Hangs
  }

  /** The `string_view` the parse functions pass by reference. */
  class View {
    var text: string

    constructor (text: string)
      ensures this.text == text
    {
      this.text := text;
    }

    /** `at(i)`. */
    function At(i: nat): Exit<char>
      reads this
    {
      if i < |text| then Returns(text[i]) else Throws
    }

    method RemovePrefix(n: nat)
      requires n <= |text|
      modifies this
      ensures text == old(text)[n..]
    {
      text := text[n..];
    }
  }

  method RemoveWhitespace(input: View)
    modifies input
    ensures input.text == Skip(old(input.text))
  {
    while input.text != "" && IsSpace(input.text[0])
      invariant Skip(input.text) == Skip(old(input.text))
      decreases |input.text|
    {
      input.RemovePrefix(1);
    }
  }

  method Parse(text: string) returns (e: Exit<Variant>)
    ensures Meets(e, if Spec.Parse(text).Parsed? then Spec.Parse(text).rest else "", Spec.Parse(text))
  {
    var input := new View(text);
    RemoveWhitespace(input);
    var content: Variant;
    var c :- input.At(0);
    if c == '{' {
      var m :- ParseObject(input);
      content := Map(m);
    } else if c == '[' {
      var xs :- ParseArray(input);
      content := List(xs);
    } else {
      return Returns(Invalid);
    }
    RemoveWhitespace(input);
    if input.text != "" { return Returns(Invalid); }
    return Returns(content);
  }

  method ParseObject(input: View) returns (e: Exit<map<string, Variant>>)
    modifies input
    ensures Meets(e, input.text, Spec.ParseObject(old(input.text)))
    decreases |input.text|, 1
  {
    RemoveWhitespace(input);
    var c :- input.At(0);
    hide Spec.ParseValue, Spec.ParseString, Skip;
    if c != '{' { return Returns(map[]); }
    input.RemovePrefix(1);

    RemoveWhitespace(input);
    c :- input.At(0);
    if c == '}' {
      input.RemovePrefix(1);
      return Returns(map[]);
    }
    if c != '"' { return Returns(map[]); }

    var members: map<string, Variant> := map[];
    while c != '}'
      invariant input.text != "" && c == input.text[0] && |input.text| < |old(input.text)|
      invariant Spec.ParseObject(old(input.text)) == Spec.ParseMembers(input.text, members)
      decreases |input.text|
    {
      if c == '"' {
        var key :- ParseString(input);
        if key.Invalid? { return Returns(map[]); }
        RemoveWhitespace(input);
        c :- input.At(0);
        if c != ':' { return Returns(map[]); }
        input.RemovePrefix(1);
        RemoveWhitespace(input);
        var value :- ParseValue(input);
        members := members[key.s := value];
      } else if c == ',' {
        input.RemovePrefix(1);
      } else {
        return Returns(map[]);
      }
      RemoveWhitespace(input);
      c :- input.At(0);
    }
    input.RemovePrefix(1);
    RemoveWhitespace(input);
    return Returns(members);
  }

  method ParseArray(input: View) returns (e: Exit<seq<Variant>>)
    modifies input
    ensures Meets(e, input.text, Spec.ParseArray(old(input.text)))
    decreases |input.text|, 1
  {
    RemoveWhitespace(input);
    var c :- input.At(0);
    if c != '[' { return Returns([]); }
    input.RemovePrefix(1);

    var elements: seq<Variant> := [];
    c :- input.At(0);
    while c != ']'
      invariant input.text != "" && c == input.text[0] && |input.text| < |old(input.text)|
      invariant Spec.ParseArray(old(input.text)) == Spec.ParseElements(input.text, elements)
      decreases |input.text|
    {
      RemoveWhitespace(input);
      var element :- ParseValue(input);
      if element.Invalid? { return Returns([]); }
      elements := elements + [element];
      c :- input.At(0);
      if c == ',' { input.RemovePrefix(1); }
      RemoveWhitespace(input);
      c :- input.At(0);
    }
    input.RemovePrefix(1);
    RemoveWhitespace(input);
    return Returns(elements);
  }

  method ParseValue(input: View) returns (e: Exit<Variant>)
    modifies input
    ensures Meets(e, input.text, Spec.ParseValue(old(input.text)))
    decreases |input.text|, 2
  {
    RemoveWhitespace(input);
    var val: Variant;
    var c :- input.At(0);
    if c == '"' {
      val :- ParseString(input);
    } else if IsDigit(c) || c == '-' {
      val :- ParseNumber(input);
    } else if c == '{' {
      var m :- ParseObject(input);
      val := Map(m);
    } else if c == '[' {
      var xs :- ParseArray(input);
      val := List(xs);
    } else {
      val :- ParseLiteral(input);
    }
    RemoveWhitespace(input);
    return Returns(val);
  }

  /** One pass of the scan for the closing quote: it stops at an index, or goes round again. */
  datatype Pass = Stop(size: nat) | Again(continueIndex: nat)

  /** `find_first_of('"', from)`, with `|body|` for `npos`. */
  function FindQuote(body: string, from: nat): (n: nat)
    requires from <= |body|
    ensures from <= n <= |body|
  {
    from + IndexOf(body[from..], '"')
  }

  function ScanPass(body: string, from: nat): (p: Pass)
    requires from <= |body|
    ensures p.Again? ==> from <= p.continueIndex <= |body|
  {
    var size := FindQuote(body, from);
    if size < |body| && size != 0 && body[size - 1] == '\\' then Again(size) else Stop(size)
  }

  /** Where the scan stands after `n` more passes, if it has not stopped before. */
  function ScanPasses(body: string, from: nat, n: nat): (p: Pass)
    requires from <= |body|
    ensures p.Again? ==> p.continueIndex <= |body|
    decreases n
  {
    if n == 0 then Again(from) else
      match ScanPass(body, from)
      case Stop(size) => Stop(size)
      case Again(next) => ScanPasses(body, next, n - 1)
  }

  /** The scan goes round forever exactly when its first quote follows a backslash; else one pass is enough. */
  lemma ScanEndsIff(body: string)
    ensures (exists n :: ScanPasses(body, 0, n).Stop?) <==> ScanPass(body, 0).Stop?
    ensures ScanPass(body, 0).Again? <==> Spec.ParseString("\"" + body) == Spec.Failed(Spec.Spins)
  {
    assert body[0..] == body;
    assert ("\"" + body)[1..] == body;
    if ScanPass(body, 0).Stop? {
      assert ScanPasses(body, 0, 1).Stop?;
    } else {
      var size := ScanPass(body, 0).continueIndex;
      forall n: nat ensures ScanPasses(body, size, n).Again? { ScanStuck(body, size, n); }
      forall n: nat ensures ScanPasses(body, 0, n).Again? {
        if n > 0 { assert ScanPasses(body, 0, n) == ScanPasses(body, size, n - 1); }
      }
    }
  }

  lemma {:induction false} ScanStuck(body: string, size: nat, n: nat)
    requires 0 < size < |body| && body[size] == '"' && body[size - 1] == '\\'
    ensures ScanPasses(body, size, n) == Again(size)
  {
    assert body[size..][0] == '"';
    if n > 0 { ScanStuck(body, size, n - 1); }
  }

  method ParseString(input: View) returns (e: Exit<Variant>)
    modifies input
    ensures Meets(e, input.text, Spec.ParseString(old(input.text)))
  {
    RemoveWhitespace(input);
    var c :- input.At(0);
    if c != '"' { return Returns(Invalid); }
    input.RemovePrefix(1);

    var size: nat := 0;
    var continueIndex: nat := 0;
    while true
      invariant input.text == Skip(old(input.text))[1..]
      invariant continueIndex == 0 || ScanPass(input.text, 0) == Again(continueIndex)
      decreases continueIndex == 0
    {
      size := FindQuote(input.text, continueIndex);
      assert continueIndex == 0 ==> input.text[continueIndex..] == input.text;
      if size < |input.text| {
        if size == 0 { break; }
        if input.text[size - 1] == '\\' {
          // a pass that ends in the state it began with is repeated for ever (ScanEndsIff)
          if size == continueIndex { return Hangs; }
          continueIndex := size;
          continue;
        } else {
          break;
        }
      } else {
        break;
      }
    }
    if size == |input.text| { return Returns(Invalid); }
    var output := input.text[..size];
    input.RemovePrefix(size + 1);
    RemoveWhitespace(input);
    return Returns(Str(output));
  }

  method ParseNumber(input: View) returns (e: Exit<Variant>)
    modifies input
    ensures Meets(e, input.text, Spec.ParseNumber(old(input.text)))
  {
    RemoveWhitespace(input);
    var coeff := 1;
    var c :- input.At(0);
    if c == '-' {
      coeff := -1;
      input.RemovePrefix(1);
    }
    e := ParseUnsigned(input, coeff != 1);
  }

  /** The part of `parseNumber` behind the sign. */
  method ParseUnsigned(input: View, negative: bool) returns (e: Exit<Variant>)
    modifies input
    ensures Meets(e, input.text, Spec.ParseUnsigned(old(input.text), negative))
  {
    var number := 0.0;
    var c :- input.At(0);
    if c == '0' {
      input.RemovePrefix(1);
    } else if IsDigit(c) {
      number :- ParseInt(input);
    } else {
      return Returns(Invalid);
    }

    c :- input.At(0);
    if c != '.' && c != 'e' && c != 'E' {
      RemoveWhitespace(input);
      return Returns(Float(number)); // without the sign
    }
    number :- ParseFraction(input, number);
    number :- ParseExponent(input, number);
    return Returns(Float(Signed(number, negative)));
  }

  /** The part of `parseNumber` from the decimal point on. */
  method ParseFraction(input: View, number: real) returns (e: Exit<real>)
    modifies input
    ensures Meets(e, input.text, Spec.ParseFraction(old(input.text), number))
  {
    hide FractionValue, DigitsValue, Spec.ParseAfterInt, Spec.ParseDigits;
    var c :- input.At(0);
    if c != '.' { return Returns(number); }
    input.RemovePrefix(1);
    var fraction :- ParseAfterInt(input);
    return Returns(number + fraction);
  }

  /** The part of `parseNumber` from the exponent mark on. */
  method ParseExponent(input: View, number: real) returns (e: Exit<real>)
    modifies input
    ensures Meets(e, input.text, Spec.ParseExponent(old(input.text), number))
  {
    var c :- input.At(0);
    if c != 'e' && c != 'E' { return Returns(number); }
    input.RemovePrefix(1);
    var coef := 1;
    c :- input.At(0);
    if c == '-' {
      coef := -1;
      input.RemovePrefix(1);
    }
    var exponent :- ParseInt(input);
    return Returns(Scaled(number, exponent.Floor, coef != 1));
  }

  method ParseLiteral(input: View) returns (e: Exit<Variant>)
    modifies input
    ensures Meets(e, input.text, Spec.ParseLiteral(old(input.text)))
  {
    RemoveWhitespace(input);
    var c :- input.At(0);
    if !IsAlpha(c) { return Returns(Invalid); }

    var size := 0;
    while IsAlpha(c)
      invariant size < |input.text| && c == input.text[size]
      invariant input.text == Skip(old(input.text))
      invariant Run(input.text, IsAlpha) == size + Run(input.text[size..], IsAlpha)
      decreases |input.text| - size
    {
      size := size + 1;
      assert Run(input.text[size - 1..], IsAlpha) == 1 + Run(input.text[size..], IsAlpha) by {
        assert input.text[size - 1..][1..] == input.text[size..];
      }
      c :- input.At(size);
    }

    var val := input.text[..size];
    var output := Invalid;
    if val == "true" {
      output := Bool(true);
    } else if val == "false" {
      output := Bool(false);
    } else if val == "null" {
      output := Null;
    }
    input.RemovePrefix(size);
    RemoveWhitespace(input);
    return Returns(output);
  }

  /** Adds up digit * 10^(length - position - 1), and so reads the decimal numeral in front. */
  method ParseInt(input: View) returns (e: Exit<real>)
    modifies input
    ensures Meets(e, input.text, Spec.ParseInt(old(input.text)))
  {
    ghost var text := input.text;
    ghost var n := Run(text, IsDigit);
    var strLength := 0;
    var c :- input.At(strLength);
    while IsDigit(c)
      invariant strLength < |text| && c == text[strLength] && input.text == text
      invariant n == strLength + Run(text[strLength..], IsDigit)
      decreases |text| - strLength
    {
      strLength := strLength + 1;
      assert text[strLength - 1..][1..] == text[strLength..];
      c :- input.At(strLength);
    }
    assert strLength == n;

    var val := AddPlaces(input, strLength);
    return Returns(val);
  }

  /** The second loop of `parseInt`, on the `strLength` digits in front. */
  method AddPlaces(input: View, strLength: nat) returns (val: real)
    requires strLength < |input.text| && AllDigits(input.text[..strLength]) && !IsDigit(input.text[strLength])
    modifies input
    ensures val == DigitsValue(old(input.text[..strLength])) as real
    ensures input.text == old(input.text[strLength..])
  {
    ghost var text := input.text;
    ghost var digits := text[..strLength];
    NoDigits();
    hide DigitsValue, Weighted;
    val := 0.0;
    var i := 0;
    assert digits[0..] == digits;
    while IsDigit(input.text[0])
      invariant i <= strLength && input.text == text[i..]
      invariant val + DigitsValue(digits[i..]) as real == DigitsValue(digits) as real
      decreases strLength - i
    {
      assert i < strLength && input.text[0] == digits[i];
      PlacesFrom(digits, i);
      val := val + Weighted(Digit(input.text[0]), strLength - i - 1);
      input.RemovePrefix(1);
      i := i + 1;
    }
    assert i == strLength && digits[i..] == "";
  }

  /** Adds up digit / 10^(position + 1). */
  method ParseAfterInt(input: View) returns (e: Exit<real>)
    modifies input
    ensures Meets(e, input.text, Spec.ParseAfterInt(old(input.text)))
  {
    ghost var text := input.text;
    ghost var n := Run(text, IsDigit);
    var val := 0.0;
    var i := 0;
    var c :- input.At(0);
    while IsDigit(c)
      invariant i <= n <= |text| && i < |text| && input.text == text[i..] && c == text[i]
      invariant val == FractionValue(text[..i])
      decreases n - i
    {
      assert i < n;
      NextPlace(text, i);
      val := val + Digit(c) as real / Pow10(i + 1);
      input.RemovePrefix(1);
      i := i + 1;
      c :- input.At(0);
    }
    return Returns(val);
  }
}
