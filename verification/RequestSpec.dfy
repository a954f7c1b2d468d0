/** What the HTTP/1.x request parser makes of a request line, a query and a header block. */
module RequestSpec {
  import opened Text

  datatype HttpMethod = Get | Head | Post | Put | Patch | Delete | Connect | Options | Trace | UnknownMethod

  datatype HttpVersion = Http10 | Http11 | UnknownVersion

  datatype Request = Request(
    httpMethod: HttpMethod,
    version: HttpVersion,
    path: string,
    query: map<string, string>,
    headers: map<string, string>)

  /** Where a parse function got: whether it succeeded, the request as it left it, and how far it advanced. */
  datatype Step = Step(ok: bool, request: Request, used: nat)

  // ---- tables

  function MethodText(m: HttpMethod): string {
    match m
    case Get => "GET"
    case Head => "HEAD"
    case Post => "POST"
    case Put => "PUT"
    case Patch => "PATCH"
    case Delete => "DELETE"
    case Connect => "CONNECT"
    case Options => "OPTIONS"
    case Trace => "TRACE"
    case UnknownMethod => ""
  }

  function MethodOf(s: string): (m: HttpMethod)
    ensures m != UnknownMethod ==> s == MethodText(m)
  {
    if s == "CONNECT" then Connect
    else if s == "DELETE" then Delete
    else if s == "GET" then Get
    else if s == "HEAD" then Head
    else if s == "OPTIONS" then Options
    else if s == "PATCH" then Patch
    else if s == "POST" then Post
    else if s == "PUT" then Put
    else if s == "TRACE" then Trace
    else UnknownMethod
  }

  function VersionText(v: HttpVersion): string {
    match v
    case Http10 => "HTTP/1.0"
    case Http11 => "HTTP/1.1"
    case UnknownVersion => ""
  }

  function VersionOf(s: string): (v: HttpVersion)
    ensures v != UnknownVersion ==> s == VersionText(v)
  {
    if s == "HTTP/1.0" then Http10 else if s == "HTTP/1.1" then Http11 else UnknownVersion
  }

  // ---- text

  predicate InLine(c: char) { c != '\r' && c != '\n' }

  /** Index of the first CR or LF, or the length. */
  function LineEnd(s: string): (n: nat)
    ensures n <= |s|
  {
    Run(s, InLine)
  }

  function ToLowerChar(c: char): char {
    if 'A' <= c <= 'Z' then c - 'A' + 'a' else c
  }

  function ToLower(s: string): (r: string)
    ensures |r| == |s| && forall i | 0 <= i < |s| :: r[i] == ToLowerChar(s[i])
  {
    seq(|s|, i requires 0 <= i < |s| => ToLowerChar(s[i]))
  }

  predicate IsBlank(c: char) { c == ' ' }

  function DropBlanks(s: string): string {
    s[Run(s, IsBlank)..]
  }

  // ---- first key wins

  /** `emplace` and `insert`: a key that is there keeps its value. */
  function Emplace(m: map<string, string>, key: string, value: string): map<string, string> {
    if key in m then m else m[key := value]
  }

  function EmplaceAll(m: map<string, string>, pairs: seq<(string, string)>): map<string, string>
    decreases |pairs|
  {
    if pairs == [] then m else EmplaceAll(Emplace(m, pairs[0].0, pairs[0].1), pairs[1..])
  }

  // ---- query

  /** The text split at every `c`. */
  function Split(s: string, c: char): (pieces: seq<string>)
    ensures pieces != []
  {
    var n := IndexOf(s, c);
    if n == |s| then [s] else [s[..n]] + Split(s[n + 1..], c)
  }

  function DropLastEmpty(pieces: seq<string>): seq<string>
    requires pieces != []
  {
    if pieces[|pieces| - 1] == "" then pieces[..|pieces| - 1] else pieces
  }

  /** Split at `&`, a final empty piece dropped. */
  function Pieces(s: string): seq<string> {
    DropLastEmpty(Split(s, '&'))
  }

  /** A piece split at its first `=`; without one it is a key with an empty value. */
  function PairOf(piece: string): (string, string) {
    var n := IndexOf(piece, '=');
    if n == |piece| then (piece, "") else (piece[..n], piece[n + 1..])
  }

  lemma DropFromMore(first: string, more: seq<string>)
    requires more != []
    ensures DropLastEmpty([first] + more) == [first] + DropLastEmpty(more)
  {
    var all := [first] + more;
    assert all[|all| - 1] == more[|more| - 1];
    assert all[..|all| - 1] == [first] + more[..|more| - 1];
  }

  /** The first piece, and what is left. */
  lemma {:induction false} PiecesFirst(s: string)
    requires s != ""
    ensures var n := IndexOf(s, '&'); Pieces(s) == if n == |s| then [s] else [s[..n]] + Pieces(s[n + 1..])
  {
    hide IndexOf;
    var n := IndexOf(s, '&');
    if n < |s| {
      DropFromMore(s[..n], Split(s[n + 1..], '&'));
      hide DropLastEmpty;
    }
  }

  function Pairs(pieces: seq<string>): (pairs: seq<(string, string)>)
    ensures |pairs| == |pieces| && forall i | 0 <= i < |pieces| :: pairs[i] == PairOf(pieces[i])
  {
    seq(|pieces|, i requires 0 <= i < |pieces| => PairOf(pieces[i]))
  }

  function QueryMap(s: string): map<string, string> {
    EmplaceAll(map[], Pairs(Pieces(s)))
  }

  /** Taking the first piece of what is left into the map. */
  lemma FirstPiece(s: string, m: map<string, string>)
    requires s != ""
    ensures var n := IndexOf(s, '&');
            var next := Emplace(m, PairOf(s[..n]).0, PairOf(s[..n]).1);
            EmplaceAll(m, Pairs(Pieces(s))) == if n == |s| then next else EmplaceAll(next, Pairs(Pieces(s[n + 1..])))
  {
    hide Pieces, PairOf, Emplace, IndexOf, EmplaceAll;
    PiecesFirst(s);
    var n := IndexOf(s, '&');
    if n < |s| {
      PairsFirst(s[..n], Pieces(s[n + 1..]), m);
    } else {
      assert s[..n] == s && [s] + [] == [s];
      PairsFirst(s, [], m);
    }
  }

  /** The piece in front of `last` where it stands in the buffer. */
  lemma PieceAt(buffer: string, pos: nat, last: nat, m: map<string, string>)
    requires pos < last <= |buffer|
    ensures var n := pos + IndexOf(buffer[pos..last], '&');
            var next := Emplace(m, PairOf(buffer[pos..n]).0, PairOf(buffer[pos..n]).1);
            && n <= last
            && EmplaceAll(m, Pairs(Pieces(buffer[pos..last])))
            == if n == last then next else EmplaceAll(next, Pairs(Pieces(buffer[n + 1..last])))
  {
    hide *;
    var s := buffer[pos..last];
    var k := IndexOf(s, '&');
    FirstPiece(s, m);
    CutAt(buffer, pos, last, k);
    if k < |s| { CutAt(buffer, pos, last, k + 1); }
  }

  lemma PairsFirst(piece: string, more: seq<string>, m: map<string, string>)
    ensures EmplaceAll(m, Pairs([piece] + more))
         == EmplaceAll(Emplace(m, PairOf(piece).0, PairOf(piece).1), Pairs(more))
    ensures more == [] ==> EmplaceAll(m, Pairs([piece] + more)) == Emplace(m, PairOf(piece).0, PairOf(piece).1)
  {
    hide PairOf, Emplace;
    assert Pairs([piece] + more)[1..] == Pairs(more);
  }

  lemma QueryStepIs(s: string, r: Request)
    ensures var used := if s != "" && s[|s| - 1] != '&' then |s| + 1 else |s|;
            QueryStep(s, r) == Step(true, r.(query := QueryMap(s)), used)
  {}

  lemma QueryIs(s: string)
    ensures EmplaceAll(map[], Pairs(Pieces(s))) == QueryMap(s)
  {}

  lemma NoPieces(m: map<string, string>)
    ensures EmplaceAll(m, Pairs(Pieces(""))) == m
  {}

  lemma PairParts(piece: string)
    ensures var n := IndexOf(piece, '=');
           PairOf(piece) == if n == |piece| then (piece, "") else (piece[..n], piece[n + 1..])
  {}

  lemma ColonFound(line: string)
    ensures ':' in line <==> IndexOf(line, ':') < |line|
  {
    assert line[..|line|] == line;
  }

  // ---- request line

  function MethodStep(s: string, r: Request): Step {
    var n := IndexOf(s, ' ');
    if n == |s| || MethodOf(s[..n]) == UnknownMethod then Step(false, r, 0)
    else Step(true, r.(httpMethod := MethodOf(s[..n])), n + 1)
  }

  function PathStep(s: string, r: Request): Step {
    if s == "" then Step(false, r, 0) else Step(true, r.(path := s), |s|)
  }

  /** The loop steps over the end of the query unless the query is empty or ends with `&`. */
  function QueryStep(s: string, r: Request): Step {
    Step(true, r.(query := QueryMap(s)), if s != "" && s[|s| - 1] != '&' then |s| + 1 else |s|)
  }

  function PathAndQueryStep(s: string, r: Request): (p: Step)
    ensures p.used <= |s|
  {
    var n := IndexOf(s, ' ');
    if n == |s| then Step(false, r, 0)
    else
      var uri := s[..n];
      var k := IndexOf(uri, '?');
      if k == n then PathStep(uri, r).(ok := true)
      else
        var p := PathStep(uri[..k], r);
        if !p.ok then p
        else
          var q := QueryStep(uri[k + 1..], p.request);
          q.(used := k + 1 + q.used)
  }

  lemma NoUri(s: string, r: Request)
    requires IndexOf(s, ' ') == |s|
    ensures PathAndQueryStep(s, r) == Step(false, r, 0)
  {}

  lemma PathAlone(s: string, r: Request)
    requires IndexOf(s, ' ') < |s| && IndexOf(s[..IndexOf(s, ' ')], '?') == IndexOf(s, ' ')
    ensures PathAndQueryStep(s, r) == PathStep(s[..IndexOf(s, ' ')], r).(ok := true)
  {
    hide IndexOf, QueryMap;
    var n := IndexOf(s, ' ');
    assert s[..n][..n] == s[..n];
  }

  lemma PathThenQuery(s: string, r: Request, n: nat, k: nat)
    requires n == IndexOf(s, ' ') < |s| && k == IndexOf(s[..n], '?') < n
    ensures var p := PathStep(s[..k], r);
            if !p.ok then PathAndQueryStep(s, r) == p
            else
              var q := QueryStep(s[k + 1..n], p.request);
              p.used == k && q.ok && PathAndQueryStep(s, r) == q.(used := k + 1 + q.used)
  {
    hide IndexOf, QueryMap;
    assert s[..n][..k] == s[..k] && s[..n][k + 1..] == s[k + 1..n];
  }

  function VersionStep(s: string, r: Request): Step {
    if VersionOf(s) == UnknownVersion then Step(false, r, 0) else Step(true, r.(version := VersionOf(s)), |s|)
  }

  /** On success the cursor moves two characters past the end of the line, whatever they are. */
  function RequestLineStep(s: string, r: Request): Step {
    if s == "" then Step(false, r, 0)
    else
      var line := s[..LineEnd(s)];
      var a := MethodStep(line, r);
      if !a.ok then a
      else
        var b := PathAndQueryStep(line[a.used..], a.request);
        if !b.ok then b.(used := a.used + b.used)
        else
          var c := VersionStep(line[a.used + b.used..], b.request);
          c.(used := a.used + b.used + c.used + if c.ok then 2 else 0)
  }

  lemma {:induction false} RequestLineCases(s: string, r: Request)
    ensures s == "" ==> RequestLineStep(s, r) == Step(false, r, 0)
    ensures var line := s[..LineEnd(s)];
            var a := MethodStep(line, r);
            s != "" ==>
              && a.used <= |line|
              && (!a.ok ==> RequestLineStep(s, r) == a)
              && (a.ok ==>
                    var b := PathAndQueryStep(line[a.used..], a.request);
                    && a.used + b.used <= |line|
                    && (!b.ok ==> RequestLineStep(s, r) == b.(used := a.used + b.used))
                    && (b.ok ==>
                          var c := VersionStep(line[a.used + b.used..], b.request);
                          RequestLineStep(s, r) == c.(used := a.used + b.used + c.used + if c.ok then 2 else 0)))
  {
    hide PathAndQueryStep, VersionStep, LineEnd;
    if s != "" { MethodBound(s[..LineEnd(s)], r); }
  }

  lemma {:induction false} MethodBound(line: string, r: Request)
    ensures MethodStep(line, r).used <= |line|
  {}

  // ---- headers

  /** `OutOfRange`: the cursor was moved past the end of the data and read from there. */
  datatype HeaderOutcome = Parsed(step: Step) | OutOfRange(request: Request)

  function FieldOf(line: string): (string, string) {
    var n := IndexOf(line, ':');
    (ToLower(line[..n]), if n == |line| then "" else ToLower(DropBlanks(line[n + 1..])))
  }

  lemma {:induction false} FieldParts(line: string)
    ensures var n := IndexOf(line, ':');
            n < |line| ==>
              var v := n + 1 + Run(line[n + 1..], IsBlank);
              v <= |line| && FieldOf(line) == (ToLower(line[..n]), ToLower(line[v..]))
  {
    hide IndexOf, Run, ToLower;
    var n := IndexOf(line, ':');
    if n < |line| {
      DropTwice(line, n + 1, Run(line[n + 1..], IsBlank));
    }
  }

  /** The parts of a header line where they stand in the buffer: the colon at `n`, the value from `v`. */
  lemma FieldSlices(buffer: string, first: nat, lineEnd: nat, n: nat, v: nat)
    requires first <= n < lineEnd <= |buffer| && n == first + IndexOf(buffer[first..lineEnd], ':')
    requires v == n + 1 + Run(buffer[n + 1..lineEnd], IsBlank)
    ensures v <= lineEnd && FieldOf(buffer[first..lineEnd]) == (ToLower(buffer[first..n]), ToLower(buffer[v..lineEnd]))
  {
    hide *;
    var line := buffer[first..lineEnd];
    FieldParts(line);
    CutAt(buffer, first, lineEnd, n - first);
    CutAt(buffer, first, lineEnd, n + 1 - first);
    CutAt(buffer, first, lineEnd, v - first);
  }

  lemma CutAt(s: string, first: nat, last: nat, i: nat)
    requires first <= last <= |s| && i <= last - first
    ensures s[first..last][..i] == s[first..first + i] && s[first..last][i..] == s[first + i..last]
  {}

  lemma DropTwice(s: string, i: nat, j: nat)
    requires i + j <= |s|
    ensures s[i..][j..] == s[i + j..]
  {}

  lemma InsertIs(r: Request, line: string)
    ensures InsertField(r, line) == r.(headers := Emplace(r.headers, FieldOf(line).0, FieldOf(line).1))
  {}

  function InsertField(r: Request, line: string): Request {
    r.(headers := Emplace(r.headers, FieldOf(line).0, FieldOf(line).1))
  }

  /** `s` is what is left of the data, `used` what was used of it before. */
  function HeaderStep(s: string, r: Request, used: nat): HeaderOutcome
    decreases |s|
  {
    if s == "" then Parsed(Step(false, r, used))
    else
      var n := LineEnd(s);
      if n == 0 then Parsed(Step(true, r, used + 2))
      else if ':' !in s[..n] then Parsed(Step(false, r, used))
      else if n + 2 > |s| then OutOfRange(InsertField(r, s[..n]))
      else HeaderStep(s[n + 2..], InsertField(r, s[..n]), used + n + 2)
  }

  lemma {:induction false} HeaderCases(s: string, r: Request, used: nat)
    ensures s == "" ==> HeaderStep(s, r, used) == Parsed(Step(false, r, used))
    ensures s != "" && LineEnd(s) == 0 ==> HeaderStep(s, r, used) == Parsed(Step(true, r, used + 2))
    ensures LineEnd(s) > 0 && ':' !in s[..LineEnd(s)] ==> HeaderStep(s, r, used) == Parsed(Step(false, r, used))
    ensures LineEnd(s) > 0 && ':' in s[..LineEnd(s)] ==>
              HeaderStep(s, r, used) == if LineEnd(s) + 2 > |s| then OutOfRange(InsertField(r, s[..LineEnd(s)]))
                                        else HeaderStep(s[LineEnd(s) + 2..], InsertField(r, s[..LineEnd(s)]),
                                            used + LineEnd(s) + 2)
  {}
}
