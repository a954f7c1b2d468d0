/** Printing requests and parsing them again. */
module RequestRoundTrip {
  import opened Text
  import opened RequestSpec

  // ---- request line (section 3.1.1 of RFC 7230)

  ghost predicate OneLine(s: string) { forall i | 0 <= i < |s| :: InLine(s[i]) }

  function Target(path: string, hasQuery: bool, query: string): string {
    if hasQuery then path + ("?" + query) else path
  }

  function RequestLine(m: HttpMethod, target: string, v: HttpVersion): string {
    MethodText(m) + (" " + (target + (" " + VersionText(v))))
  }

  lemma {:induction false} LineEndAt(line: string, rest: string)
    requires OneLine(line) && (rest == "" || !InLine(rest[0]))
    ensures LineEnd(line + rest) == |line| && (line + rest)[..|line|] == line
  {
    RunOfPrefix(line, rest, InLine);
  }

  lemma {:induction false} LineBreakAt(line: string, rest: string)
    requires OneLine(line)
    ensures LineEnd(line + ("\r\n" + rest)) == |line| && (line + ("\r\n" + rest))[..|line|] == line
    ensures (line + ("\r\n" + rest))[|line| + 2..] == rest && |line + ("\r\n" + rest)| == |line| + 2 + |rest|
  {
    LineEndAt(line, "\r\n" + rest);
  }

  lemma {:induction false} IndexAt(a: string, c: char, b: string)
    requires c !in a
    ensures IndexOf(a + ([c] + b), c) == |a| && (a + ([c] + b))[..|a|] == a && (a + ([c] + b))[|a| + 1..] == b
    ensures (a + ([c] + b))[|a|..] == [c] + b
  {
    hide IndexOf;
    IndexOfPrefix(a, b, c);
    assert a + [c] + b == a + ([c] + b);
  }

  /** The words of the request line that are known, one by one. */
  lemma KnownWords()
    ensures MethodOf("GET") == Get && MethodOf("HEAD") == Head && MethodOf("POST") == Post && MethodOf("PUT") == Put
    ensures MethodOf("PATCH") == Patch && MethodOf("DELETE") == Delete && MethodOf("CONNECT") == Connect
    ensures MethodOf("OPTIONS") == Options && MethodOf("TRACE") == Trace
    ensures VersionOf("HTTP/1.0") == Http10 && VersionOf("HTTP/1.1") == Http11
  {}

  lemma MethodTexts(m: HttpMethod)
    requires m != UnknownMethod
    ensures ' ' !in MethodText(m) && OneLine(MethodText(m)) && MethodOf(MethodText(m)) == m
  {}

  lemma VersionTexts(v: HttpVersion)
    requires v != UnknownVersion
    ensures ' ' !in VersionText(v) && OneLine(VersionText(v))
    ensures VersionOf(VersionText(v)) == v && VersionOf(" " + VersionText(v)) == UnknownVersion
  {}

  lemma OneLineSum(a: string, b: string)
    ensures OneLine(a + b) <==> OneLine(a) && OneLine(b)
  {
    if OneLine(a + b) {
      assert forall i | 0 <= i < |a| :: a[i] == (a + b)[i];
      assert forall i | 0 <= i < |b| :: b[i] == (a + b)[|a| + i];
    }
  }

  ghost predicate GoodPath(path: string) { ' ' !in path && '?' !in path && OneLine(path) }

  ghost predicate GoodQuery(query: string) { ' ' !in query && OneLine(query) }

  lemma RequestLineIsOneLine(m: HttpMethod, path: string, hasQuery: bool, query: string, v: HttpVersion)
    requires m != UnknownMethod && v != UnknownVersion && GoodPath(path) && GoodQuery(query)
    ensures OneLine(RequestLine(m, Target(path, hasQuery, query), v))
  {
    MethodTexts(m);
    VersionTexts(v);
    hide OneLine;
    OneLineSum(path, "?" + query);
    OneLineSum("?", query);
    QueryMark();
    var target := Target(path, hasQuery, query);
    OneLineSum(" ", VersionText(v));
    OneLineSum(target, " " + VersionText(v));
    OneLineSum(" ", target + (" " + VersionText(v)));
    OneLineSum(MethodText(m), " " + (target + (" " + VersionText(v))));
  }

  lemma QueryMark()
    ensures OneLine("?") && OneLine(" ")
  {}

  ghost predicate Endable(query: string) { query != "" && query[|query| - 1] != '&' }

  /** The target, and where the cursor is left behind it: past the space only after a query that does not end in `&`. */
  lemma TargetParsed(path: string, hasQuery: bool, query: string, after: string, r: Request)
    requires GoodPath(path) && GoodQuery(query)
    ensures var p := PathAndQueryStep(Target(path, hasQuery, query) + (" " + after), r);
            var n := |Target(path, hasQuery, query)|;
            && (hasQuery && path == "" ==> !p.ok)
            && (!(hasQuery && path == "") ==> p.ok)
            && (path != "" && hasQuery ==> p.request == r.(path := path, query := QueryMap(query)))
            && (hasQuery && path != "" && Endable(query) ==> p.used == n + 1)
            && (!(hasQuery && Endable(query)) ==> p.ok ==> p.used == n)
  {
    if hasQuery {
      TargetWithQuery(path, query, after, r);
    } else {
      TargetAlone(path, after, r);
    }
    hide PathAndQueryStep, QueryMap, GoodPath, GoodQuery;
  }

  lemma TargetAlone(path: string, after: string, r: Request)
    requires GoodPath(path)
    ensures PathAndQueryStep(path + (" " + after), r) == PathStep(path, r).(ok := true)
  {
    IndexAt(path, ' ', after);
    IndexOfAbsent(path, '?');
    hide IndexOf, PathAndQueryStep, PathStep;
    assert (path + (" " + after))[..|path|] == path;
    PathAlone(path + (" " + after), r);
  }

  lemma TargetWithQuery(path: string, query: string, after: string, r: Request)
    requires GoodPath(path) && GoodQuery(query)
    ensures var q := QueryStep(query, r.(path := path));
            var p := PathAndQueryStep(Target(path, true, query) + (" " + after), r);
            p == if path == "" then Step(false, r, 0) else q.(used := |path| + 1 + q.used)
  {
    var target := Target(path, true, query);
    assert ' ' !in target;
    IndexAt(target, ' ', after);
    IndexAt(path, '?', query);
    TargetPieces(path, query, after);
    hide IndexOf, PathAndQueryStep, QueryMap, Target;
    PathThenQuery(target + (" " + after), r, |target|, |path|);
  }

  lemma TargetPieces(path: string, query: string, after: string)
    ensures var target := Target(path, true, query);
            var s := target + (" " + after);
            && target == path + ("?" + query) && |target| == |path| + 1 + |query|
            && s[..|target|] == target && s[..|path|] == path && s[|path| + 1..|target|] == query
  {}

  /**
    A printed request line is accepted if and only if it has a path and a query that is not empty
    and does not end in `&`; then all four parts are recovered and the cursor is past the CRLF.
   */
  lemma RequestLineRoundTripIff(m: HttpMethod, path: string, hasQuery: bool, query: string, v: HttpVersion,
      rest: string, r: Request)
    requires m != UnknownMethod && v != UnknownVersion && GoodPath(path) && GoodQuery(query)
    ensures var line := RequestLine(m, Target(path, hasQuery, query), v);
            var step := RequestLineStep(line + ("\r\n" + rest), r);
            && (step.ok <==> path != "" && hasQuery && Endable(query))
            && (step.ok ==> step == Step(true, Request(m, v, path, QueryMap(query), r.headers), |line| + 2))
  {
    hide *;
    var target := Target(path, hasQuery, query);
    var after := VersionText(v);
    var line := RequestLine(m, target, v);
    RequestLineIs(m, target, v);
    RequestLineIsOneLine(m, path, hasQuery, query, v);
    LineBreakAt(line, rest);
    RequestLineCases(line + ("\r\n" + rest), r);
    MethodParsed(m, target + (" " + after), r);
    var p := PathAndQueryStep(target + (" " + after), r.(httpMethod := m));
    TargetParsed(path, hasQuery, query, after, r.(httpMethod := m));
    AfterTarget(target, after);
    VersionTexts(v);
    VersionParsed(after, p.request);
    VersionParsed(" " + after, p.request);
    Regrouped(line, |MethodText(m)| + 1, p.used);
  }

  lemma Regrouped(line: string, i: nat, j: nat)
    requires i + j <= |line|
    ensures line[i..][j..] == line[i + j..]
  {}

  lemma RequestLineIs(m: HttpMethod, target: string, v: HttpVersion)
    ensures RequestLine(m, target, v) == MethodText(m) + (" " + (target + (" " + VersionText(v))))
  {}

  lemma MethodParsed(m: HttpMethod, more: string, r: Request)
    requires m != UnknownMethod
    ensures var line := MethodText(m) + (" " + more);
            var a := MethodStep(line, r);
            a == Step(true, r.(httpMethod := m), |MethodText(m)| + 1) && line[a.used..] == more
  {
    MethodTexts(m);
    IndexAt(MethodText(m), ' ', more);
    hide IndexOf, MethodText, MethodOf;
  }

  lemma AfterTarget(target: string, after: string)
    ensures (target + (" " + after))[|target|..] == " " + after && (target + (" " + after))[|target| + 1..] == after
  {}

  lemma VersionParsed(s: string, r: Request)
    ensures VersionStep(s, r).ok <==> VersionOf(s) != UnknownVersion
    ensures VersionStep(s, r).ok ==> VersionStep(s, r) == Step(true, r.(version := VersionOf(s)), |s|)
  {}

  /** What is accepted is a printed request line: method, target with a path and a query, and version. */
  lemma RequestLineSound(s: string, r: Request) returns (query: string)
    requires RequestLineStep(s, r).ok
    ensures var r' := RequestLineStep(s, r).request;
            && s[..LineEnd(s)] == RequestLine(r'.httpMethod, Target(r'.path, true, query), r'.version)
            && r'.httpMethod != UnknownMethod && r'.version != UnknownVersion && r'.path != "" && Endable(query)
            && ' ' !in r'.path && '?' !in r'.path && ' ' !in query
            && r'.query == QueryMap(query) && r'.headers == r.headers
            && RequestLineStep(s, r).used == LineEnd(s) + 2
  {
    hide *;
    RequestLineCases(s, r);
    var line := s[..LineEnd(s)];
    var a := MethodStep(line, r);
    MethodSound(line, r);
    var more := line[a.used..];
    var b := PathAndQueryStep(more, a.request);
    var after := more[b.used..];
    Regrouped(line, a.used, b.used);
    VersionSound(after, b.request);
    query := TargetSound(more, a.request);
    RequestLineIs(a.request.httpMethod, Target(b.request.path, true, query), VersionOf(after));
  }

  lemma MethodSound(line: string, r: Request)
    requires MethodStep(line, r).ok
    ensures var a := MethodStep(line, r);
            && a.used <= |line| && a.request == r.(httpMethod := a.request.httpMethod)
                  && a.request.httpMethod != UnknownMethod
            && line == MethodText(a.request.httpMethod) + (" " + line[a.used..])
  {
    hide MethodText, MethodOf;
    var n := IndexOf(line, ' ');
    assert line == line[..n] + ([' '] + line[n + 1..]);
  }

  lemma VersionSound(s: string, r: Request)
    requires VersionStep(s, r).ok
    ensures VersionOf(s) != UnknownVersion && s == VersionText(VersionOf(s)) && s != "" && s[0] != ' '
    ensures VersionStep(s, r) == Step(true, r.(version := VersionOf(s)), |s|)
  {}

  /** Where the cursor is left behind a target. */
  lemma {:induction false} TargetUsed(s: string, r: Request)
    requires PathAndQueryStep(s, r).ok
    ensures var n := IndexOf(s, ' ');
            var k := IndexOf(s[..n], '?');
            && k <= n < |s| && s[n] == ' '
            && (k == n ==> PathAndQueryStep(s, r).used == n)
            && (k < n ==> k > 0 && PathAndQueryStep(s, r).used == if Endable(s[k + 1..n]) then n + 1 else n)
            && (k < n ==> PathAndQueryStep(s, r).request == r.(path := s[..k], query := QueryMap(s[k + 1..n])))
  {
    hide PathAndQueryStep, IndexOf, QueryMap;
    var n := IndexOf(s, ' ');
    if n == |s| {
      NoUri(s, r);
    } else if IndexOf(s[..n], '?') == n {
      PathAlone(s, r);
    } else {
      PathThenQuery(s, r, n, IndexOf(s[..n], '?'));
    }
  }

  /** Only behind a query that can end does the cursor not stand at a space. */
  lemma TargetHasQuery(s: string, r: Request)
    requires PathAndQueryStep(s, r).ok
    requires var p := PathAndQueryStep(s, r); p.used < |s| && s[p.used] != ' '
    ensures var n := IndexOf(s, ' ');
            var k := IndexOf(s[..n], '?');
            && 0 < k < n < |s| && Endable(s[k + 1..n])
            && PathAndQueryStep(s, r) == Step(true, r.(path := s[..k], query := QueryMap(s[k + 1..n])), n + 1)
  {
    hide PathAndQueryStep, IndexOf, QueryMap, Endable;
    TargetUsed(s, r);
  }

  lemma TargetSound(s: string, r: Request) returns (query: string)
    requires PathAndQueryStep(s, r).ok
    requires var p := PathAndQueryStep(s, r); p.used < |s| && s[p.used] != ' '
    ensures var p := PathAndQueryStep(s, r);
            && s == Target(p.request.path, true, query) + (" " + s[p.used..])
            && p.request == r.(path := p.request.path, query := QueryMap(query))
            && p.request.path != "" && Endable(query)
            && ' ' !in p.request.path && '?' !in p.request.path && ' ' !in query
  {
    hide PathAndQueryStep, IndexOf, QueryMap, Target, Endable;
    TargetHasQuery(s, r);
    var n := IndexOf(s, ' ');
    var k := IndexOf(s[..n], '?');
    query := s[k + 1..n];
    TargetText(s, k, n);
  }

  lemma TargetText(s: string, k: nat, n: nat)
    requires k < n < |s| && s[k] == '?' && s[n] == ' ' && ' ' !in s[..n] && '?' !in s[..n][..k]
    ensures s == Target(s[..k], true, s[k + 1..n]) + (" " + s[n + 1..])
    ensures ' ' !in s[..k] && ' ' !in s[k + 1..n] && '?' !in s[..k]
  {
    assert s[..n][..k] == s[..k];
    assert forall i | k + 1 <= i < n :: s[i] in s[..n];
  }
}
