/** The request parser's cursor functions, filling the request step by step, proved against RequestSpec. */
module RequestParser {
  import opened Text
  import opened RequestSpec

  class RequestParser {
    var buffer: string
    var httpMethod: HttpMethod
    var version: HttpVersion
    var path: string
    var query: map<string, string>
    var headers: map<string, string>

    constructor (buffer: string)
      ensures this.buffer == buffer && InProduction() == Request(UnknownMethod, UnknownVersion, "", map[], map[])
    {
      this.buffer := buffer;
      httpMethod, version, path, query, headers := UnknownMethod, UnknownVersion, "", map[], map[];
    }

    function InProduction(): Request
      reads this
    {
      Request(httpMethod, version, path, query, headers)
    }

    /** `std::find`. */
    method Find(first: nat, last: nat, c: char) returns (pos: nat)
      requires first <= last <= |buffer|
      ensures pos == first + IndexOf(buffer[first..last], c) && first <= pos <= last
    {
      pos := first;
      while pos < last && buffer[pos] != c
        invariant first <= pos <= last
        invariant first + IndexOf(buffer[first..last], c) == pos + IndexOf(buffer[pos..last], c)
      {
        assert buffer[pos..last][1..] == buffer[pos + 1..last];
        pos := pos + 1;
      }
    }

    /** `std::find_first_of` with CR and LF. */
    method FindLineEnd(first: nat, last: nat) returns (pos: nat)
      requires first <= last <= |buffer|
      ensures pos == first + LineEnd(buffer[first..last]) && first <= pos <= last
    {
      pos := first;
      while pos < last && buffer[pos] != '\r' && buffer[pos] != '\n'
        invariant first <= pos <= last
        invariant first + LineEnd(buffer[first..last]) == pos + LineEnd(buffer[pos..last])
      {
        assert buffer[pos..last][1..] == buffer[pos + 1..last];
        pos := pos + 1;
      }
    }

    /** `std::find_if` for anything but a space. */
    method FindNonBlank(first: nat, last: nat) returns (pos: nat)
      requires first <= last <= |buffer|
      ensures pos == first + Run(buffer[first..last], IsBlank) && first <= pos <= last
    {
      pos := first;
      while pos < last && buffer[pos] == ' '
        invariant first <= pos <= last
        invariant first + Run(buffer[first..last], IsBlank) == pos + Run(buffer[pos..last], IsBlank)
      {
        assert buffer[pos..last][1..] == buffer[pos + 1..last];
        pos := pos + 1;
      }
    }

    method ParseRequestLine(first: nat, last: nat) returns (ok: bool, pos: nat)
      requires first <= last <= |buffer|
      modifies this
      ensures buffer == old(buffer) && pos >= first
      ensures Step(ok, InProduction(), pos - first) == RequestLineStep(old(buffer[first..last]), old(InProduction()))
    {
      hide *;
      ghost var s := buffer[first..last];
      RequestLineCases(s, InProduction());
      pos := first;
      if pos == last { return false, pos; }
      var lineEnd := FindLineEnd(pos, last);
      Slices(buffer, first, last, 0, lineEnd - first);
      ok, pos := ParseMethod(pos, lineEnd);
      if !ok { return; }
      Slices(buffer, first, lineEnd, pos - first, lineEnd - first);
      ok, pos := ParsePathAndQuery(pos, lineEnd);
      if !ok { return; }
      Slices(buffer, first, lineEnd, pos - first, lineEnd - first);
      ok, pos := ParseVersion(pos, lineEnd);
      if !ok { return; }
      pos := pos + 2;
    }

    method ParseMethod(first: nat, last: nat) returns (ok: bool, pos: nat)
      requires first <= last <= |buffer|
      modifies `httpMethod
      ensures first <= pos <= last
      ensures Step(ok, InProduction(), pos - first) == MethodStep(buffer[first..last], old(InProduction()))
    {
      pos := first;
      var methodEnd := Find(first, last, ' ');
      if methodEnd == last { return false, pos; }
      assert buffer[first..methodEnd] == buffer[first..last][..methodEnd - first];
      var m := MethodOf(buffer[first..methodEnd]);
      if m == UnknownMethod { return false, pos; }
      httpMethod := m;
      return true, methodEnd + 1;
    }

    method ParsePathAndQuery(first: nat, last: nat) returns (ok: bool, pos: nat)
      requires first <= last <= |buffer|
      modifies `path, `query
      ensures first <= pos <= last
      ensures Step(ok, InProduction(), pos - first) == PathAndQueryStep(buffer[first..last], old(InProduction()))
    {
      hide *;
      ghost var s, r := buffer[first..last], InProduction();
      pos := first;
      var uriEnd := Find(first, last, ' ');
      if uriEnd == last {
        NoUri(s, r);
        return false, pos;
      }
      Slices(buffer, first, last, 0, uriEnd - first);
      var queryStart := Find(first, uriEnd, '?');
      if queryStart == uriEnd {
        PathAlone(s, r);
        ok, pos := ParsePath(first, uriEnd);
      } else {
        PathThenQuery(s, r, uriEnd - first, queryStart - first);
        Slices(buffer, first, last, 0, queryStart - first);
        Slices(buffer, first, last, queryStart + 1 - first, uriEnd - first);
        ok, pos := ParsePath(first, queryStart);
        if !ok { return; }
        ok, pos := ParseQuery(pos + 1, uriEnd);
        if !ok { return; }
      }
      return true, pos;
    }

    method ParsePath(first: nat, last: nat) returns (ok: bool, pos: nat)
      requires first <= last <= |buffer|
      modifies `path
      ensures first <= pos <= last
      ensures Step(ok, InProduction(), pos - first) == PathStep(buffer[first..last], old(InProduction()))
    {
      if last - first <= 0 { return false, first; }
      path := buffer[first..last];
      return true, last;
    }

    /** Ends one past `last` unless the query is empty or ends with `&`. */
    method ParseQuery(first: nat, last: nat) returns (ok: bool, pos: nat)
      requires first <= last <= |buffer|
      modifies `query
      ensures first <= pos <= last + 1
      ensures Step(ok, InProduction(), pos - first) == QueryStep(buffer[first..last], old(InProduction()))
    {
      hide *;
      QueryStepIs(buffer[first..last], InProduction());
      InProductionIs();
      ghost var s := buffer[first..last];
      var found: map<string, string> := map[];
      QueryIs(s);
      pos := first;
      while pos < last
        invariant first <= pos <= last + 1
        invariant pos <= last ==> EmplaceAll(found, Pairs(Pieces(buffer[pos..last]))) == QueryMap(s)
        invariant pos > last ==> found == QueryMap(s) && first < last && buffer[last - 1] != '&'
        invariant first < pos == last ==> buffer[last - 1] == '&'
        decreases last - pos
      {
        PieceAt(buffer, pos, last, found);
        found, pos := ParsePair(pos, last, found);
        pos := pos + 1;
      }
      if pos == last { NoPieces(found); }
      query := found;
      InProductionIs();
      return true, pos;
    }

    /** Takes in the pair up to the next `&` or `last`, whichever comes first, and stops there. */
    method ParsePair(first: nat, last: nat, found: map<string, string>) returns (found': map<string, string>, pos: nat)
      requires first < last <= |buffer|
      ensures pos == first + IndexOf(buffer[first..last], '&') && first <= pos <= last
      ensures pos == last ==> buffer[last - 1] != '&'
      ensures pos < last ==> buffer[pos] == '&'
      ensures var pair := PairOf(buffer[first..pos]); found' == Emplace(found, pair.0, pair.1)
    {
      hide IndexOf, PairOf, Emplace;
      pos := Find(first, last, '&');
      ghost var piece := buffer[first..pos];
      Slices(buffer, first, last, 0, pos - first);
      if pos == last { assert piece[|piece| - 1] == buffer[last - 1]; }
      var keyEnd := Find(first, pos, '=');
      PairParts(piece);
      Slices(buffer, first, pos, keyEnd - first, keyEnd - first);
      if keyEnd == pos {
        found' := Emplace(found, buffer[first..pos], "");
      } else {
        var valueStart := keyEnd + 1;
        Slices(buffer, first, pos, valueStart - first, pos - first);
        found' := Emplace(found, buffer[first..keyEnd], buffer[valueStart..pos]);
      }
    }

    method ParseVersion(first: nat, last: nat) returns (ok: bool, pos: nat)
      requires first <= last <= |buffer|
      modifies `version
      ensures first <= pos <= last
      ensures Step(ok, InProduction(), pos - first) == VersionStep(buffer[first..last], old(InProduction()))
    {
      var v := VersionOf(buffer[first..last]);
      if v == UnknownVersion { return false, first; }
      version := v;
      return true, last;
    }

    /** The header lines up to and with the blank one; `inRange` is false if the data was overrun. */
    method ParseHeader(first: nat, last: nat) returns (ok: bool, pos: nat, inRange: bool)
      requires first <= last <= |buffer|
      modifies `headers
      ensures pos >= first
      ensures HeaderStep(buffer[first..last], old(InProduction()), 0)
           == if inRange then Parsed(Step(ok, InProduction(), pos - first)) else OutOfRange(InProduction())
    {
      hide HeaderStep, InsertField, LineEnd;
      ghost var s, r := buffer[first..last], InProduction();
      pos := first;
      while pos != last
        invariant first <= pos <= last
        invariant HeaderStep(buffer[pos..last], InProduction(), pos - first) == HeaderStep(s, r, 0)
        decreases last - pos
      {
        ghost var rest := buffer[pos..last];
        HeaderCases(rest, InProduction(), pos - first);
        var lineEnd := FindLineEnd(pos, last);
        if lineEnd == pos {
          return true, pos + 2, true;
        }
        assert buffer[pos..lineEnd] == rest[..lineEnd - pos];
        ok := ParseField(pos, lineEnd);
        if !ok {
          return false, pos, true;
        }
        if lineEnd + 2 > last {
          return false, lineEnd + 2, false;
        }
        assert buffer[lineEnd + 2..last] == rest[lineEnd - pos + 2..];
        pos := lineEnd + 2;
      }
      HeaderCases("", InProduction(), pos - first);
      return false, pos, true;
    }

    /** One header line, without its line break; false if it has no colon. */
    method ParseField(first: nat, lineEnd: nat) returns (ok: bool)
      requires first <= lineEnd <= |buffer|
      modifies `headers
      ensures ok == (':' in buffer[first..lineEnd])
      ensures InProduction() == if ok then InsertField(old(InProduction()), buffer[first..lineEnd])
             else old(InProduction())
    {
      hide *;
      ghost var line := buffer[first..lineEnd];
      ColonFound(line);
      var keyEnd := Find(first, lineEnd, ':');
      if keyEnd == lineEnd { return false; }
      var key := buffer[first..keyEnd];
      var valueStart := FindNonBlank(keyEnd + 1, lineEnd);
      var value := buffer[valueStart..lineEnd];
      FieldSlices(buffer, first, lineEnd, keyEnd, valueStart);
      InsertIs(InProduction(), line);
      InProductionIs();
      headers := Emplace(headers, ToLower(key), ToLower(value));
      InProductionIs();
      return true;
    }

    lemma InProductionIs()
      ensures InProduction() == Request(httpMethod, version, path, query, headers)
    {}
  }
}
