/** Printing an HTTP response into one buffer. */
module HttpResponse {
  import opened Basics
  import opened Text
  import opened Http
  import opened HttpText

  datatype StatusCode =
    | OK | BAD_REQUEST | UNAUTHORIZED | FORBIDDEN | NOT_FOUND | METHOD_NOT_ALLOWED
    | CONTENT_TOO_LARGE | URI_TOO_LONG | TOO_MANY_REQUESTS | INTERNAL_ERR

  function Code(c: StatusCode): nat {
    match c
    case OK => 200
    case BAD_REQUEST => 400
    case UNAUTHORIZED => 401
    case FORBIDDEN => 403
    case NOT_FOUND => 404
    case METHOD_NOT_ALLOWED => 405
    case CONTENT_TOO_LARGE => 413
    case URI_TOO_LONG => 414
    case TOO_MANY_REQUESTS => 429
    case INTERNAL_ERR => 500
  }

  function Reason(c: StatusCode): string {
    match c
    case OK => "Ok"
    case BAD_REQUEST => "Bad Request"
    case UNAUTHORIZED => "Unauthorized"
    case FORBIDDEN => "Forbidden"
    case NOT_FOUND => "Not Found"
    case METHOD_NOT_ALLOWED => "Method Not Allowed"
    case CONTENT_TOO_LARGE => "Content Too Large"
    case URI_TOO_LONG => "URI Too Long"
    case TOO_MANY_REQUESTS => "Too Many Requests"
    case INTERNAL_ERR => "Internal Error"
  }

  function StatusLine(c: StatusCode): string {
    "HTTP/1.1 " + Decimal(Code(c)) + " " + Reason(c)
  }

  lemma ShortReasonIsOneLine(c: StatusCode)
    requires c in {OK, BAD_REQUEST, UNAUTHORIZED, FORBIDDEN, NOT_FOUND}
    ensures Without(Reason(c), '\n')
  {
  }

  lemma LongReasonIsOneLine(c: StatusCode)
    requires c !in {OK, BAD_REQUEST, UNAUTHORIZED, FORBIDDEN, NOT_FOUND}
    ensures Without(Reason(c), '\n')
  {
  }

  lemma StatusLineIsOneLine(c: StatusCode)
    ensures Without(StatusLine(c), '\n')
  {
    if c in {OK, BAD_REQUEST, UNAUTHORIZED, FORBIDDEN, NOT_FOUND} {
      ShortReasonIsOneLine(c);
    } else {
      LongReasonIsOneLine(c);
    }
    DecimalIsTrimmed(Code(c));
  }

  /** `list` gives every header of `hs` once, in some order. */
  ghost predicate Enumerates(list: seq<(string, string)>, hs: Headers) {
    && (forall j, k | 0 <= j < k < |list| :: list[j].0 != list[k].0)
    && (forall h | h in list :: h.0 in hs && h.1 == hs[h.0])
    && (forall name | name in hs :: (name, hs[name]) in list)
  }

  function AllHeaders(list: seq<(string, string)>, n: nat): seq<(string, string)> {
    list + [(CONTENT_LENGTH, Decimal(n))]
  }

  /** A nonempty body is followed by an empty line; behind an empty one the reserved space stays zero. */
  function Printed(c: StatusCode, list: seq<(string, string)>, body: string): string {
    StatusLine(c) + CRLF + HeaderLines(AllHeaders(list, |body|)) + CRLF
      + (if body == "" then "\0\0\0\0" else body + CRLF + CRLF)
  }

  function Flatten(lines: seq<string>): string {
    if lines == [] then "" else Flatten(lines[..|lines| - 1]) + lines[|lines| - 1]
  }

  lemma {:induction false} HeaderLinesAppend(a: seq<(string, string)>, h: (string, string))
    ensures HeaderLines(a + [h]) == HeaderLines(a) + (HeaderLine(h) + CRLF)
  {
    if a == [] {
      assert [h][1..] == [];
      assert HeaderLines([h]) == HeaderLine(h) + CRLF + "";
      assert a + [h] == [h];
    } else {
      assert (a + [h])[1..] == a[1..] + [h];
      HeaderLinesAppend(a[1..], h);
      Assoc(HeaderLine(a[0]) + CRLF, HeaderLines(a[1..]), HeaderLine(h) + CRLF);
    }
  }

  lemma {:induction false} FlattenPrefix(lines: seq<string>, k: nat)
    requires k <= |lines|
    ensures |Flatten(lines[..k])| <= |Flatten(lines)|
    decreases |lines| - k
  {
    if k < |lines| {
      assert lines[..k + 1][..k] == lines[..k];
      FlattenPrefix(lines, k + 1);
    } else {
      assert lines[..k] == lines;
    }
  }

  class HttpResponse {
    var code: StatusCode
    var respHeaders: Headers
    var sealed: bool
    var body: string

    constructor ()
      ensures code == OK && respHeaders == map[] && !sealed && body == ""
    {
      code, respHeaders, sealed, body := OK, map[], false, "";
    }

    method WithHeader(name: string, value: string)
      modifies this`respHeaders
      ensures respHeaders == old(respHeaders)[name := value]
    {
      respHeaders := respHeaders[name := value];
    }

    /** The body can be set once. */
    method WithBody(body: string) returns (ok: bool)
      modifies this`body, this`sealed
      ensures ok == !old(sealed) && sealed
      ensures this.body == if ok then body else old(this.body)
    {
      if sealed { return false; }
      this.body := body;
      sealed := true;
      return true;
    }

    method HeaderPart() returns (lines: seq<string>, ghost list: seq<(string, string)>)
      ensures Enumerates(list, respHeaders)
      ensures Flatten(lines) == StatusLine(code) + CRLF + HeaderLines(AllHeaders(list, |body|)) + CRLF
    {
      lines := [StatusLine(code) + CRLF];
      list := [];
      assert lines[..0] == [];
      assert Flatten(lines) == StatusLine(code) + CRLF + HeaderLines(list);
      var rest := respHeaders.Keys;
      while rest != {}
        invariant rest <= respHeaders.Keys
        invariant Flatten(lines) == StatusLine(code) + CRLF + HeaderLines(list)
        invariant forall j, k | 0 <= j < k < |list| :: list[j].0 != list[k].0
        invariant forall h | h in list :: h.0 in respHeaders && h.0 !in rest && h.1 == respHeaders[h.0]
        invariant forall name | name in respHeaders && name !in rest :: (name, respHeaders[name]) in list
      {
        var name :| name in rest;
        lines := AddLine(lines, list, (name, respHeaders[name]));
        list := list + [(name, respHeaders[name])];
        rest := rest - {name};
      }
      lines := AddLine(lines, list, (CONTENT_LENGTH, Decimal(|body|)));
      assert (lines + [CRLF])[..|lines|] == lines;
      lines := lines + [CRLF];
    }

    method AddLine(lines: seq<string>, ghost list: seq<(string, string)>, h: (string, string))
      returns (lines': seq<string>)
      requires Flatten(lines) == StatusLine(code) + CRLF + HeaderLines(list)
      ensures Flatten(lines') == StatusLine(code) + CRLF + HeaderLines(list + [h])
    {
      lines' := lines + [HeaderLine(h) + CRLF];
      assert lines'[..|lines|] == lines;
      HeaderLinesAppend(list, h);
      Assoc(StatusLine(code) + CRLF, HeaderLines(list), HeaderLine(h) + CRLF);
    }

    method SizeOf(lines: seq<string>) returns (size: nat)
      ensures size == |Flatten(lines)|
    {
      size := 0;
      for k := 0 to |lines|
        invariant size == |Flatten(lines[..k])|
      {
        assert lines[..k + 1][..k] == lines[..k];
        size := size + |lines[k]|;
      }
      assert lines[..|lines|] == lines;
    }

    /** The buffer is as large as the lines, the body, and four more characters; every copy stays
        inside it. */
    method Generate() returns (respBuffer: array<char>)
      ensures fresh(respBuffer)
      ensures exists list :: Enumerates(list, respHeaders) && respBuffer[..] == Printed(code, list, body)
    {
      var lines;
      ghost var list;
      lines, list := HeaderPart();
      var size := SizeOf(lines);
      respBuffer := new char[size + |body| + 4](_ => '\0');
      CopyLines(respBuffer, lines);
      if body != "" {
        Copy(respBuffer, size, body);
        Copy(respBuffer, size + |body|, CRLF + CRLF);
        assert respBuffer[..] == Flatten(lines) + body + (CRLF + CRLF);
        Assoc(Flatten(lines), body, CRLF + CRLF);
        Assoc(body, CRLF, CRLF);
      } else {
        assert respBuffer[..] == Flatten(lines) + "\0\0\0\0";
      }
    }
  }

  method CopyLines(buffer: array<char>, lines: seq<string>)
    requires |Flatten(lines)| <= buffer.Length
    modifies buffer
    ensures buffer[..] == Flatten(lines) + old(buffer[..])[|Flatten(lines)|..]
  {
    var copyIdx := 0;
    ghost var before := buffer[..];
    assert lines[..|lines|] == lines && before == Flatten(lines[..0]) + before[0..];
    for k := 0 to |lines|
      invariant copyIdx == |Flatten(lines[..k])| <= |Flatten(lines)|
      invariant buffer[..] == Flatten(lines[..k]) + before[copyIdx..]
    {
      assert lines[..k + 1][..k] == lines[..k];
      FlattenPrefix(lines, k + 1);
      OverlayNext(before, Flatten(lines[..k]), lines[k]);
      Copy(buffer, copyIdx, lines[k]);
      copyIdx := copyIdx + |lines[k]|;
    }
  }

  /** `b` with the characters from `at` on replaced by those of `s`. */
  function Overlay(b: string, at: nat, s: string): string
    requires at + |s| <= |b|
  {
    b[..at] + s + b[at + |s|..]
  }

  lemma OverlayNext(b: string, front: string, s: string)
    requires |front| + |s| <= |b|
    ensures Overlay(front + b[|front|..], |front|, s) == (front + s) + b[|front + s|..]
  {
  }

  method Copy(buffer: array<char>, at: nat, s: string)
    requires at + |s| <= buffer.Length
    modifies buffer
    ensures buffer[..] == Overlay(old(buffer[..]), at, s)
  {
    forall j | 0 <= j < |s| { buffer[at + j] := s[j]; }
  }

  // ---------------------------------------------------------------- reading a response back

  lemma {:induction false} HeaderMapAppend(hs: Headers, list: seq<(string, string)>, h: (string, string))
    ensures HeaderMap(hs, list + [h]) == HeaderMap(hs, list)[h.0 := Strip(h.1)]
    decreases |list|
  {
    if list == [] {
      assert [h][1..] == [] && list + [h] == [h];
    } else {
      assert (list + [h])[1..] == list[1..] + [h];
      HeaderMapAppend(hs[list[0].0 := Strip(list[0].1)], list[1..], h);
    }
  }

  lemma {:induction false} HeaderMapOfDistinct(list: seq<(string, string)>)
    requires forall j, k | 0 <= j < k < |list| :: list[j].0 != list[k].0
    ensures forall h | h in list :: h.0 in HeaderMap(map[], list) && HeaderMap(map[], list)[h.0] == Strip(h.1)
    ensures forall name | name in HeaderMap(map[], list) :: exists k :: 0 <= k < |list| && list[k].0 == name
  {
    if list != [] {
      var n := |list| - 1;
      HeaderMapOfDistinct(list[..n]);
      assert list == list[..n] + [list[n]];
      HeaderMapAppend(map[], list[..n], list[n]);
    }
  }

  /** The headers of a response as a reader sees them. */
  function ReadHeaders(hs: Headers, n: nat): Headers {
    (map name | name in hs :: Strip(hs[name]))[CONTENT_LENGTH := Decimal(n)]
  }

  lemma HeadersReadBack(list: seq<(string, string)>, hs: Headers, n: nat)
    requires Enumerates(list, hs)
    ensures HeaderMap(map[], AllHeaders(list, n)) == ReadHeaders(hs, n)
  {
    HeaderMapOfDistinct(list);
    HeaderMapAppend(map[], list, (CONTENT_LENGTH, Decimal(n)));
    DecimalIsTrimmed(n);
    var m := HeaderMap(map[], list);
    assert forall name | name in hs :: (name, hs[name]) in list && m[name] == Strip(hs[name]);
    assert m.Keys == hs.Keys;
  }

  lemma DecimalIsTrimmed(n: nat)
    ensures Strip(Decimal(n)) == Decimal(n) && Without(Decimal(n), '\n')
  {
  }

  lemma PrintedParts(c: StatusCode, list: seq<(string, string)>, body: string)
    ensures var s := Printed(c, list, body);
            var start := |StatusLine(c)| + 2;
            var tail := if body == "" then "\0\0\0\0" else body + CRLF + CRLF;
            && s == StatusLine(c) + CRLF + (HeaderLines(AllHeaders(list, |body|)) + CRLF + tail)
            && s[start..] == HeaderLines(AllHeaders(list, |body|)) + CRLF + tail
            && s[start + |HeaderLines(AllHeaders(list, |body|))| + 2..] == tail
  {
  }

  /** The header section of a response is read back as its headers with the right Content-Length, and
      that many characters behind it are the body. A Content-Length set by hand does not survive. */
  lemma ResponseReadBack(c: StatusCode, list: seq<(string, string)>, hs: Headers, body: string)
    requires Enumerates(list, hs) && |body| <= LONG_MAX
    requires forall name | name in hs :: GoodHeader((name, hs[name]))
    ensures var buf := Printed(c, list, body);
            var r := WithHeaders(NEW_REQUEST.(firstLineEnd := LineEnd(buf, 1)), buf);
            && LineEnd(buf, 1) < |buf|
            && r.headers == ReadHeaders(hs, |body|) && Strtol(r.headers[CONTENT_LENGTH]) == |body|
            && 0 < r.headersEnd && r.headersEnd + 1 + |body| <= |buf|
            && buf[r.headersEnd + 1..][..|body|] == body
  {
    var buf := Printed(c, list, body);
    var all := AllHeaders(list, |body|);
    var tail := if body == "" then "\0\0\0\0" else body + CRLF + CRLF;
    PrintedParts(c, list, body);
    StatusLineIsOneLine(c);
    LineEndOfPrinted(StatusLine(c), HeaderLines(all) + CRLF + tail, 1);
    StrtolOfDecimal(|body|);
    HeadersReadBack(list, hs, |body|);
    AllHeadersAreGood(list, hs, |body|);
    HeaderSectionReadBack(buf[|StatusLine(c)| + 2..], all, tail);
    BodyInFront(body);
  }

  lemma HeaderSectionReadBack(s: string, all: seq<(string, string)>, tail: string)
    requires s == HeaderLines(all) + CRLF + tail && all != [] && forall k | 0 <= k < |all| :: GoodHeader(all[k])
    ensures ScanHeaders(s, 1, 0, map[]) == (HeaderMap(map[], all), Some((|HeaderLines(all)| + 1) as nat))
  {
    assert s[0..] == s;
    ScanPrinted(s, 0, all, tail, map[]);
  }

  lemma BodyInFront(body: string)
    ensures (if body == "" then "\0\0\0\0" else body + CRLF + CRLF)[..|body|] == body
  {
  }

  lemma AllHeadersAreGood(list: seq<(string, string)>, hs: Headers, n: nat)
    requires Enumerates(list, hs) && forall name | name in hs :: GoodHeader((name, hs[name]))
    ensures forall k | 0 <= k < |AllHeaders(list, n)| :: GoodHeader(AllHeaders(list, n)[k])
  {
  }
}
