/** Recognising the request line and parsing the rest of an HTTP/1.1 request (RFC 9112 sections 3, 5
    and 6.2) in a buffer that may still be growing. */
module Http {
  import opened Basics
  import opened Text
  import opened Url

  const FIRST_LINE_LENGTH_LIMIT: nat := 5 * 1024
  const CONTENT_LENGTH := "Content-Length"

  datatype ParseStatus = INVALID | CONTINUE | COMPLETE

  type Headers = map<string, string>

  datatype Request = Request(
    firstLineEnd: nat, valid: bool, headersEnd: nat,
    action: string, rawQ: string, query: Query, version: string,
    headers: Headers, body: string)

  const NEW_REQUEST := Request(0, false, 0, "", "", Query("", map[]), "", map[], "")

  // ---------------------------------------------------------------- specification

  /** The first position from `from` on where a line ends with CR LF, or a position past the end. */
  function LineEnd(buf: string, from: nat): (r: nat)
    requires from >= 1
    ensures r >= from
    decreases |buf| - from
  {
    if from >= |buf| || (buf[from] == '\n' && buf[from - 1] == '\r') then from else LineEnd(buf, from + 1)
  }

  /** The method, the target, and the position of the last blank used, from the part of the line at
      `idx` on. A method is known once it is nonempty, so a blank at the very start is skipped. */
  function ScanTarget(line: string, idx: nat, action: string, lastBlank: nat): (r: (string, string, nat))
    requires idx <= |line| && (lastBlank < idx || (lastBlank == 0 && action == ""))
    ensures r.2 == 0 || r.2 < |line|
    decreases |line| - idx
  {
    if idx == |line| then (action, "", lastBlank)
    else if !IsSpace(line[idx]) then ScanTarget(line, idx + 1, action, lastBlank)
    else if action == "" then ScanTarget(line, idx + 1, line[..idx], idx)
    else (action, line[lastBlank + 1..idx], idx)
  }

  /** The version after "HTTP/". The slash must not be the last character. */
  function Version(part: string): Option<string> {
    var slash := Find(part, '/', 0);
    if |part| >= 5 && slash < |part| - 1 && part[..slash] == "HTTP" then Some(part[slash + 1..]) else None
  }

  function ProbeLine(r: Request, line: string): (Request, ParseStatus) {
    var (action, rawQ, lastBlank) := ScanTarget(line, 0, "", 0);
    var r' := r.(action := action, rawQ := rawQ, query := ParseQuery(rawQ));
    if lastBlank == 0 then (r', INVALID)
    else match Version(line[lastBlank + 1..])
      case None => (r', INVALID)
      case Some(version) => (r'.(version := version, valid := true), CONTINUE)
  }

  function Probe(r: Request, buf: string): (Request, ParseStatus) {
    var end := LineEnd(buf, 1);
    if end >= FIRST_LINE_LENGTH_LIMIT || end >= |buf| then (r, INVALID)
    else ProbeLine(r.(firstLineEnd := end), buf[..end - 1])
  }

  /** A line without a colon is skipped; of several headers of one name the last stays. */
  function AddHeader(hs: Headers, line: string): Headers {
    var pos := Find(line, ':', 0);
    if pos == |line| then hs else hs[Strip(line[..pos]) := Strip(line[pos + 1..])]
  }

  /** The headers from the line starting at `begin`, scanning at `idx`, and the position of the last
      character of the empty line that ends them. */
  function ScanHeaders(s: string, idx: nat, begin: nat, hs: Headers): (r: (Headers, Option<nat>))
    requires 1 <= idx && begin <= idx && (begin == idx ==> begin <= |s| && s[begin - 1] == '\n')
    ensures r.1.Some? ==> 4 <= r.1.value < |s|
    decreases |s| - idx
  {
    if idx >= |s| then (hs, None)
    else if s[idx] == '\n' && s[idx - 1] == '\r' then
      if idx >= 4 && s[idx - 2] == '\n' && s[idx - 3] == '\r' then (hs, Some(idx))
      else ScanHeaders(s, idx + 1, idx + 1, AddHeader(hs, s[begin..idx - 1]))
    else ScanHeaders(s, idx + 1, begin, hs)
  }

  /** The header section is parsed once; from then on only its end is used. */
  function WithHeaders(r: Request, buf: string): Request {
    if r.headersEnd != 0 || r.firstLineEnd >= |buf| then r
    else
      var (hs, end) := ScanHeaders(buf[r.firstLineEnd + 1..], 1, 0, r.headers);
      r.(headers := hs, headersEnd := if end.Some? then end.value + r.firstLineEnd + 1 else 0)
  }

  /** With a Content-Length, the body is as long as it says; without one, the request has to end with
      an empty line. */
  function Body(r: Request, buf: string): (Request, ParseStatus)
    requires r.headersEnd < |buf| && (r.headersEnd == 0 || r.headersEnd >= 4)
  {
    var rest := buf[r.headersEnd + 1..];
    if CONTENT_LENGTH in r.headers then
      var length := Strtol(r.headers[CONTENT_LENGTH]);
      if length <= 0 then (r, INVALID)
      else if length == |rest| then (r.(body := rest), COMPLETE)
      else if length > |rest| then (r, CONTINUE)
      else (r, INVALID)
    else if r.headersEnd > 0 && buf[|buf| - 4..] == "\r\n\r\n" then (r.(body := rest), COMPLETE)
    else (r, INVALID)
  }

  function Parse(r: Request, buf: string): (Request, ParseStatus)
    requires r.firstLineEnd < |buf| && r.headersEnd < |buf| && (r.headersEnd == 0 || r.headersEnd >= 4)
  {
    if r.firstLineEnd == 0 then (r, INVALID) else Body(WithHeaders(r, buf), buf)
  }

  // ---------------------------------------------------------------- implementation

  class HttpRequest {
    var firstLineEndIdx: nat
    var valid: bool
    var headersEndIdx: nat
    var action: string
    var rawQ: string
    const q: UrlQuery
    var httpVersion: string
    var headers: Headers
    var body: string

    constructor ()
      ensures View() == NEW_REQUEST && fresh(q)
    {
      firstLineEndIdx, valid, headersEndIdx := 0, false, 0;
      action, rawQ, httpVersion, headers, body := "", "", "", map[], "";
      q := new UrlQuery();
    }

    function View(): Request
      reads this, q
    {
      Request(firstLineEndIdx, valid, headersEndIdx, action, rawQ, q.View(), httpVersion, headers, body)
    }

    method ParseHeaders(s: string, start: nat)
      modifies this`headers, this`headersEndIdx
      ensures var (hs, end) := ScanHeaders(s, 1, 0, old(headers));
              headers == hs && headersEndIdx == if end.Some? then end.value + start else old(headersEndIdx)
    {
      var idx, newLineBegin := 1, 0;
      ghost var all := ScanHeaders(s, 1, 0, headers);
      while idx < |s|
        invariant 1 <= idx && 0 <= newLineBegin <= idx
        invariant newLineBegin == idx ==> newLineBegin <= |s| && s[newLineBegin - 1] == '\n'
        invariant ScanHeaders(s, idx, newLineBegin, headers) == all
        invariant headersEndIdx == old(headersEndIdx)
      {
        if s[idx] == '\n' {
          if s[idx - 1] == '\r' {
            if idx >= 4 && s[idx - 2] == '\n' && s[idx - 3] == '\r' {
              headersEndIdx := idx + start;
              return;
            }
            ParseHeaderLine(s[newLineBegin..idx - 1]);
            newLineBegin := idx + 1;
          }
        }
        idx := idx + 1;
      }
    }

    method ParseHeaderLine(headerLine: string)
      modifies this`headers
      ensures headers == AddHeader(old(headers), headerLine)
    {
      var pos := FindMethod(headerLine, ':', 0);
      if pos < |headerLine| {
        var headerName := ViewStripEmpty(headerLine[..pos]);
        var headerVal := ViewStripEmpty(headerLine[pos + 1..]);
        headers := headers[headerName := headerVal];
      }
    }

    method ParseRequest(buffer: string) returns (status: ParseStatus)
      requires firstLineEndIdx < |buffer| && headersEndIdx < |buffer| && (headersEndIdx == 0 || headersEndIdx >= 4)
      modifies this`headers, this`headersEndIdx, this`body
      ensures (View(), status) == Parse(old(View()), buffer)
    {
      if firstLineEndIdx == 0 { return INVALID; }
      if headersEndIdx == 0 {
        ParseHeaders(buffer[firstLineEndIdx + 1..], firstLineEndIdx + 1);
      }
      status := ParseBody(buffer);
    }

    method ParseBody(buffer: string) returns (status: ParseStatus)
      requires headersEndIdx < |buffer| && (headersEndIdx == 0 || headersEndIdx >= 4)
      modifies this`body
      ensures (View(), status) == Body(old(View()), buffer)
    {
      var remaining := |buffer| - 1 - headersEndIdx;
      if CONTENT_LENGTH in headers {
        var length := Strtol(headers[CONTENT_LENGTH]);
        if length > 0 {
          if length == remaining {
            body := buffer[headersEndIdx + 1..];
            return COMPLETE;
          }
          if length > remaining { return CONTINUE; }
        }
      } else if headersEndIdx > 0 {
        var n := |buffer|;
        if buffer[n - 1] == '\n' && buffer[n - 2] == '\r' && buffer[n - 3] == '\n' && buffer[n - 4] == '\r' {
          body := buffer[headersEndIdx + 1..];
          return COMPLETE;
        }
      }
      return INVALID;
    }
  }

  method ParseTarget(line: string, r: HttpRequest) returns (lastBlank: nat)
    requires r.View() == NEW_REQUEST.(firstLineEnd := r.firstLineEndIdx)
    modifies r, r.q
    ensures var (action, rawQ, last) := ScanTarget(line, 0, "", 0);
            && lastBlank == last
            && r.View() == old(r.View()).(action := action, rawQ := rawQ, query := ParseQuery(rawQ))
  {
    var idx := 0;
    lastBlank := 0;
    while idx < |line|
      invariant 0 <= idx <= |line| && (lastBlank < idx || (lastBlank == 0 && r.action == ""))
      invariant ScanTarget(line, idx, r.action, lastBlank) == ScanTarget(line, 0, "", 0)
      invariant r.View() == old(r.View()).(action := r.action)
    {
      if line[idx] == ' ' || line[idx] == '\t' {
        if r.action == "" {
          r.action := line[..idx];
          lastBlank := idx;
        } else {
          r.rawQ := line[lastBlank + 1..idx];
          var _ := r.q.Parse(r.rawQ);
          return idx;
        }
      }
      idx := idx + 1;
    }
    assert r.View().rawQ == "" && r.View().query == ParseQuery("");
  }

  method ParseVersion(version: string) returns (v: Option<string>)
    ensures v == Version(version)
  {
    if |version| < 5 { return None; }
    var idx := 0;
    while idx < |version| - 1
      invariant 0 <= idx <= |version| - 1
      invariant forall k | 0 <= k < idx :: version[k] != '/'
    {
      if version[idx] == '/' {
        FindIs(version, '/', 0, idx);
        if version[..idx] != "HTTP" { return None; }
        return Some(version[idx + 1..]);
      }
      idx := idx + 1;
    }
    return None;
  }

  method ProbeBuffer(buffer: string, r: HttpRequest) returns (status: ParseStatus)
    requires r.View() == NEW_REQUEST
    modifies r, r.q
    ensures (r.View(), status) == Probe(NEW_REQUEST, buffer)
  {
    var idx := 1;
    while idx < |buffer| && !(buffer[idx] == '\n' && buffer[idx - 1] == '\r')
      invariant idx >= 1 && LineEnd(buffer, idx) == LineEnd(buffer, 1)
    {
      idx := idx + 1;
    }
    if idx >= FIRST_LINE_LENGTH_LIMIT { return INVALID; }
    if idx >= |buffer| { return INVALID; }
    r.firstLineEndIdx := idx;
    var protocolLine := buffer[..idx - 1];
    var lastBlank := ParseTarget(protocolLine, r);
    if lastBlank == 0 { return INVALID; }
    var v := ParseVersion(protocolLine[lastBlank + 1..]);
    if v == None { return INVALID; }
    r.httpVersion, r.valid := v.value, true;
    return CONTINUE;
  }
}
