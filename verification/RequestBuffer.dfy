/** Accumulating a request from the chunks a connection delivers. */
module RequestBuffer {
  import opened Text
  import opened Url
  import opened Http
  import opened HttpText

  const REQUEST_SIZE_LIMIT: nat := 10 * 1024 * 1024

  datatype Protocol = UNKNOWN | NOT_HTTP | HTTP

  // ---------------------------------------------------------------- specification

  /** A connection: what has arrived, what is known of the protocol, and the request so far. */
  datatype Conn = Conn(bytes: string, protocol: Protocol, req: Request)

  const NEW_CONN := Conn("", UNKNOWN, NEW_REQUEST)

  ghost predicate ValidConn(c: Conn) {
    && (c.protocol.UNKNOWN? ==> c.req == NEW_REQUEST)
    && (c.protocol.HTTP? ==>
          && c.req.firstLineEnd < |c.bytes| && c.req.headersEnd < |c.bytes|
          && (c.req.headersEnd == 0 || c.req.headersEnd >= 4))
  }

  function TryParse(c: Conn): (Conn, ParseStatus)
    requires ValidConn(c)
  {
    if c.bytes == "" || c.protocol.NOT_HTTP? then (c, INVALID)
    else if c.protocol.HTTP? then
      var (r, status) := Parse(c.req, c.bytes);
      (c.(req := r), status)
    else
      var (r, status) := Probe(c.req, c.bytes);
      if status.INVALID? then (c.(protocol := NOT_HTTP, req := r), INVALID)
      else
        var (r', status') := Parse(r, c.bytes);
        (c.(protocol := HTTP, req := r'), status')
  }

  /** An oversized chunk is refused and leaves the connection as it was. */
  function Accept(c: Conn, chunk: string): (Conn, ParseStatus)
    requires ValidConn(c)
  {
    if |c.bytes| + |chunk| >= REQUEST_SIZE_LIMIT then (c, INVALID)
    else
      Grow(c, chunk);
      TryParse(c.(bytes := c.bytes + chunk))
  }

  lemma Grow(c: Conn, chunk: string)
    requires ValidConn(c)
    ensures ValidConn(c.(bytes := c.bytes + chunk))
  {
  }

  /** Parsing leaves the request within the text. */
  lemma ParseStaysInside(r: Request, buf: string)
    requires r.firstLineEnd < |buf| && r.headersEnd < |buf| && (r.headersEnd == 0 || r.headersEnd >= 4)
    ensures var r' := Parse(r, buf).0;
            && r'.firstLineEnd == r.firstLineEnd
            && r'.headersEnd < |buf| && (r'.headersEnd == 0 || r'.headersEnd >= 4)
  {
  }

  lemma TryParseKeepsValid(c: Conn)
    requires ValidConn(c)
    ensures ValidConn(TryParse(c).0) && TryParse(c).0.bytes == c.bytes
  {
    if c.bytes != "" && !c.protocol.NOT_HTTP? {
      var r := if c.protocol.HTTP? then c.req else Probe(c.req, c.bytes).0;
      if c.protocol.HTTP? || !Probe(c.req, c.bytes).1.INVALID? {
        ParseStaysInside(r, c.bytes);
      }
    }
  }

  lemma AcceptKeepsValid(c: Conn, chunk: string)
    requires ValidConn(c)
    ensures ValidConn(Accept(c, chunk).0)
  {
    if |c.bytes| + |chunk| < REQUEST_SIZE_LIMIT {
      Grow(c, chunk);
      TryParseKeepsValid(c.(bytes := c.bytes + chunk));
    }
  }

  // ---------------------------------------------------------------- implementation

  class RequestBuffer {
    var buffer: array?<char>
    var size: nat
    var protocol: Protocol
    const httpReq: HttpRequest

    constructor ()
      ensures Valid() && Model() == NEW_CONN && buffer == null
      ensures fresh(httpReq) && fresh(httpReq.q)
    {
      buffer, size, protocol := null, 0, UNKNOWN;
      httpReq := new HttpRequest();
    }

    function Bytes(): string
      reads this, buffer
    {
      if buffer == null then "" else buffer[..]
    }

    function Model(): Conn
      reads this, buffer, httpReq, httpReq.q
    {
      Conn(Bytes(), protocol, httpReq.View())
    }

    ghost predicate Valid()
      reads this, buffer, httpReq, httpReq.q
    {
      size == |Bytes()| && ValidConn(Model())
    }

    /** `base` holds what was read; its first `nread` characters are copied behind the old content. */
    method AcceptChunk(base: array<char>, nread: nat) returns (status: ParseStatus)
      requires Valid() && nread <= base.Length
      modifies this, httpReq, httpReq.q
      ensures Valid() && (Model(), status) == Accept(old(Model()), old(base[..nread]))
    {
      if size + nread >= REQUEST_SIZE_LIMIT { return INVALID; }
      Append(base, nread);
      Grow(old(Model()), base[..nread]);
      TryParseKeepsValid(Model());
      status := TryParseBuffer();
    }

    method Append(base: array<char>, nread: nat)
      requires size == |Bytes()| && nread <= base.Length
      modifies this`buffer, this`size
      ensures size == |Bytes()| && Bytes() == old(Bytes()) + old(base[..nread])
      ensures fresh(buffer)
    {
      var tmp := new char[size + nread];
      if buffer != null {
        forall i | 0 <= i < size { tmp[i] := buffer[i]; }
      }
      forall i | 0 <= i < nread { tmp[size + i] := base[i]; }
      assert tmp[..] == Bytes() + base[..nread];
      buffer, size := tmp, size + nread;
    }

    method TryParseBuffer() returns (status: ParseStatus)
      requires Valid()
      modifies this`protocol, httpReq, httpReq.q
      ensures (Model(), status) == TryParse(old(Model()))
    {
      if size == 0 || buffer == null { return INVALID; }
      if protocol == UNKNOWN {
        status := ProbeBuffer(buffer[..], httpReq);
        if status == INVALID {
          protocol := NOT_HTTP;
          return INVALID;
        }
        protocol := HTTP;
      }
      if protocol == HTTP {
        status := httpReq.ParseRequest(buffer[..]);
        return;
      }
      return INVALID;
    }
  }

  // ---------------------------------------------------------------- any way of splitting a request

  /** A request with its header section; the body follows it. */
  datatype Message = Message(verb: string, target: string, version: string, headers: seq<(string, string)>)

  function Head(m: Message): string {
    RequestLine(m.verb, m.target, m.version) + CRLF + HeaderLines(m.headers) + CRLF
  }

  ghost predicate GoodMessage(m: Message) {
    && GoodLine(m.verb, m.target, m.version)
    && m.headers != [] && forall k | 0 <= k < |m.headers| :: GoodHeader(m.headers[k])
  }

  /** The request once its header section has been read. */
  function Known(m: Message): Request {
    NEW_REQUEST.(
      firstLineEnd := |RequestLine(m.verb, m.target, m.version)| + 1, valid := true,
      headersEnd := |Head(m)| - 1,
      action := m.verb, rawQ := m.target, query := ParseQuery(m.target), version := m.version,
      headers := HeaderMap(map[], m.headers))
  }

  /** The header section says that the body has `n` characters. */
  ghost predicate Announces(m: Message, n: nat) {
    var hs := HeaderMap(map[], m.headers);
    CONTENT_LENGTH in hs && Strtol(hs[CONTENT_LENGTH]) == n > 0
  }

  lemma HeadersOfPrinted(m: Message, part: string)
    requires GoodMessage(m)
    ensures var r := Known(m).(headersEnd := 0, headers := map[]);
            WithHeaders(r, Head(m) + part) == Known(m)
  {
    var line := RequestLine(m.verb, m.target, m.version);
    var s := (Head(m) + part)[|line| + 2..];
    assert s == HeaderLines(m.headers) + CRLF + part;
    assert s[0..] == s;
    ScanPrinted(s, 0, m.headers, part, map[]);
    assert |Head(m)| - 1 == |HeaderLines(m.headers)| + 1 + |line| + 2;
  }

  lemma ParseOfPrinted(m: Message, n: nat, part: string)
    requires GoodMessage(m) && Announces(m, n) && |part| <= n
    ensures var r := Known(m).(headersEnd := 0, headers := map[]);
            var buf := Head(m) + part;
            && r.firstLineEnd < |buf|
            && Parse(r, buf) == (Arrived(m, n, part).0.req, Arrived(m, n, part).1)
  {
    HeadersOfPrinted(m, part);
    BodyOfPrinted(m, n, part);
  }

  lemma FirstAccept(buf: string, r: Request, r': Request, status: ParseStatus)
    requires buf != "" && |buf| < REQUEST_SIZE_LIMIT && Probe(NEW_REQUEST, buf) == (r, CONTINUE)
    requires r.firstLineEnd < |buf| && r.headersEnd == 0 && Parse(r, buf) == (r', status)
    ensures Accept(NEW_CONN, buf) == (Conn(buf, HTTP, r'), status)
  {
    assert "" + buf == buf;
  }

  lemma ProbeOfHead(m: Message, part: string)
    requires GoodMessage(m)
    ensures Probe(NEW_REQUEST, Head(m) + part) == (Known(m).(headersEnd := 0, headers := map[]), CONTINUE)
  {
    var rest := HeaderLines(m.headers) + CRLF + part;
    assert Head(m) + part == RequestLine(m.verb, m.target, m.version) + CRLF + rest;
    ProbeOfPrinted(m.verb, m.target, m.version, rest);
  }

  /** The first chunk: the header section and the beginning of the body. */
  lemma FirstChunk(m: Message, n: nat, part: string)
    requires GoodMessage(m) && Announces(m, n) && |part| <= n && |Head(m) + part| < REQUEST_SIZE_LIMIT
    ensures Accept(NEW_CONN, Head(m) + part) == Arrived(m, n, part)
  {
    ProbeOfHead(m, part);
    ParseOfPrinted(m, n, part);
    var (c, status) := Arrived(m, n, part);
    FirstAccept(Head(m) + part, Known(m).(headersEnd := 0, headers := map[]), c.req, status);
  }

  /** The state of the connection when `part` of an `n`-character body has arrived, and the answer. */
  function Arrived(m: Message, n: nat, part: string): (Conn, ParseStatus) {
    if |part| < n then (Conn(Head(m) + part, HTTP, Known(m)), CONTINUE)
    else (Conn(Head(m) + part, HTTP, Known(m).(body := part)), COMPLETE)
  }

  lemma BodyOfPrinted(m: Message, n: nat, part: string)
    requires Announces(m, n) && |part| <= n
    ensures |Head(m)| >= 4
    ensures Body(Known(m), Head(m) + part)
         == (if |part| < n then (Known(m), CONTINUE) else (Known(m).(body := part), COMPLETE))
  {
  }

  lemma NextChunk(m: Message, n: nat, part: string, chunk: string)
    requires GoodMessage(m) && Announces(m, n) && |part| < n && |part| + |chunk| <= n
    requires |Head(m)| + n < REQUEST_SIZE_LIMIT
    ensures ValidConn(Arrived(m, n, part).0)
    ensures Accept(Arrived(m, n, part).0, chunk) == Arrived(m, n, part + chunk)
  {
    assert Head(m) + part + chunk == Head(m) + (part + chunk);
    BodyOfPrinted(m, n, part + chunk);
  }

  function Concat(chunks: seq<string>): string {
    if chunks == [] then "" else chunks[0] + Concat(chunks[1..])
  }

  /** The answers to the chunks in turn, and the connection after them. */
  ghost function AcceptAll(c: Conn, chunks: seq<string>): (seq<ParseStatus>, Conn)
    requires ValidConn(c)
    decreases |chunks|
  {
    if chunks == [] then ([], c)
    else
      var (c', status) := Accept(c, chunks[0]);
      AcceptKeepsValid(c, chunks[0]);
      var (rest, last) := AcceptAll(c', chunks[1..]);
      ([status] + rest, last)
  }

  lemma AcceptAllFirst(c: Conn, chunks: seq<string>)
    requires ValidConn(c) && chunks != []
    ensures var (c', status) := Accept(c, chunks[0]);
            && ValidConn(c')
            && AcceptAll(c, chunks) == ([status] + AcceptAll(c', chunks[1..]).0, AcceptAll(c', chunks[1..]).1)
  {
    AcceptKeepsValid(c, chunks[0]);
  }

  ghost predicate CompleteAtTheEnd(statuses: seq<ParseStatus>) {
    && statuses != [] && statuses[|statuses| - 1] == COMPLETE
    && forall k | 0 <= k < |statuses| - 1 :: statuses[k] == CONTINUE
  }

  /** CONTINUE for every chunk but the last of `n`, COMPLETE for that one, and this connection at the end. */
  ghost predicate Answers(all: (seq<ParseStatus>, Conn), n: nat, last: Conn) {
    match all
    case (statuses, c) => |statuses| == n && CompleteAtTheEnd(statuses) && c == last
  }

  lemma AnswersMore(rest: (seq<ParseStatus>, Conn), n: nat, last: Conn)
    requires Answers(rest, n, last)
    ensures Answers(([CONTINUE] + rest.0, rest.1), n + 1, last)
  {
  }

  lemma LastAnswer(c: Conn)
    requires ValidConn(c)
    ensures Answers(([COMPLETE] + AcceptAll(c, []).0, AcceptAll(c, []).1), 1, c)
  {
  }

  lemma {:induction false} LaterChunks(m: Message, n: nat, part: string, chunks: seq<string>)
    requires GoodMessage(m) && Announces(m, n) && |Head(m)| + n < REQUEST_SIZE_LIMIT
    requires chunks != [] && (forall k | 0 <= k < |chunks| :: chunks[k] != "")
    requires |part| + |Concat(chunks)| == n
    ensures ValidConn(Arrived(m, n, part).0)
    ensures Answers(AcceptAll(Arrived(m, n, part).0, chunks), |chunks|, Arrived(m, n, part + Concat(chunks)).0)
    decreases |chunks|
  {
    var c, rest := Arrived(m, n, part).0, chunks[1..];
    assert part + Concat(chunks) == (part + chunks[0]) + Concat(rest);
    NextChunk(m, n, part, chunks[0]);
    AcceptAllFirst(c, chunks);
    var c' := Arrived(m, n, part + chunks[0]).0;
    if rest == [] {
      LastAnswer(c');
      assert part + Concat(chunks) == part + chunks[0];
    } else {
      assert Concat(rest) == rest[0] + Concat(rest[1..]);
      LaterChunks(m, n, part + chunks[0], rest);
      AnswersMore(AcceptAll(c', rest), |rest|, Arrived(m, n, part + Concat(chunks)).0);
    }
  }

  /** A request whose header section arrives in the first chunk, and whose body arrives in any pieces,
      is answered CONTINUE until its last chunk and COMPLETE then, with every part recovered. */
  lemma AnySplitIsReassembled(m: Message, body: string, chunks: seq<string>)
    requires GoodMessage(m) && Announces(m, |body|) && |Head(m) + body| < REQUEST_SIZE_LIMIT
    requires chunks != [] && (forall k | 0 <= k < |chunks| :: chunks[k] != "")
    requires Concat(chunks) == Head(m) + body && |chunks[0]| >= |Head(m)|
    ensures Answers(AcceptAll(NEW_CONN, chunks), |chunks|, Conn(Head(m) + body, HTTP, Known(m).(body := body)))
  {
    var n := |body|;
    var part, later := chunks[0][|Head(m)|..], chunks[1..];
    CutFirst(Head(m), body, chunks[0], Concat(later));
    FirstChunk(m, n, part);
    AcceptAllFirst(NEW_CONN, chunks);
    var (c, last) := (Arrived(m, n, part).0, Arrived(m, n, body).0);
    if later == [] {
      assert Concat(later) == "" && part == body;
      LastAnswer(c);
    } else {
      assert Concat(later) == later[0] + Concat(later[1..]);
      LaterChunks(m, n, part, later);
      AnswersMore(AcceptAll(c, later), |later|, last);
    }
  }

  lemma CutFirst(head: string, body: string, first: string, later: string)
    requires head + body == first + later && |first| >= |head|
    ensures first == head + first[|head|..] && body == first[|head|..] + later
  {
    assert first == (head + body)[..|first|];
    assert body == (head + body)[|head|..];
  }

  /** A request that consists of a header section only is complete exactly when it has no
      Content-Length: an announced length of zero is refused. */
  lemma BodylessRequest(m: Message)
    requires GoodMessage(m) && |Head(m)| < REQUEST_SIZE_LIMIT
    ensures Accept(NEW_CONN, Head(m)).1 == COMPLETE <==> CONTENT_LENGTH !in HeaderMap(map[], m.headers)
  {
    var buf := Head(m);
    var r := Known(m).(headersEnd := 0, headers := map[]);
    assert buf + "" == buf;
    ProbeOfHead(m, "");
    HeadersOfPrinted(m, "");
    var (r', status) := Body(Known(m), buf);
    FirstAccept(buf, r, r', status);
    BodylessStatus(m);
  }

  lemma BodylessStatus(m: Message)
    requires GoodMessage(m)
    ensures |Head(m)| >= 5
    ensures Body(Known(m), Head(m)).1 == COMPLETE <==> CONTENT_LENGTH !in HeaderMap(map[], m.headers)
  {
    HeadEndsWithEmptyLine(m);
  }

  lemma HeadEndsWithEmptyLine(m: Message)
    requires m.headers != []
    ensures |Head(m)| >= 5 && Head(m)[|Head(m)| - 4..] == "\r\n\r\n"
  {
    HeaderLinesEnd(m.headers);
  }

  lemma {:induction false} HeaderLinesEnd(list: seq<(string, string)>)
    requires list != []
    ensures var s := HeaderLines(list); |s| >= 4 && s[|s| - 2..] == CRLF
  {
    if |list| > 1 {
      HeaderLinesEnd(list[1..]);
    } else {
      assert list[1..] == [];
      assert HeaderLines(list) == HeaderLine(list[0]) + CRLF;
    }
  }
}
