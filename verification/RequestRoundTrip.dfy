/**
 * Printing against parsing: exactly the printed heads are accepted, and a printed request, followed by
 * anything, comes back as the request it was.
 */
module RequestRoundTrip {
  import opened Wrappers
  import opened CStrings
  import opened HttpText
  import opened HttpGrammar
  import HttpHandler

  datatype Request = Request(method_: Method, route: string, version: Version, headers: seq<(string, string)>)

  function MethodText(m: Method): (name: string)
    requires !m.TypeNull?
    ensures MethodWord(name, m) && 3 <= |name| <= 6 && Clean(name) && name[0] != '\r'
  {
    match m
    case Get => "GET"
    case Post => "POST"
    case Put => "PUT"
    case Delete => "DELETE"
  }

  function VersionText(v: Version): (text: string)
    requires !v.V0_9?
    ensures Protocol(text, V0_9, v) && Clean(text)
  {
    if v.V1_0? then "HTTP/1.0" else "HTTP/1.1"
  }

  ghost predicate Clean(s: string) {
    forall i :: 0 <= i < |s| ==> s[i] != '\r' && s[i] != NUL
  }

  function HeaderText(h: (string, string)): string {
    h.0 + ": " + h.1
  }

  function LineText(req: Request): string
    requires !req.method_.TypeNull? && !req.version.V0_9?
  {
    MethodText(req.method_) + " " + req.route + " " + VersionText(req.version)
  }

  function HeaderBlock(headers: seq<(string, string)>): string {
    if headers == [] then "" else HeaderText(headers[0]) + CRLF + HeaderBlock(headers[1..])
  }

  function Print(req: Request): string
    requires !req.method_.TypeNull? && !req.version.V0_9?
  {
    LineText(req) + CRLF + HeaderBlock(req.headers) + CRLF
  }

  ghost predicate PrintableHeader(h: (string, string)) {
    Clean(h.0) && Clean(h.1) && ':' !in h.0 && |HeaderText(h)| < 8192
  }

  /** What the grammar and the parser's limits ask of a request. */
  ghost predicate Printable(req: Request) {
    && !req.method_.TypeNull? && !req.version.V0_9?
    && req.route != "" && req.route[0] == '/' && ' ' !in req.route && Clean(req.route)
    && |LineText(req)| < 8192 && |req.headers| <= 100 && (forall h :: h in req.headers ==> PrintableHeader(h))
    && exists h :: h in req.headers && h.0 == "Host"
  }

  function Parsed(headers: seq<(string, string)>): seq<Header> {
    if headers == [] then []
    else [ParsedOne(headers[0])] + Parsed(headers[1..])
  }

  /** The value of the last host header, or `host` when there is none. */
  function LastHost(headers: seq<(string, string)>, host: Option<string>): Option<string> {
    if headers == [] then host
    else LastHost(headers[1..], if headers[0].0 == HOST_HEADER_KEY then Some(headers[0].1) else host)
  }

  // ---------------------------------------------------------------- lines

  lemma TakeOff(line: string, rest: string)
    requires Clean(line) && |line| < MAX_HTTP_HEADER_LINE_SIZE
    ensures var block := line + CRLF + rest;
            LineIsClean(block) && FirstLine(block) == line && RestLines(block) == rest
  {
    var block := line + CRLF + rest;
    FindIs(block, '\r', |line|);
    assert block[..|line|] == line;
    assert block[|line| + 2..] == rest;
  }

  lemma {:induction false} KeyEndIs(line: string, c: nat)
    requires c < |line| && line[c] == ':' && forall i :: 0 <= i < c ==> line[i] != ':' && line[i] != '\r'
    ensures KeyEnd(line) == c
  {
    if c > 0 { KeyEndIs(line[1..], c - 1); }
  }

  lemma HeaderTextParses(h: (string, string))
    requires PrintableHeader(h)
    ensures var line := HeaderText(h);
            && Clean(line) && line != "" && KeyEnds(line)
            && HeaderOf(line) == Some(Header(h.0, |h.0|, h.1, |h.1| + 1))
            && (HostFound(line) <==> h.0 == HOST_HEADER_KEY)
  {
    var line, c := HeaderText(h), |h.0|;
    assert line[c] == ':' && line[c + 1] == ' ' && line[..c] == h.0 && line[c + 2..] == h.1;
    KeyEndIs(line, c);
  }

  // ---------------------------------------------------------------- header blocks

  function ParsedOne(h: (string, string)): Header {
    Header(h.0, |h.0|, h.1, |h.1| + 1)
  }

  /** `head` after a printed header line. */
  function WithHeader(head: Head, h: (string, string)): Head {
    Head(head.fields, head.headers + [ParsedOne(h)], if h.0 == HOST_HEADER_KEY then Some(h.1) else head.host)
  }

  lemma OneHeaderParses(h: (string, string), rest: string, head: Head)
    requires PrintableHeader(h) && |head.headers| < MAX_HTTP_HEADER_COUNT
    requires rest != "" ==> SupportedHeaders(rest, |head.headers| + 1)
    ensures SupportedHeaders(HeaderText(h) + CRLF + rest, |head.headers|)
    ensures HeaderLines(HeaderText(h) + CRLF + rest, head) ==
            if rest == "" then (true, WithHeader(head, h)) else HeaderLines(rest, WithHeader(head, h))
  {
    HeaderTextParses(h);
    TakeOff(HeaderText(h), rest);
    assert AddHeader(head, HeaderText(h)) == WithHeader(head, h);
  }

  lemma {:induction false} HeadersParse(headers: seq<(string, string)>, head: Head)
    requires headers != [] && |head.headers| + |headers| <= MAX_HTTP_HEADER_COUNT
    requires forall h :: h in headers ==> PrintableHeader(h)
    ensures SupportedHeaders(HeaderBlock(headers), |head.headers|)
    ensures HeaderLines(HeaderBlock(headers), head) ==
            (true, Head(head.fields, head.headers + Parsed(headers), LastHost(headers, head.host)))
    decreases |headers|
  {
    hide SupportedHeaders, HeaderLines, PrintableHeader, HeaderText, ParsedOne, HeaderBlock, Parsed, LastHost;
    var h, tail, head' := headers[0], headers[1..], WithHeader(head, headers[0]);
    assert headers == [h] + tail;
    PrependHeader(h, tail, head);
    if tail == [] {
      NothingMore(head');
    } else {
      HeadersParse(tail, head');
      BlockIsLong(tail);
    }
    OneHeaderParses(h, HeaderBlock(tail), head);
  }

  lemma BlockIsLong(headers: seq<(string, string)>)
    requires headers != []
    ensures |HeaderBlock(headers)| >= |CRLF|
  {
  }

  lemma PrependHeader(h: (string, string), rest: seq<(string, string)>, head: Head)
    ensures HeaderBlock([h] + rest) == HeaderText(h) + CRLF + HeaderBlock(rest)
    ensures WithHeader(head, h).headers + Parsed(rest) == head.headers + Parsed([h] + rest)
    ensures LastHost(rest, WithHeader(head, h).host) == LastHost([h] + rest, head.host)
  {
    hide HeaderText, ParsedOne;
    assert ([h] + rest)[1..] == rest;
    Regrouped(head.headers, [ParsedOne(h)], Parsed(rest));
  }

  lemma Regrouped<T>(a: seq<T>, b: seq<T>, c: seq<T>)
    ensures a + b + c == a + (b + c)
  {
  }

  lemma NothingMore(head: Head)
    ensures HeaderBlock([]) == "" && head.headers + Parsed([]) == head.headers && LastHost([], head.host) == head.host
  {
  }

  // ---------------------------------------------------------------- nothing else is accepted

  /** `headers` is what a block of header lines says, and `head'` is `head` with all of it. */
  ghost predicate BlockSays(block: string, headers: seq<(string, string)>, head: Head, head': Head) {
    && block == HeaderBlock(headers) && (forall h :: h in headers ==> PrintableHeader(h))
    && head' == Head(head.fields, head.headers + Parsed(headers), LastHost(headers, head.host))
  }

  /** The first line of a block, its end and the rest. */
  lemma CutLine(block: string)
    requires LineIsClean(block)
    ensures var line := FirstLine(block);
            Clean(line) && |line| < MAX_HTTP_HEADER_LINE_SIZE && block == line + CRLF + RestLines(block)
  {
    var line := FirstLine(block);
    forall i | 0 <= i < |line| ensures line[i] != '\r' && line[i] != NUL {
      assert line[i] == block[i] && line[i] in block[..|line|];
    }
    assert block[|line|..|line| + 2] == CRLF;
  }

  /** A clean line that is a header is a printed header. */
  lemma HeaderLineIsPrinted(line: string) returns (h: (string, string))
    requires Clean(line) && |line| < MAX_HTTP_HEADER_LINE_SIZE && KeyEnds(line) && HeaderOf(line).Some?
    ensures line == HeaderText(h) && PrintableHeader(h)
  {
    var c := KeyEnd(line);
    h := (line[..c], line[c + 2..]);
    assert line[c..c + 2] == ": ";
    forall i | 0 <= i < |h.1| ensures h.1[i] != '\r' && h.1[i] != NUL {
      assert h.1[i] == line[c + 2 + i];
    }
  }

  /** Header lines are accepted only if they are the print of some headers, which are then what is stored. */
  lemma {:induction false} AcceptedHeadersArePrinted(block: string, head: Head) returns (headers: seq<(string, string)>)
    requires SupportedHeaders(block, |head.headers|) && HeaderLines(block, head).0
    ensures headers != [] && BlockSays(block, headers, head, HeaderLines(block, head).1)
    decreases |block|
  {
    hide PrintableHeader, HeaderText, HeaderOf, KeyEnds, HostFound, HeaderBlock, Parsed, LastHost;
    CutLine(block);
    var h := HeaderLineIsPrinted(FirstLine(block));
    HeaderTextParses(h);
    assert AddHeader(head, FirstLine(block)) == WithHeader(head, h);
    var rest: seq<(string, string)> := [];
    if RestLines(block) == "" {
      NothingMore(WithHeader(head, h));
    } else {
      rest := AcceptedHeadersArePrinted(RestLines(block), WithHeader(head, h));
    }
    headers := [h] + rest;
    PrependHeader(h, rest, head);
  }

  /** The table has room for every header a supported block prints. */
  lemma {:induction false} SupportedFits(headers: seq<(string, string)>, stored: nat)
    requires headers != [] && SupportedHeaders(HeaderBlock(headers), stored)
    requires forall h :: h in headers ==> PrintableHeader(h)
    ensures stored + |headers| <= MAX_HTTP_HEADER_COUNT
    decreases |headers|
  {
    hide SupportedHeaders, PrintableHeader, HeaderText, HeaderBlock;
    var h, tail := headers[0], headers[1..];
    assert headers == [h] + tail;
    PrependHeader(h, tail, Head(HttpHandler.INITIAL, [], None));
    SupportedOne(h, HeaderBlock(tail), stored);
    if tail != [] {
      BlockIsLong(tail);
      SupportedFits(tail, stored + 1);
    }
  }

  lemma SupportedOne(h: (string, string), rest: string, stored: nat)
    requires PrintableHeader(h) && SupportedHeaders(HeaderText(h) + CRLF + rest, stored)
    ensures stored < MAX_HTTP_HEADER_COUNT && (rest != "" ==> SupportedHeaders(rest, stored + 1))
  {
    HeaderTextParses(h);
    TakeOff(HeaderText(h), rest);
  }

  /** `block` is an accepted request line and the print of `headers`, and `head` is exactly what they say. */
  ghost predicate HeadSays(block: string, line: string, headers: seq<(string, string)>, f: Fields, head: Head) {
    && Clean(line) && |line| < 8192 && Metadata(line, f) == (true, head.fields)
    && block == line + CRLF + HeaderBlock(headers)
    && (forall h :: h in headers ==> PrintableHeader(h))
    && head.headers == Parsed(headers) && head.host == LastHost(headers, None)
  }

  lemma AcceptedHeadIsPrinted(block: string, f: Fields) returns (headers: seq<(string, string)>)
    requires Supported(block, f) && AllLines(block, f).0
    ensures HeadSays(block, FirstLine(block), headers, f, AllLines(block, f).1)
  {
    hide PrintableHeader, HeaderText, Words, Metadata, HeaderLines, SupportedHeaders, HeaderOf, KeyEnds;
    CutLine(block);
    var head := Head(Metadata(FirstLine(block), f).1, [], None);
    headers := [];
    if RestLines(block) != "" {
      headers := AcceptedHeadersArePrinted(RestLines(block), head);
      assert [] + Parsed(headers) == Parsed(headers);
    }
  }

  lemma PrintedHeadIsAccepted(block: string, line: string, headers: seq<(string, string)>, f: Fields, head: Head)
    requires Supported(block, f) && HeadSays(block, line, headers, f, head)
    ensures AllLines(block, f) == (true, head)
  {
    hide PrintableHeader, HeaderText, Words;
    TakeOff(line, HeaderBlock(headers));
    if headers != [] {
      BlockIsLong(headers);
      SupportedFits(headers, 0);
      HeadersParse(headers, Head(head.fields, [], None));
      assert [] + Parsed(headers) == Parsed(headers);
    }
  }

  /** The blocks of lines the parser accepts are exactly those, and what it makes of them is what they say. */
  lemma HeadGrammar(block: string, f: Fields, head: Head)
    requires Supported(block, f)
    ensures AllLines(block, f) == (true, head) <==> exists line, headers :: HeadSays(block, line, headers, f, head)
  {
    if AllLines(block, f) == (true, head) {
      var headers := AcceptedHeadIsPrinted(block, f);
    }
    if line, headers :| HeadSays(block, line, headers, f, head) {
      PrintedHeadIsAccepted(block, line, headers, f, head);
    }
  }

  /** A line can be taken off exactly if it is clean, short enough, and ended by CRLF. */
  lemma CleanLineGrammar(block: string)
    ensures LineIsClean(block) <==>
              exists line, rest :: '\r' !in line && '\0' !in line && |line| < 8192 && block == line + "\r\n" + rest
  {
    if LineIsClean(block) {
      CutLine(block);
    }
    if line, rest :| '\r' !in line && '\0' !in line && |line| < 8192 && block == line + "\r\n" + rest {
      TakeOff(line, rest);
    }
  }

  /**
   * The parser as a whole: it accepts exactly what passes the size guard, is made of such lines up to the
   * first terminator, and has a host header among them.
   */
  lemma ParseGrammar(raw: string, f: Fields, head: Head)
    requires Parseable(raw, f)
    ensures Parse(raw, f) == (true, head) <==>
              0 < |raw| <= 819200 && exists line, headers: seq<(string, string)> ::
                HeadSays(BlockOf(raw), line, headers, f, head) && exists h :: h in headers && h.0 == "Host"
  {
    if 0 < |raw| <= 819200 {
      var block := BlockOf(raw);
      HeadGrammar(block, f, head);
      if AllLines(block, f) == (true, head) && head.host.Some? {
        var line, headers :| HeadSays(block, line, headers, f, head);
        HostIsSet(headers, None);
      }
      if line, headers: seq<(string, string)> :|
          HeadSays(block, line, headers, f, head) && exists h :: h in headers && h.0 == "Host"
      {
        HostIsSet(headers, None);
      }
    }
  }

  /** What a refusal leaves: never a header; nothing at all if the size guard refuses. */
  lemma RefusedParse(raw: string, f: Fields)
    requires Parseable(raw, f) && !Parse(raw, f).0
    ensures Parse(raw, f).1.headers == []
    ensures |raw| == 0 || |raw| > 819200 ==> Parse(raw, f).1 == Head(f, [], None)
    ensures 0 < |raw| <= 819200 ==>
              var head := AllLines(BlockOf(raw), f).1;
              Parse(raw, f).1.fields == head.fields && Parse(raw, f).1.host == head.host
  {
  }

  /** `block` begins with what `headers` print, and the lines after them cannot be taken off. */
  ghost predicate BreaksAfter(block: string, headers: seq<(string, string)>, rest: string, head: Head, head': Head) {
    && block == HeaderBlock(headers) + rest && !LineIsClean(rest) && (forall h :: h in headers ==> PrintableHeader(h))
    && head' == Head(head.fields, head.headers + Parsed(headers), LastHost(headers, head.host))
  }

  /** A block of header lines that fails leaves what its good lines say. */
  lemma {:induction false} BrokenHeadersKeepPrefix(block: string, head: Head)
    returns (headers: seq<(string, string)>, rest: string)
    requires SupportedHeaders(block, |head.headers|) && !HeaderLines(block, head).0
    ensures BreaksAfter(block, headers, rest, head, HeaderLines(block, head).1)
    decreases |block|
  {
    hide PrintableHeader, HeaderText, HeaderOf, KeyEnds, HostFound, HeaderBlock, Parsed, LastHost, LineIsClean;
    headers, rest := [], block;
    if !LineIsClean(block) {
      NothingMore(head);
    } else {
      CutLine(block);
      var h := HeaderLineIsPrinted(FirstLine(block));
      HeaderTextParses(h);
      assert AddHeader(head, FirstLine(block)) == WithHeader(head, h);
      headers, rest := BrokenHeadersKeepPrefix(RestLines(block), WithHeader(head, h));
      PrependHeader(h, headers, head);
      Regrouped(HeaderText(h) + CRLF, HeaderBlock(headers), rest);
      headers := [h] + headers;
    }
  }

  /** A head that fails leaves what its good lines say: none, the rejected request line, or some headers as well. */
  lemma BrokenHeadKeepsPrefix(block: string, f: Fields)
    requires Supported(block, f) && !AllLines(block, f).0
    ensures var head := AllLines(block, f).1;
            if !LineIsClean(block) then head == Head(f, [], None)
            else
              var (ok, f') := Metadata(FirstLine(block), f);
              if !ok then head == Head(f', [], None)
              else exists headers, rest :: BreaksAfter(RestLines(block), headers, rest, Head(f', [], None), head)
  {
    if LineIsClean(block) && Metadata(FirstLine(block), f).0 && RestLines(block) != "" {
      var headers, rest := BrokenHeadersKeepPrefix(RestLines(block), Head(Metadata(FirstLine(block), f).1, [], None));
    }
  }

  // ---------------------------------------------------------------- what printed text is

  /** The text of a header block and what is stored for it, one header at a time. */
  lemma PrintedHeaders(h: (string, string), rest: seq<(string, string)>)
    ensures HeaderBlock([]) == "" && HeaderBlock([h] + rest) == h.0 + ": " + h.1 + "\r\n" + HeaderBlock(rest)
    ensures Parsed([]) == [] && Parsed([h] + rest) == [Header(h.0, |h.0|, h.1, |h.1| + 1)] + Parsed(rest)
  {
    assert ([h] + rest)[1..] == rest;
  }

  /** `text` is the request line, the headers and an empty line, with the words the protocol has for them. */
  ghost predicate PrintedAs(text: string, req: Request, name: string, protocol: string) {
    && MethodWord(name, req.method_) && Protocol(protocol, V0_9, req.version)
    && text == name + " " + req.route + " " + protocol + "\r\n" + HeaderBlock(req.headers) + "\r\n"
  }

  /** The text of a request. */
  lemma PrintedText(req: Request) returns (name: string, protocol: string)
    requires !req.method_.TypeNull? && !req.version.V0_9?
    ensures PrintedAs(Print(req), req, name, protocol)
  {
    hide HeaderBlock, MethodText, VersionText;
    name, protocol := MethodText(req.method_), VersionText(req.version);
  }

  /** `LastHost` is the value of the last header with the key Host, and `host` when there is none. */
  lemma LastHostIs(headers: seq<(string, string)>, last: (string, string), host: Option<string>)
    ensures LastHost([], host) == host
    ensures LastHost(headers + [last], host) == if last.0 == "Host" then Some(last.1) else LastHost(headers, host)
    decreases |headers|
  {
    if headers == [] {
      assert (headers + [last])[1..] == [];
    } else {
      assert (headers + [last])[1..] == headers[1..] + [last];
      LastHostIs(headers[1..], last, if headers[0].0 == "Host" then Some(headers[0].1) else host);
    }
  }

  /** The host the parser reports is the last one printed. */
  lemma {:induction false} HostIsSet(headers: seq<(string, string)>, host: Option<string>)
    ensures LastHost(headers, host).Some? <==> host.Some? || exists h :: h in headers && h.0 == "Host"
  {
    if headers != [] {
      HostIsSet(headers[1..], if headers[0].0 == HOST_HEADER_KEY then Some(headers[0].1) else host);
      assert forall h :: h in headers <==> h == headers[0] || h in headers[1..];
    }
  }

  // ---------------------------------------------------------------- where the head ends

  lemma LineBeforeEnd(line: string, rest: string)
    requires Clean(line) && rest != "" && rest[0] != '\r' && HasEnd(rest)
    ensures HasEnd(line + CRLF + rest) && FindEnd(line + CRLF + rest) == |line| + 2 + FindEnd(rest)
  {
    var text, d := line + CRLF + rest, |line| + 2;
    assert forall i :: 0 <= i < |line| ==> text[i] == line[i];
    assert forall i :: 0 <= i < |rest| ==> text[d + i] == rest[i];
    assert text[|line| + 1] == '\n' && text[|line| + 2] == rest[0];
    assert EndAt(text, d + FindEnd(rest));
    assert forall q: nat :: q < d ==> !EndAt(text, q);
    assert forall q: nat :: d <= q && EndAt(text, q) ==> EndAt(rest, q - d);
  }

  lemma LastLineEnds(line: string, body: string)
    requires Clean(line)
    ensures HasEnd(line + CRLF + (CRLF + body)) && FindEnd(line + CRLF + (CRLF + body)) == |line|
  {
    var text := line + CRLF + (CRLF + body);
    assert forall i :: 0 <= i < |line| ==> text[i] == line[i];
    assert EndAt(text, |line|);
    assert forall q: nat :: q < |line| ==> !EndAt(text, q);
  }

  lemma Regroup(line: string, rest: string, tail: string)
    ensures line + CRLF + rest + tail == line + CRLF + (rest + tail)
    ensures line != "" ==> (line + CRLF + rest + tail)[0] == line[0]
  {
  }

  lemma {:induction false} HeadersEnd(headers: seq<(string, string)>, body: string)
    requires headers != [] && forall h :: h in headers ==> PrintableHeader(h)
    ensures var text := HeaderBlock(headers) + (CRLF + body);
            HasEnd(text) && FindEnd(text) == |HeaderBlock(headers)| - 2 && text[0] != '\r'
    decreases |headers|
  {
    var line, rest := HeaderText(headers[0]), HeaderBlock(headers[1..]);
    assert headers[0] in headers;
    HeaderTextParses(headers[0]);
    Regroup(line, rest, CRLF + body);
    if headers[1..] == [] {
      assert rest + (CRLF + body) == CRLF + body;
      LastLineEnds(line, body);
    } else {
      HeadersEnd(headers[1..], body);
      LineBeforeEnd(line, rest + (CRLF + body));
    }
  }

  lemma LineTextIsClean(req: Request)
    requires Printable(req)
    ensures Clean(LineText(req))
  {
  }

  lemma PrintIs(line: string, block: string, body: string)
    ensures line + CRLF + block + CRLF + body == line + CRLF + (block + (CRLF + body))
    ensures (line + CRLF + block + CRLF + body)[..|line| + 2 + |block|] == line + CRLF + block
  {
  }

  /** The first terminator of a printed request is its own last line's. */
  lemma PrintedEnds(req: Request, body: string)
    requires Printable(req)
    ensures HasEnd(Print(req) + body) && FindEnd(Print(req) + body) == |Print(req)| - 4
    ensures BlockOf(Print(req) + body) == LineText(req) + CRLF + HeaderBlock(req.headers)
  {
    var line, block := LineText(req), HeaderBlock(req.headers);
    hide LineText, HeaderBlock, HasEnd, FindEndFrom, EndAt, Clean;
    LineTextIsClean(req);
    HeadersEnd(req.headers, body);
    LineBeforeEnd(line, block + (CRLF + body));
    PrintIs(line, block, body);
    BlockIsLong(req.headers);
  }

  // ---------------------------------------------------------------- the round trip

  function FieldsOf(req: Request): Fields {
    Fields(req.method_, req.version, Some(req.route), |req.route|)
  }

  function HeadOf(req: Request): Head {
    Head(FieldsOf(req), Parsed(req.headers), LastHost(req.headers, None))
  }

  lemma LineParses(req: Request)
    requires Printable(req)
    ensures Metadata(LineText(req), HttpHandler.INITIAL) == (true, FieldsOf(req))
  {
    var name, version := MethodText(req.method_), VersionText(req.version);
    assert LineText(req) == name + " " + req.route + " " + version + "";
    assert RequestLine(LineText(req), name, req.route, version, "");
    assert Sets(name, req.route, version, HttpHandler.INITIAL, FieldsOf(req));
    RequestLineGrammar(LineText(req), HttpHandler.INITIAL, FieldsOf(req));
  }

  /** The lines of a printed request are accepted, whatever follows, and say what the request says. */
  lemma PrintedLinesParse(req: Request, body: string)
    requires Printable(req)
    ensures HasEnd(Print(req) + body) && Supported(BlockOf(Print(req) + body), HttpHandler.INITIAL)
    ensures AllLines(BlockOf(Print(req) + body), HttpHandler.INITIAL) == (true, HeadOf(req))
    ensures HeadOf(req).host.Some?
  {
    PrintedEnds(req, body);
    LineParses(req);
    LineTextIsClean(req);
    TakeOff(LineText(req), HeaderBlock(req.headers));
    HeadersParse(req.headers, Head(FieldsOf(req), [], None));
    HostIsSet(req.headers, None);
    assert [] + Parsed(req.headers) == Parsed(req.headers);
  }

  /**
   * Printing a request and parsing it, whatever follows, gives the request back exactly when the whole
   * passes the parser's size guard; otherwise it is refused untouched.
   */
  lemma PrintParseRoundTrip(req: Request, body: string)
    requires Printable(req)
    ensures Parseable(Print(req) + body, HttpHandler.INITIAL)
    ensures Parse(Print(req) + body, HttpHandler.INITIAL) ==
            if |Print(req) + body| <= 819200 then (true, HeadOf(req))
            else (false, Head(HttpHandler.INITIAL, [], None))
  {
    hide AllLines, Supported, Print, HasEnd;
    PrintedLinesParse(req, body);
    PrintIsLong(req, body);
  }

  lemma PrintIsLong(req: Request, body: string)
    requires !req.method_.TypeNull? && !req.version.V0_9?
    ensures |Print(req) + body| > 0
  {
  }

  // ---------------------------------------------------------------- a request the guard refuses

  const LONG_HOST: (string, string) := (HOST_HEADER_KEY, seq(8185, _ => 'a'))

  const OVERSIZED := Request(Get, "/", V1_1, seq(MAX_HTTP_HEADER_COUNT, _ => LONG_HOST))

  lemma {:induction false} RepeatedBlock(h: (string, string), n: nat)
    ensures |HeaderBlock(seq(n, _ => h))| == n * (|HeaderText(h)| + 2)
  {
    if n > 0 {
      assert seq(n, _ => h)[1..] == seq(n - 1, _ => h);
      RepeatedBlock(h, n - 1);
    }
  }

  /** Every line and the number of headers are within the limits, and yet the whole is too long to be parsed. */
  lemma WithinLimitsYetRefused()
    ensures Printable(OVERSIZED)
    ensures Parseable(Print(OVERSIZED), HttpHandler.INITIAL) && !Parse(Print(OVERSIZED), HttpHandler.INITIAL).0
  {
    assert OVERSIZED.headers[0] == LONG_HOST && LONG_HOST in OVERSIZED.headers;
    assert |HeaderText(LONG_HOST)| == 8191;
    RepeatedBlock(LONG_HOST, MAX_HTTP_HEADER_COUNT);
    assert |Print(OVERSIZED)| > MAX_HTTP_HEADER_TOTAL_SIZE;
  }
}
