/**
 * What http_handler.c makes of a request line, of a header line and of a whole head, as functions
 * on text; HttpHandler proves the loops against these.
 */
module HttpGrammar {
  import opened Wrappers
  import opened CStrings
  import opened HttpText

  datatype Method = TypeNull | Get | Post | Put | Delete

  datatype Version = V0_9 | V1_0 | V1_1

  const METHOD_ENTRIES: seq<(Option<string>, Method)> := [
    (Some("GET"), Get), (Some("POST"), Post), (Some("PUT"), Put), (Some("DELETE"), Delete), (None, TypeNull)]

  const PROTOCOL_ENTRIES: seq<(string, Version)> := [("", V0_9), ("HTTP/1.0", V1_0), ("HTTP/1.1", V1_1)]

  const PROTOCOL := "HTTP"
  const HOST_HEADER_KEY := "Host"

  /** The fields of `http_request` that the request line sets; no route is a NULL pointer. */
  datatype Fields = Fields(method_: Method, protocol: Version, route: Option<string>, routeSize: nat)

  /** `valueSize` counts the NUL that the header loop copies along. */
  datatype Header = Header(key: string, keySize: nat, value: string, valueSize: nat)

  function MethodNamed(word: string): Option<Method> {
    if word == "GET" then Some(Get) else if word == "POST" then Some(Post)
    else if word == "PUT" then Some(Put) else if word == "DELETE" then Some(Delete) else None
  }

  function VersionNamed(word: string): Option<Version> {
    if word == "HTTP/1.0" then Some(V1_0) else if word == "HTTP/1.1" then Some(V1_1) else None
  }

  // ---------------------------------------------------------------- the request line

  datatype Verdict = Continue | Accept | Fail

  /** What the end of word number `w` does: the method, the route, or the protocol. */
  function CheckWord(w: nat, word: string, f: Fields): (r: (Verdict, Fields))
    requires w <= 2
    ensures r.0.Continue? ==> w < 2
  {
    if w == 0 then
      if |word| < 3 then (Fail, f)
      else if MethodNamed(word).None? then (Fail, f.(method_ := TypeNull))
      else (Continue, f.(method_ := MethodNamed(word).value))
    else if w == 1 then
      if word == "" then (Fail, f)
      else if word[0] != '/' then (Fail, f.(route := None))
      else (Continue, f.(route := Some(word), routeSize := |word|))
    else
      if VersionNamed(word).Some? then (Accept, f.(protocol := VersionNamed(word).value))
      else if word == PROTOCOL then (Accept, f)
      else (Fail, f)
  }

  /** The words from number `w` on: `text` starts a word; running out of words fails. */
  function Words(w: nat, text: string, f: Fields): (bool, Fields)
    requires w <= 2
    decreases 2 - w
  {
    var c := Find(text, ' ');
    var (verdict, f') := CheckWord(w, text[..c], f);
    if verdict != Continue then (verdict.Accept?, f')
    else if c == |text| then (false, f')
    else Words(w + 1, text[c + 1..], f')
  }

  function Metadata(line: string, f: Fields): (bool, Fields) {
    Words(0, line, f)
  }

  /** A word comes off the front of a text; what follows its space is left. */
  lemma WordsStep(w: nat, word: string, tail: string, f: Fields)
    requires w <= 2 && ' ' !in word && (tail == "" || tail[0] == ' ')
    ensures var (verdict, f') := CheckWord(w, word, f);
            Words(w, word + tail, f) ==
            if verdict != Continue then (verdict.Accept?, f')
            else if tail == "" then (false, f')
            else Words(w + 1, tail[1..], f')
  {
    FindIs(word + tail, ' ', |word|);
    assert (word + tail)[..|word|] == word;
    assert tail != "" ==> (word + tail)[|word| + 1..] == tail[1..];
  }

  /** The methods and their words. */
  ghost predicate MethodWord(word: string, m: Method) {
    || (word == "GET" && m == Get) || (word == "POST" && m == Post)
    || (word == "PUT" && m == Put) || (word == "DELETE" && m == Delete)
  }

  /** The protocol words and what they set the version to, from `before`. */
  ghost predicate Protocol(word: string, before: Version, after: Version) {
    || (word == "HTTP/1.0" && after == V1_0) || (word == "HTTP/1.1" && after == V1_1)
    || (word == "HTTP" && after == before)
  }

  lemma WordsOfTables(word: string, f: Fields, v: Version)
    ensures forall m :: MethodNamed(word) == Some(m) <==> MethodWord(word, m)
    ensures Protocol(word, f.protocol, v) <==> CheckWord(2, word, f) == (Accept, f.(protocol := v))
  {
  }

  /** method SP route SP protocol, then nothing or a space and anything. */
  ghost predicate RequestLine(line: string, name: string, route: string, protocol: string, tail: string) {
    && line == name + " " + route + " " + protocol + tail
    && ' ' !in route && (tail == "" || tail[0] == ' ')
  }

  /** What the three words make of the fields. */
  ghost predicate Sets(name: string, route: string, protocol: string, f: Fields, f': Fields) {
    && MethodWord(name, f'.method_)
    && route != "" && route[0] == '/' && f'.route == Some(route) && f'.routeSize == |route|
    && Protocol(protocol, f.protocol, f'.protocol)
  }

  /** Exactly the lines of the grammar are accepted, and the fields are what the words say. */
  lemma RequestLineGrammar(line: string, f: Fields, f': Fields)
    ensures Metadata(line, f) == (true, f') <==>
              exists name, route, protocol, tail ::
                RequestLine(line, name, route, protocol, tail) && Sets(name, route, protocol, f, f')
  {
    if Metadata(line, f) == (true, f') {
      SplitAccepted(line, f);
    }
    if name, route, protocol, tail :|
        RequestLine(line, name, route, protocol, tail) && Sets(name, route, protocol, f, f')
    {
      JoinAccepted(line, f, f', name, route, protocol, tail);
    }
  }

  lemma NamesHaveNoSpace(name: string, protocol: string)
    ensures forall m :: MethodWord(name, m) ==> ' ' !in name
    ensures forall v, v' :: Protocol(protocol, v, v') ==> ' ' !in protocol
  {
  }

  lemma JoinAccepted(line: string, f: Fields, f': Fields, name: string, route: string, protocol: string, tail: string)
    requires RequestLine(line, name, route, protocol, tail) && Sets(name, route, protocol, f, f')
    ensures Metadata(line, f) == (true, f')
  {
    NamesHaveNoSpace(name, protocol);
    JoinWords(f, f', name, route, protocol, tail);
    Reassemble(name, route, protocol, tail);
  }

  lemma JoinWords(f: Fields, f': Fields, name: string, route: string, protocol: string, tail: string)
    requires ' ' !in name && ' ' !in route && ' ' !in protocol && (tail == "" || tail[0] == ' ')
    requires Sets(name, route, protocol, f, f')
    ensures Words(0, name + (" " + (route + (" " + (protocol + tail)))), f) == (true, f')
  {
    var f1 := f.(method_ := f'.method_);
    var f2 := f1.(route := f'.route, routeSize := f'.routeSize);
    ThirdWord(protocol, tail, f2, f');
    SecondWord(route, protocol + tail, f1, f2);
    FirstWord(name, route + (" " + (protocol + tail)), f, f1);
  }

  lemma ThirdWord(protocol: string, tail: string, f2: Fields, f': Fields)
    requires Protocol(protocol, f2.protocol, f'.protocol) && f' == f2.(protocol := f'.protocol)
    requires ' ' !in protocol && (tail == "" || tail[0] == ' ')
    ensures Words(2, protocol + tail, f2) == (true, f')
  {
    WordsStep(2, protocol, tail, f2);
  }

  lemma SecondWord(route: string, after: string, f1: Fields, f2: Fields)
    requires route != "" && route[0] == '/' && ' ' !in route && f2 == f1.(route := Some(route), routeSize := |route|)
    ensures Words(1, route + (" " + after), f1) == Words(2, after, f2)
  {
    WordsStep(1, route, " " + after, f1);
    assert (" " + after)[1..] == after;
  }

  lemma FirstWord(name: string, after: string, f: Fields, f1: Fields)
    requires MethodWord(name, f1.method_) && ' ' !in name && f1 == f.(method_ := f1.method_)
    ensures Words(0, name + (" " + after), f) == Words(1, after, f1)
  {
    WordsStep(0, name, " " + after, f);
    assert (" " + after)[1..] == after;
  }

  /** Where an accepted text was cut. */
  lemma SplitAccepted(line: string, f: Fields)
    requires Metadata(line, f).0
    ensures exists name, route, protocol, tail ::
              RequestLine(line, name, route, protocol, tail) && Sets(name, route, protocol, f, Metadata(line, f).1)
  {
    var f' := Metadata(line, f).1;
    var name, text1 := CutFirst(line, f);
    var route, text2 := CutSecond(text1, CheckWord(0, name, f).1);
    var protocol, tail := CutThird(text2, CheckWord(1, route, CheckWord(0, name, f).1).1);
    Reassemble(name, route, protocol, tail);
    assert line == name + (" " + (route + (" " + (protocol + tail))));
    assert RequestLine(line, name, route, protocol, tail);
    assert Sets(name, route, protocol, f, f');
  }

  lemma Reassemble(name: string, route: string, protocol: string, tail: string)
    ensures name + (" " + (route + (" " + (protocol + tail)))) == name + " " + route + " " + protocol + tail
  {
  }

  lemma CutFirst(line: string, f: Fields) returns (name: string, after: string)
    requires Words(0, line, f).0
    ensures line == name + (" " + after) && MethodNamed(name).Some?
    ensures CheckWord(0, name, f) == (Continue, f.(method_ := MethodNamed(name).value))
    ensures Words(0, line, f) == Words(1, after, CheckWord(0, name, f).1)
  {
    var c := Find(line, ' ');
    name, after := line[..c], line[c + 1..];
  }

  lemma CutSecond(text: string, f: Fields) returns (route: string, after: string)
    requires Words(1, text, f).0
    ensures text == route + (" " + after) && ' ' !in route && route != "" && route[0] == '/'
    ensures CheckWord(1, route, f) == (Continue, f.(route := Some(route), routeSize := |route|))
    ensures Words(1, text, f) == Words(2, after, CheckWord(1, route, f).1)
  {
    var c := Find(text, ' ');
    route, after := text[..c], text[c + 1..];
  }

  lemma CutThird(text: string, f: Fields) returns (protocol: string, tail: string)
    requires Words(2, text, f).0
    ensures text == protocol + tail && (tail == "" || tail[0] == ' ')
    ensures var f' := Words(2, text, f).1;
            f' == f.(protocol := f'.protocol) && Protocol(protocol, f.protocol, f'.protocol)
  {
    var c := Find(text, ' ');
    protocol, tail := text[..c], text[c..];
  }

  /** What a rejected line leaves in the struct, by how far its words were good. */
  lemma RejectedLineSets(line: string, f: Fields, m: Method)
    requires !Metadata(line, f).0
    ensures var f' := Metadata(line, f).1;
            var c := Find(line, ' ');
            && (c < 3 ==> f' == f)
            && (c >= 3 && (forall any :: !MethodWord(line[..c], any)) ==> f' == f.(method_ := TypeNull))
            && (MethodWord(line[..c], m) ==>
                  if c == |line| || c + 1 == |line| || line[c + 1] == ' ' then f' == f.(method_ := m)
                  else if line[c + 1] != '/' then f' == f.(method_ := m, route := None)
                  else
                    var route := line[c + 1..][..Find(line[c + 1..], ' ')];
                    f' == f.(method_ := m, route := Some(route), routeSize := |route|))
  {
    var c := Find(line, ' ');
    WordsOfTables(line[..c], f, V0_9);
    if MethodNamed(line[..c]).Some? && c < |line| {
      RejectedRoute(line[c + 1..], f.(method_ := MethodNamed(line[..c]).value));
    }
  }

  lemma RejectedRoute(text: string, f: Fields)
    requires !Words(1, text, f).0
    ensures var f' := Words(1, text, f).1;
            if text == "" || text[0] == ' ' then f' == f
            else if text[0] != '/' then f' == f.(route := None)
            else var route := text[..Find(text, ' ')]; f' == f.(route := Some(route), routeSize := |route|)
  {
    var c := Find(text, ' ');
    if c < |text| && c > 0 && text[0] == '/' {
      RejectedProtocol(text[c + 1..], f.(route := Some(text[..c]), routeSize := c));
    }
  }

  lemma RejectedProtocol(text: string, f: Fields)
    requires !Words(2, text, f).0
    ensures Words(2, text, f).1 == f
  {
  }

  // ---------------------------------------------------------------- a header line

  /** The first colon or carriage return. */
  function KeyEnd(line: string): (c: nat)
    ensures c <= |line| && (c < |line| ==> line[c] == ':' || line[c] == '\r')
    ensures forall i :: 0 <= i < c ==> line[i] != ':' && line[i] != '\r'
  {
    if line == "" || line[0] == ':' || line[0] == '\r' then 0 else 1 + KeyEnd(line[1..])
  }

  /** Every carriage return in a value must be followed by a newline. */
  predicate ReturnsPaired(value: string) {
    forall i :: 0 <= i < |value| && value[i] == '\r' ==> i + 1 < |value| && value[i + 1] == '\n'
  }

  /** The parser copies without leaving its caches only if a colon (or a return) ends the key. */
  predicate KeyEnds(line: string) {
    KeyEnd(line) < |line|
  }

  function HeaderOf(line: string): Option<Header>
    requires KeyEnds(line)
  {
    var c := KeyEnd(line);
    if line[c] == '\r' || c + 1 == |line| || line[c + 1] != ' ' || !ReturnsPaired(line[c + 2..]) then None
    else Some(Header(line[..c], c, line[c + 2..], |line| - (c + 2) + 1))
  }

  function HostFound(line: string): bool
    requires KeyEnds(line)
  {
    line[KeyEnd(line)] == ':' && line[..KeyEnd(line)] == HOST_HEADER_KEY
  }

  /** A line is a header exactly in the form key, colon, space, value; its value's size counts one more. */
  lemma HeaderGrammar(line: string, h: Header)
    requires KeyEnds(line)
    ensures HeaderOf(line) == Some(h) <==> exists key, value :: HeaderSays(line, key, value, h)
  {
    var c := KeyEnd(line);
    if HeaderOf(line) == Some(h) {
      assert line == line[..c] + ": " + line[c + 2..];
      assert HeaderSays(line, line[..c], line[c + 2..], h);
    }
    if key, value :| HeaderSays(line, key, value, h) {
      assert line[|key|] == ':' && line[|key| + 1] == ' ' && line[..|key|] == key && line[|key| + 2..] == value;
      assert forall i :: 0 <= i < |key| ==> line[i] == key[i];
      assert c == |key|;
    }
  }

  ghost predicate HeaderSays(line: string, key: string, value: string, h: Header) {
    && line == key + ": " + value && ':' !in key && '\r' !in key
    && (forall i :: 0 <= i < |value| && value[i] == '\r' ==> i + 1 < |value| && value[i + 1] == '\n')
    && h == Header(key, |key|, value, |value| + 1)
  }

  /** The host flag is up exactly for lines that begin with "Host:"; a key ends unless ':' and '\r' are both missing. */
  lemma HostGrammar(line: string)
    ensures KeyEnds(line) <==> ':' in line || '\r' in line
    ensures KeyEnds(line) ==> (HostFound(line) <==> "Host:" <= line)
  {
    var c := KeyEnd(line);
    if "Host:" <= line {
      assert line[4] == ':' && line[..4] == "Host";
      assert forall i :: 0 <= i < 4 ==> line[i] == "Host"[i];
      assert c == 4;
    }
    if KeyEnds(line) && HostFound(line) {
      assert line[..5] == line[..4] + [line[4]];
    }
  }

  // ---------------------------------------------------------------- the head

  datatype Head = Head(fields: Fields, headers: seq<Header>, host: Option<string>)

  /** The first line of a block of CRLF-terminated lines can be taken off and copied. */
  predicate LineIsClean(block: string) {
    var j := Find(block, '\r');
    j < MAX_HTTP_HEADER_LINE_SIZE && j + 1 < |block| && NUL !in block[..j] && block[j + 1] == '\n'
  }

  function FirstLine(block: string): string {
    block[..Find(block, '\r')]
  }

  function RestLines(block: string): (rest: string)
    requires LineIsClean(block)
    ensures |rest| < |block|
  {
    block[Find(block, '\r') + 2..]
  }

  /** The next header lines fit the table, which holds `stored`, and are well-formed, up to the first unclean line. */
  predicate SupportedHeaders(block: string, stored: nat)
    decreases |block|
  {
    LineIsClean(block) ==>
      && stored < MAX_HTTP_HEADER_COUNT && KeyEnds(FirstLine(block)) && HeaderOf(FirstLine(block)).Some?
      && (RestLines(block) != "" ==> SupportedHeaders(RestLines(block), stored + 1))
  }

  /** The same for a block whose first line is the request line. */
  predicate Supported(block: string, f: Fields) {
    LineIsClean(block) && Metadata(FirstLine(block), f).0 && RestLines(block) != "" ==>
      SupportedHeaders(RestLines(block), 0)
  }

  function AddHeader(head: Head, line: string): Head
    requires KeyEnds(line) && HeaderOf(line).Some?
  {
    var h := HeaderOf(line).value;
    head.(headers := head.headers + [h], host := if HostFound(line) then Some(h.value) else head.host)
  }

  /** Takes header lines until none is left; a line that cannot be taken off fails. */
  function HeaderLines(block: string, head: Head): (bool, Head)
    requires SupportedHeaders(block, |head.headers|)
    decreases |block|
  {
    if !LineIsClean(block) then (false, head)
    else
      var head' := AddHeader(head, FirstLine(block));
      if RestLines(block) == "" then (true, head') else HeaderLines(RestLines(block), head')
  }

  function AllLines(block: string, f: Fields): (bool, Head)
    requires Supported(block, f)
  {
    if !LineIsClean(block) then (false, Head(f, [], None))
    else
      var (ok, f') := Metadata(FirstLine(block), f);
      if !ok || RestLines(block) == "" then (ok, Head(f', [], None))
      else HeaderLines(RestLines(block), Head(f', [], None))
  }

  /** The lines of a request up to and including the CRLF that ends the last one. */
  function BlockOf(raw: string): (block: string)
    requires HasEnd(raw)
    ensures |block| == FindEnd(raw) + 2 && block <= raw
  {
    raw[..FindEnd(raw) + 2]
  }

  /** The block reaches to the middle of the first CRLFCRLF. */
  lemma BlockEnds(raw: string, block: string)
    requires HasEnd(raw)
    ensures BlockOf(raw) == block <==>
              && 2 <= |block| && block <= raw && EndAt(raw, |block| - 2)
              && forall q: nat :: EndAt(raw, q) ==> |block| - 2 <= q
  {
    if block == BlockOf(raw) {
      assert |block| - 2 == FindEnd(raw);
    } else if 2 <= |block| && block <= raw && EndAt(raw, |block| - 2) {
      assert EndAt(raw, FindEnd(raw)) && FindEnd(raw) <= |block| - 2;
    }
  }

  /** What the parser needs of its input: a complete head that it supports, unless its size guard refuses it. */
  predicate Parseable(raw: string, f: Fields) {
    0 < |raw| <= MAX_HTTP_HEADER_TOTAL_SIZE ==> HasEnd(raw) && Supported(BlockOf(raw), f)
  }

  /** The whole parser: the size guard, the lines, and the demand for a host; headers are stored on success only. */
  function Parse(raw: string, f: Fields): (bool, Head)
    requires Parseable(raw, f)
  {
    if |raw| == 0 || |raw| > MAX_HTTP_HEADER_TOTAL_SIZE then (false, Head(f, [], None))
    else
      var (complete, head) := AllLines(BlockOf(raw), f);
      if complete && head.host.Some? then (true, head) else (false, head.(headers := []))
  }
}
