/**
 * `_process_request` of thread_handler.c up to the parsed head: reader and parser together, and the
 * branch between them that takes over when a body length is announced.
 */
module RequestProcessing {
  import opened Wrappers
  import opened CStrings
  import opened HttpText
  import opened HttpGrammar
  import HttpHandler
  import opened RequestReader
  import opened RequestRoundTrip

  const CONTENT_LENGTH_HEADER := "Content-Length:"

  predicate OccursAt(text: string, i: nat, part: string) {
    i + |part| <= |text| && text[i..i + |part|] == part
  }

  /** What `strstr` finds, looking no further than the first NUL. */
  predicate MentionsLength(read: string) {
    exists i: nat :: i <= |read| && OccursAt(CStr(read, NUL), i, CONTENT_LENGTH_HEADER)
  }

  /** NeedsBody: the bytes read announce a length, and `_get_request_contents` takes over. */
  datatype Outcome = Refused | NeedsBody | Complete(head: Head)

  /** The parser supports what it is given, unless it is not reached. */
  predicate Manageable(incoming: seq<Received>) {
    var read := ReadHead("", incoming);
    read.Some? && !MentionsLength(read.value) ==> Parseable(read.value, HttpHandler.INITIAL)
  }

  function Handle(incoming: seq<Received>): Outcome
    requires Manageable(incoming)
  {
    match ReadHead("", incoming)
    case None => Refused
    case Some(read) =>
      if MentionsLength(read) then NeedsBody
      else
        var (ok, head) := Parse(read, HttpHandler.INITIAL);
        if ok then Complete(head) else Refused
  }

  /**
   * `_process_request` up to the parsed head, or up to the call that reads a body. The reader's
   * postcondition is what the parser needs to stay inside the received bytes.
   */
  method ProcessRequest(socket: Socket) returns (outcome: Outcome)
    requires socket.Valid(MAX_HTTP_HEADER_LINE_SIZE - 1) && Manageable(socket.incoming)
    modifies socket
    ensures outcome == Handle(old(socket.incoming))
  {
    hide AllLines, Supported, ReadHead, Parse, FindEndFrom, EndAt;
    var buffer := new char[RECEIVE_BUFFER_SIZE](_ => NUL);
    var ok, size := GetRequestHeaders(buffer, socket);
    if !ok {
      return Refused;
    }
    SameString(buffer[..], size);
    if MentionsLength(buffer[..]) {
      return NeedsBody;
    }
    var result := new HttpHandler.HttpRequest();
    ok := HttpHandler.GetHttpMetadata(buffer, size, result);
    outcome := if ok then Complete(Head(result.Line(), result.headers, result.host)) else Refused;
  }

  /** Zeros behind the bytes read change nothing for `strstr`. */
  lemma SameString(buffer: string, size: nat)
    requires size < |buffer| && forall i :: size <= i < |buffer| ==> buffer[i] == NUL
    ensures MentionsLength(buffer) <==> MentionsLength(buffer[..size])
  {
    var z := Find(buffer[..size], NUL);
    FindIs(buffer, NUL, z);
    assert CStr(buffer, NUL) == CStr(buffer[..size], NUL);
  }

  /** However the bytes of a printed request are cut up, reading and parsing them gives the request back. */
  lemma ReadParseRoundTrip(req: Request, body: string, incoming: seq<Received>)
    requires Printable(req) && Concat(incoming) <= Print(req) + body && ReadHead("", incoming).Some?
    ensures var read := ReadHead("", incoming).value;
            Parseable(read, HttpHandler.INITIAL) && Parse(read, HttpHandler.INITIAL) == (true, HeadOf(req))
  {
    hide AllLines, Supported, Print, EndAt;
    var stream, read := Print(req) + body, ReadHead("", incoming).value;
    HeadIsPrefix(stream, incoming);
    PrintedLinesParse(req, body);
    assert BlockOf(read) == BlockOf(stream);
  }

  lemma MentionsInPrefix(text: string, longer: string)
    requires text <= longer && MentionsLength(text)
    ensures MentionsLength(longer)
  {
    var i: nat :| i <= |text| && OccursAt(CStr(text, NUL), i, CONTENT_LENGTH_HEADER);
    var z := Find(text, NUL);
    if z < |text| { FindIs(longer, NUL, z); }
    assert CStr(text, NUL) <= CStr(longer, NUL);
    assert OccursAt(CStr(longer, NUL), i, CONTENT_LENGTH_HEADER);
  }

  /**
   * A printed request, sent in any chunks of data, with anything behind it, within 8192 bytes and
   * without an announced length, comes out of request processing as the request it was.
   */
  lemma SentRequestIsParsed(req: Request, body: string, incoming: seq<Received>)
    requires Printable(req) && Concat(incoming) == Print(req) + body
    requires forall r :: r in incoming ==> r.Bytes? && r.data != ""
    requires |Print(req) + body| <= 8192 && !MentionsLength(Print(req) + body)
    ensures Manageable(incoming) && Handle(incoming) == Complete(HeadOf(req))
  {
    hide AllLines, Supported, Print, EndAt, MentionsLength, Parse, Parseable;
    PrintedLinesParse(req, body);
    assert "" + Concat(incoming) == Concat(incoming);
    ShortStreamsAreRead("", incoming);
    ReadParseRoundTrip(req, body, incoming);
    var read := ReadHead("", incoming).value;
    HeadIsPrefix(Print(req) + body, incoming);
    if MentionsLength(read) {
      MentionsInPrefix(read, Print(req) + body);
    }
  }

  // ---------------------------------------------------------------- which outcome there is

  /** "Content-Length:" stands in the bytes read, with no NUL before it. */
  ghost predicate Announces(read: string) {
    exists before, after :: read == before + "Content-Length:" + after && NUL !in before
  }

  lemma MentionsIsAnnounces(read: string)
    ensures MentionsLength(read) <==> Announces(read)
  {
    hide CStr;
    var text := CStr(read, NUL);
    if i: nat :| i <= |read| && OccursAt(text, i, CONTENT_LENGTH_HEADER) {
      assert text[..i] == read[..i] && text[i..i + 15] == read[i..i + 15];
      assert read == read[..i] + "Content-Length:" + read[i + 15..];
    }
    if before, after :| read == before + "Content-Length:" + after && NUL !in before {
      AnnouncedIsRead(before, after);
      assert OccursAt(text, |before|, CONTENT_LENGTH_HEADER);
    }
  }

  lemma AnnouncedIsRead(before: string, after: string)
    requires NUL !in before
    ensures OccursAt(CStr(before + "Content-Length:" + after, NUL), |before|, "Content-Length:")
  {
    hide CStr;
    var name := "Content-Length:";
    var read := before + name + after;
    var text := CStr(read, NUL);
    assert NUL !in name;
    assert forall k :: 0 <= k < |before| + 15 ==> read[k] in before + name;
    assert read[|before|..|before| + 15] == name;
    assert text[|before|..|before| + 15] == read[|before|..|before| + 15];
  }

  /** `read` holds a whole head that announces no body, says `head`, and names a host. */
  ghost predicate Accepts(read: string, line: string, headers: seq<(string, string)>, head: Head) {
    && HasEnd(read) && 0 < |read| <= 819200 && !Announces(read)
    && HeadSays(BlockOf(read), line, headers, HttpHandler.INITIAL, head) && exists h :: h in headers && h.0 == "Host"
  }

  /** The reader stops at one place at most. */
  lemma StopsOnce(incoming: seq<Received>, j: nat, k: nat)
    requires StopsAfter("", incoming, j) && StopsAfter("", incoming, k)
    ensures j == k
  {
  }

  /** What is read is what the chunks up to there hold. */
  lemma ReadAt(incoming: seq<Received>, k: nat)
    requires StopsAfter("", incoming, k)
    ensures ReadHead("", incoming) == Some(Concat(incoming[..k])) && HasEnd(Concat(incoming[..k]))
    ensures 0 < |Concat(incoming[..k])| <= 8192
  {
    assert "" + Concat(incoming[..k]) == Concat(incoming[..k]);
    ReadsUpToTheTerminator("", incoming, Concat(incoming[..k]));
  }

  /** What becomes of the bytes read. */
  lemma OutcomeOfRead(incoming: seq<Received>, read: string, head: Head)
    requires Manageable(incoming) && ReadHead("", incoming) == Some(read) && 0 < |read| <= 8192
    ensures Handle(incoming) == NeedsBody <==> Announces(read)
    ensures Handle(incoming) == Complete(head) <==> exists line, headers :: Accepts(read, line, headers, head)
  {
    hide Parse, Parseable, HeadSays, ReadHead;
    MentionsIsAnnounces(read);
    if !MentionsLength(read) {
      ParseGrammar(read, HttpHandler.INITIAL, head);
      if line, headers: seq<(string, string)> :|
          HeadSays(BlockOf(read), line, headers, HttpHandler.INITIAL, head) && exists h :: h in headers && h.0 == "Host"
      {
        assert Accepts(read, line, headers, head);
      }
    }
  }

  /** Complete: the chunks up to the one that completes the terminator hold an accepted head. */
  lemma CompleteMeans(incoming: seq<Received>, head: Head)
    requires Manageable(incoming)
    ensures Handle(incoming) == Complete(head) <==>
              exists k: nat, line, headers ::
                StopsAfter("", incoming, k) && Accepts(Concat(incoming[..k]), line, headers, head)
  {
    hide Accepts;
    if k: nat :| StopsAfter("", incoming, k) {
      ReadAt(incoming, k);
      OutcomeOfRead(incoming, Concat(incoming[..k]), head);
      if j: nat, line, headers :| StopsAfter("", incoming, j) && Accepts(Concat(incoming[..j]), line, headers, head) {
        StopsOnce(incoming, j, k);
      }
    } else {
      NothingRead(incoming);
    }
  }

  /** NeedsBody: they announce a length. */
  lemma NeedsBodyMeans(incoming: seq<Received>)
    requires Manageable(incoming)
    ensures Handle(incoming) == NeedsBody <==>
              exists k: nat :: StopsAfter("", incoming, k) && Announces(Concat(incoming[..k]))
  {
    hide Announces;
    if k: nat :| StopsAfter("", incoming, k) {
      ReadAt(incoming, k);
      OutcomeOfRead(incoming, Concat(incoming[..k]), Head(HttpHandler.INITIAL, [], None));
      if j: nat :| StopsAfter("", incoming, j) && Announces(Concat(incoming[..j])) {
        StopsOnce(incoming, j, k);
      }
    } else {
      NothingRead(incoming);
    }
  }

  lemma NothingRead(incoming: seq<Received>)
    requires Manageable(incoming) && forall k: nat :: !StopsAfter("", incoming, k)
    ensures Handle(incoming) == Refused
  {
    if ReadHead("", incoming).Some? {
      ReadsUpToTheTerminator("", incoming, ReadHead("", incoming).value);
    }
  }

  /** Refused: there are no such chunks, or they do neither. */
  lemma RefusedMeans(incoming: seq<Received>)
    requires Manageable(incoming)
    ensures Handle(incoming) == Refused <==>
              forall k: nat :: StopsAfter("", incoming, k) ==>
                !Announces(Concat(incoming[..k])) &&
                !exists line, headers, head :: Accepts(Concat(incoming[..k]), line, headers, head)
  {
    hide Accepts, Announces, Handle, HasEnd;
    NeedsBodyMeans(incoming);
    match Handle(incoming) {
      case Complete(head) => CompleteMeans(incoming, head);
      case NeedsBody =>
      case Refused =>
        forall k: nat, line, headers, head | StopsAfter("", incoming, k)
          ensures !Accepts(Concat(incoming[..k]), line, headers, head)
        {
          CompleteMeans(incoming, head);
        }
    }
  }
}
