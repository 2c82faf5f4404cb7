/**
 * `_get_request_headers` of thread_handler.c: receives chunks into the request buffer until a
 * CRLFCRLF has arrived. What the socket delivers, and how it is cut up, is the environment's choice.
 */
module RequestReader {
  import opened Wrappers
  import opened HttpText

  const RECEIVE_BUFFER_SIZE := 32768

  /** One return of `recv`: an error, or some bytes; no bytes means the peer has closed. */
  datatype Received = Failed | Bytes(data: string)

  class Socket {
    var incoming: seq<Received>  // what the coming calls will return; closed after that

    constructor (incoming: seq<Received>)
      ensures this.incoming == incoming
    {
      this.incoming := incoming;
    }

    /** `recv` never returns more than it was asked for. */
    ghost predicate Valid(limit: nat)
      reads this
    {
      forall r :: r in incoming && r.Bytes? ==> |r.data| <= limit
    }

    method Receive(limit: nat) returns (r: Received)
      requires Valid(limit)
      modifies this
      ensures Valid(limit)
      ensures r == if old(incoming) == [] then Bytes("") else old(incoming)[0]
      ensures incoming == if old(incoming) == [] then [] else old(incoming)[1..]
    {
      if incoming == [] {
        return Bytes("");
      }
      r := incoming[0];
      incoming := incoming[1..];
    }
  }

  /** The bytes read when the reader succeeds, having `got` some already. */
  function ReadHead(got: string, incoming: seq<Received>): (r: Option<string>)
    ensures r.Some? ==> HasEnd(r.value) && got <= r.value
    ensures r.Some? && |got| <= MAX_HTTP_HEADER_LINE_SIZE ==> |r.value| <= MAX_HTTP_HEADER_LINE_SIZE
    decreases |incoming|
  {
    if HasEnd(got) then Some(got)
    else if incoming == [] || incoming[0].Failed? || incoming[0].data == "" then None
    else if |got| + |incoming[0].data| > MAX_HTTP_HEADER_LINE_SIZE then None
    else ReadHead(got + incoming[0].data, incoming[1..])
  }

  method GetRequestHeaders(buffer: array<char>, socket: Socket) returns (ok: bool, totalBytesRead: nat)
    requires buffer.Length == RECEIVE_BUFFER_SIZE && socket.Valid(MAX_HTTP_HEADER_LINE_SIZE - 1)
    modifies buffer, socket
    ensures ok <==> ReadHead("", old(socket.incoming)).Some?
    ensures ok ==> totalBytesRead <= MAX_HTTP_HEADER_LINE_SIZE
    ensures ok ==> buffer[..totalBytesRead] == ReadHead("", old(socket.incoming)).value
    ensures forall i :: MAX_HTTP_HEADER_LINE_SIZE <= i < buffer.Length ==> buffer[i] == old(buffer[i])
    ensures ok ==> forall i :: totalBytesRead <= i < buffer.Length ==> buffer[i] == old(buffer[i])
  {
    totalBytesRead := 0;
    while !HasEnd(buffer[..totalBytesRead])
      invariant totalBytesRead <= MAX_HTTP_HEADER_LINE_SIZE && socket.Valid(MAX_HTTP_HEADER_LINE_SIZE - 1)
      invariant ReadHead(buffer[..totalBytesRead], socket.incoming) == ReadHead("", old(socket.incoming))
      invariant forall i :: totalBytesRead <= i < buffer.Length ==> buffer[i] == old(buffer[i])
      decreases MAX_HTTP_HEADER_LINE_SIZE - totalBytesRead
    {
      var received := socket.Receive(MAX_HTTP_HEADER_LINE_SIZE - 1);
      if received.Failed? {
        return false, totalBytesRead;
      }
      var numBytesRead := |received.data|;
      if totalBytesRead + numBytesRead > MAX_HTTP_HEADER_LINE_SIZE {
        return false, totalBytesRead;
      }
      if numBytesRead < 1 {
        return false, totalBytesRead;
      }
      ghost var got := buffer[..totalBytesRead];
      forall i | 0 <= i < numBytesRead {
        buffer[totalBytesRead + i] := received.data[i];
      }
      totalBytesRead := totalBytesRead + numBytesRead;
      assert buffer[..totalBytesRead] == got + received.data;
    }
    ok := true;
  }

  // ---------------------------------------------------------------- what reading means

  function Concat(chunks: seq<Received>): string {
    if chunks == [] then "" else (if chunks[0].Bytes? then chunks[0].data else "") + Concat(chunks[1..])
  }

  /** Reading stops after `k` chunks: all of them data, the last one completing the terminator, in bounds. */
  ghost predicate StopsAfter(got: string, incoming: seq<Received>, k: nat) {
    && k <= |incoming|
    && (forall i :: 0 <= i < k ==> incoming[i].Bytes? && incoming[i].data != "")
    && HasEnd(got + Concat(incoming[..k])) && (k > 0 ==> |got + Concat(incoming[..k])| <= 8192)
    && (forall j: nat :: j < k ==> !HasEnd(got + Concat(incoming[..j])))
  }

  lemma ConcatStep(got: string, incoming: seq<Received>, j: nat)
    requires incoming != [] && incoming[0].Bytes? && j < |incoming|
    ensures got + Concat(incoming[..j + 1]) == (got + incoming[0].data) + Concat(incoming[1..][..j])
  {
    assert incoming[..j + 1][1..] == incoming[1..][..j];
  }

  /** The reader succeeds with `head` exactly when some first chunk completes the terminator within 8192 bytes. */
  lemma {:induction false} ReadsUpToTheTerminator(got: string, incoming: seq<Received>, head: string)
    ensures ReadHead(got, incoming) == Some(head) <==>
              exists k: nat :: StopsAfter(got, incoming, k) && head == got + Concat(incoming[..k])
    decreases |incoming|
  {
    assert got + Concat(incoming[..0]) == got;
    if HasEnd(got) {
      assert StopsAfter(got, incoming, 0);
    } else if incoming != [] && incoming[0].Bytes? && incoming[0].data != "" {
      var got' := got + incoming[0].data;
      ReadsUpToTheTerminator(got', incoming[1..], head);
      forall k: nat | k < |incoming|
        ensures StopsAfter(got, incoming, k + 1) <==>
                StopsAfter(got', incoming[1..], k) && |got'| <= MAX_HTTP_HEADER_LINE_SIZE
        ensures got + Concat(incoming[..k + 1]) == got' + Concat(incoming[1..][..k])
      {
        StopsShift(got, incoming, k);
      }
      if k: nat :| StopsAfter(got, incoming, k) && head == got + Concat(incoming[..k]) {
        assert k > 0;
        assert StopsAfter(got', incoming[1..], k - 1);
      }
      if k: nat :| StopsAfter(got', incoming[1..], k) && head == got' + Concat(incoming[1..][..k]) {
        if |got'| <= MAX_HTTP_HEADER_LINE_SIZE { assert StopsAfter(got, incoming, k + 1); }
      }
    }
  }

  lemma StopsShift(got: string, incoming: seq<Received>, k: nat)
    requires incoming != [] && incoming[0].Bytes? && incoming[0].data != "" && !HasEnd(got) && k < |incoming|
    ensures var got' := got + incoming[0].data;
            && (StopsAfter(got, incoming, k + 1) <==>
                StopsAfter(got', incoming[1..], k) && |got'| <= MAX_HTTP_HEADER_LINE_SIZE)
            && got + Concat(incoming[..k + 1]) == got' + Concat(incoming[1..][..k])
  {
    var got' := got + incoming[0].data;
    assert got + Concat(incoming[..0]) == got;
    forall j: nat | j <= k ensures got + Concat(incoming[..j + 1]) == got' + Concat(incoming[1..][..j]) {
      ConcatStep(got, incoming, j);
    }
    if StopsAfter(got, incoming, k + 1) {
      forall j: nat | j < k ensures !HasEnd(got' + Concat(incoming[1..][..j])) {
        assert !HasEnd(got + Concat(incoming[..j + 1]));
      }
      forall i | 0 <= i < k ensures incoming[1..][i].Bytes? && incoming[1..][i].data != "" {
        assert incoming[1..][i] == incoming[i + 1];
      }
    }
    if StopsAfter(got', incoming[1..], k) && |got'| <= MAX_HTTP_HEADER_LINE_SIZE {
      forall j: nat | j < k + 1 ensures !HasEnd(got + Concat(incoming[..j])) {
        assert j > 0 ==> !HasEnd(got' + Concat(incoming[1..][..j - 1]));
      }
      forall i | 0 <= i < k + 1 ensures incoming[i].Bytes? && incoming[i].data != "" {
        assert i > 0 ==> incoming[i] == incoming[1..][i - 1];
      }
    }
  }

  /** A peer that sends only data, 8192 bytes at most in all, is read successfully iff it sends a terminator. */
  lemma {:induction false} ShortStreamsAreRead(got: string, incoming: seq<Received>)
    requires forall r :: r in incoming ==> r.Bytes? && r.data != ""
    requires |got + Concat(incoming)| <= 8192
    ensures ReadHead(got, incoming).Some? <==> HasEnd(got + Concat(incoming))
    decreases |incoming|
  {
    if HasEnd(got) {
      EndOfPrefix(got, got + Concat(incoming));
    } else if incoming == [] {
      assert got + Concat(incoming) == got;
    } else {
      assert incoming[0] in incoming;
      assert got + Concat(incoming) == (got + incoming[0].data) + Concat(incoming[1..]);
      ShortStreamsAreRead(got + incoming[0].data, incoming[1..]);
    }
  }

  /** However one byte stream is cut up, successful reads agree on the head they deliver. */
  lemma ChunkingDoesNotMatter(stream: string, incoming: seq<Received>, incoming': seq<Received>)
    requires Concat(incoming) <= stream && Concat(incoming') <= stream
    requires ReadHead("", incoming).Some? && ReadHead("", incoming').Some?
    ensures var head, head' := ReadHead("", incoming).value, ReadHead("", incoming').value;
            && HasEnd(stream) && FindEnd(head) == FindEnd(head') == FindEnd(stream)
            && head[..FindEnd(stream) + 4] == head'[..FindEnd(stream) + 4] == stream[..FindEnd(stream) + 4]
            && head <= stream && head' <= stream
  {
    HeadIsPrefix(stream, incoming);
    HeadIsPrefix(stream, incoming');
  }

  lemma HeadIsPrefix(stream: string, incoming: seq<Received>)
    requires Concat(incoming) <= stream && ReadHead("", incoming).Some?
    ensures var head := ReadHead("", incoming).value;
            head <= stream && HasEnd(head) && HasEnd(stream) && FindEnd(stream) == FindEnd(head)
  {
    var head := ReadHead("", incoming).value;
    ReadsUpToTheTerminator("", incoming, head);
    var k: nat :| StopsAfter("", incoming, k) && head == "" + Concat(incoming[..k]);
    ConcatPrefix(incoming, k);
    EndOfPrefix(head, stream);
  }

  lemma {:induction false} ConcatPrefix(chunks: seq<Received>, k: nat)
    requires k <= |chunks|
    ensures Concat(chunks[..k]) <= Concat(chunks)
  {
    if k > 0 {
      assert chunks[..k][1..] == chunks[1..][..k - 1];
      ConcatPrefix(chunks[1..], k - 1);
    }
  }
}
