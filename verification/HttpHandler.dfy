/** The parsing loops of http_handler.c, proved against HttpGrammar. */
module HttpHandler {
  import opened Wrappers
  import opened CStrings
  import opened HttpText
  import opened HttpGrammar

  class HttpRequest {
    var method_: Method
    var protocol: Version
    var route: Option<string>
    var routeSize: nat
    var headers: seq<Header>
    var host: Option<string>

    /** `allocate_http_request`. */
    constructor ()
      ensures Line() == INITIAL == Fields(TypeNull, V0_9, Some(""), 0) && headers == [] && host == None
    {
      method_, protocol, route, routeSize, headers, host := TypeNull, V0_9, Some(""), 0, [], None;
    }

    function Line(): Fields
      reads this
    {
      Fields(method_, protocol, route, routeSize)
    }
  }

  const INITIAL := Fields(TypeNull, V0_9, Some(""), 0)

  /** A line of `size` bytes with its terminator. */
  ghost predicate IsLine(line: array<char>, size: nat)
    reads line
  {
    line.Length == size + 1 && line[size] == NUL && forall i :: 0 <= i < size ==> line[i] != NUL
  }

  /** The method table search; the row without a name ends it. */
  method FindMethod(word: string) returns (found: Option<Method>)
    ensures found == MethodNamed(word)
    ensures forall m :: found == Some(m) <==> MethodWord(word, m)
  {
    var cursor := 0;
    while cursor < 5 && METHOD_ENTRIES[cursor].0.Some?
      invariant cursor <= 4
      invariant forall i :: 0 <= i < cursor ==> METHOD_ENTRIES[i].0 != Some(word)
    {
      if METHOD_ENTRIES[cursor].0.value == word {
        return Some(METHOD_ENTRIES[cursor].1);
      }
      cursor := cursor + 1;
    }
    assert cursor == 4;
    assert METHOD_ENTRIES[0].0 != Some(word) && METHOD_ENTRIES[1].0 != Some(word);
    assert METHOD_ENTRIES[2].0 != Some(word) && METHOD_ENTRIES[3].0 != Some(word);
    found := None;
  }

  method FindProtocol(word: string) returns (found: Option<Version>)
    requires word != ""
    ensures found == VersionNamed(word)
    ensures found == Some(V1_0) <==> word == "HTTP/1.0"
    ensures found == Some(V1_1) <==> word == "HTTP/1.1"
    ensures found != Some(V0_9)
  {
    for cursor := 0 to 3
      invariant forall i :: 0 <= i < cursor ==> PROTOCOL_ENTRIES[i].0 != word
    {
      if PROTOCOL_ENTRIES[cursor].0 == word {
        return Some(PROTOCOL_ENTRIES[cursor].1);
      }
    }
    assert PROTOCOL_ENTRIES[1].0 != word && PROTOCOL_ENTRIES[2].0 != word;
    found := None;
  }

  /** What the end of a word does to the request struct; `partition` holds the word. */
  method EndWord(wordIncrement: nat, partition: array<char>, size: nat, result: HttpRequest, ghost word: string)
    returns (verdict: Verdict)
    requires wordIncrement <= 2 && |word| == size <= partition.Length
    requires partition[..size] == word && NUL !in word && (size < partition.Length ==> partition[size] == NUL)
    modifies result
    ensures (verdict, result.Line()) == CheckWord(wordIncrement, word, old(result.Line()))
    ensures result.headers == old(result.headers) && result.host == old(result.host)
  {
    assert forall i :: 0 <= i < size ==> partition[i] == word[i];
    FindIs(partition[..], NUL, size);
    assert partition[..][..size] == word;
    assert CStr(partition[..], NUL) == word;
    if wordIncrement == 0 {
      if size < 3 {
        return Fail;
      }
      var found := FindMethod(CStr(partition[..], NUL));
      if found.None? {
        result.method_ := TypeNull;
        return Fail;
      }
      result.method_ := found.value;
    } else if wordIncrement == 1 {
      if size < 1 {
        return Fail;
      }
      if partition[0] != '/' {
        result.route := None;
        return Fail;
      }
      result.route := Some(CStr(partition[..], NUL));
      result.routeSize := size;
    } else {
      if size < 1 {
        return Fail;
      }
      var found := FindProtocol(CStr(partition[..], NUL));
      var valid := false;
      if found.Some? {
        result.protocol := found.value;
        valid := true;
      }
      if CStr(partition[..], NUL) == PROTOCOL {
        valid := true;
      }
      return if valid then Accept else Fail;
    }
    verdict := Continue;
  }

  /** The machine's state at the end of a word, in terms of the words still to come. */
  lemma WordEnds(w: nat, text: string, start: nat, end: nat, f: Fields)
    requires w <= 2 && start <= end <= |text| && (end < |text| ==> text[end] == ' ')
    requires forall i :: start <= i < end ==> text[i] != ' '
    ensures var (verdict, f') := CheckWord(w, text[start..end], f);
            Words(w, text[start..], f) ==
            if verdict != Continue then (verdict.Accept?, f')
            else if end == |text| then (false, f')
            else Words(w + 1, text[end + 1..], f')
  {
    assert text[start..] == text[start..end] + text[end..];
    WordsStep(w, text[start..end], text[end..], f);
    assert end < |text| ==> text[end..][1..] == text[end + 1..];
  }

  /** Ends the word that `text[start..end]` is, and clears the scratch buffer if another word may follow. */
  method FinishWord(w: nat, partition: array<char>, size: nat, result: HttpRequest,
                    ghost text: string, ghost start: nat, ghost goal: (bool, Fields))
    returns (verdict: Verdict)
    requires w <= 2 && start + size <= |text| && size <= partition.Length
    requires start + size < |text| ==> text[start + size] == ' '
    requires forall i :: start <= i < start + size ==> text[i] != ' ' && text[i] != NUL
    requires forall i :: 0 <= i < size ==> partition[i] == text[start + i]
    requires (size < partition.Length ==> partition[size] == NUL) && goal == Words(w, text[start..], result.Line())
    modifies result, partition
    ensures result.headers == old(result.headers) && result.host == old(result.host)
    ensures verdict.Continue? ==> w < 2 && forall i :: 0 <= i < partition.Length ==> partition[i] == NUL
    ensures verdict.Continue? && start + size < |text| ==> goal == Words(w + 1, text[start + size + 1..], result.Line())
    ensures !verdict.Continue? || start + size == |text| ==> goal == (verdict.Accept?, result.Line())
  {
    hide Words, CheckWord;
    ghost var end := start + size;
    WordEnds(w, text, start, end, result.Line());
    assert partition[..size] == text[start..end];
    verdict := EndWord(w, partition, size, result, text[start..end]);
    if verdict.Continue? {
      Clear(partition);
    }
  }

  /** `memset` to zero. */
  method Clear(buffer: array<char>)
    modifies buffer
    ensures forall i :: 0 <= i < buffer.Length ==> buffer[i] == NUL
  {
    forall i | 0 <= i < buffer.Length {
      buffer[i] := NUL;
    }
  }

  /**
   * The scratch buffer is as long as the line. A word fills it, leaving no terminator behind it, exactly
   * when it is the first one and the line has no space.
   */
  lemma ScratchIsFull(line: string, start: nat)
    requires start <= |line|
    ensures Find(line[start..], ' ') == |line| <==> start == 0 && Find(line, ' ') == |line|
  {
    assert line[0..] == line;
  }

  /** A line of that kind is rejected whatever word its unterminated scratch is taken for. */
  lemma OneWordIsRejected(line: string, word: string, f: Fields)
    requires Find(line, ' ') == |line|
    ensures !CheckWord(0, word, f).0.Accept? && !Metadata(line, f).0
  {
  }

  /**
   * The request-line machine. The scratch buffer starts zeroed, and a word that fills it ends where it
   * ends; every write stays inside it.
   */
  method ValidateHttpMetadata(line: array<char>, lineSize: nat, result: HttpRequest) returns (ok: bool)
    requires IsLine(line, lineSize) && lineSize <= MAX_HTTP_HEADER_LINE_SIZE
    modifies result
    ensures (ok, result.Line()) == Metadata(line[..lineSize], old(result.Line()))
    ensures result.headers == old(result.headers) && result.host == old(result.host)
  {
    hide Words;
    ghost var text := line[..lineSize];
    ghost var goal := Metadata(text, result.Line());
    var linePartition := new char[lineSize];
    Clear(linePartition);
    var numParsed, wordIncrement, size := 0, 0, 0;
    ghost var start := 0;
    assert text[start..] == text;
    while true
      invariant wordIncrement <= 2 && start <= numParsed == start + size <= lineSize + 1
      invariant result.headers == old(result.headers) && result.host == old(result.host)
      invariant start <= lineSize || goal == (false, result.Line())
      invariant start <= lineSize ==> numParsed <= lineSize
      invariant start <= lineSize ==> goal == Words(wordIncrement, text[start..], result.Line())
      invariant forall i :: start <= i < numParsed ==> text[i] != ' '
      invariant forall i :: 0 <= i < size ==> linePartition[i] == text[start + i]
      invariant forall i :: size <= i < lineSize ==> linePartition[i] == NUL
      decreases lineSize + 1 - numParsed
    {
      if numParsed > lineSize || numParsed > MAX_HTTP_HEADER_LINE_SIZE {
        return false;
      }
      if line[numParsed] == ' ' || line[numParsed] == NUL {
        var verdict := FinishWord(wordIncrement, linePartition, size, result, text, start, goal);
        if verdict.Fail? {
          return false;
        }
        if verdict.Accept? {
          return true;
        }
        wordIncrement := wordIncrement + 1;
        numParsed := numParsed + 1;
        size := 0;
        start := numParsed;
      } else {
        assert size < lineSize;
        linePartition[size] := line[numParsed];
        size := size + 1;
        numParsed := numParsed + 1;
      }
    }
  }

  datatype HeaderStatus = IsKey | IsValue

  /** The value part read so far, up to position `end`, has its carriage returns paired. */
  ghost predicate PairedUpTo(text: string, start: nat, end: nat) {
    forall i :: start <= i < end && i < |text| && text[i] == '\r' ==> i + 1 < |text| && text[i + 1] == '\n'
  }

  lemma PairedValue(text: string, start: nat)
    requires start <= |text|
    ensures ReturnsPaired(text[start..]) <==> PairedUpTo(text, start, |text| + 1)
  {
    if ReturnsPaired(text[start..]) {
      forall i | start <= i < |text| && text[i] == '\r' ensures i + 1 < |text| && text[i + 1] == '\n' {
        assert text[start..][i - start] == '\r';
      }
    }
  }

  /** A cache that holds `word` and then a NUL reads as `word`. */
  lemma CacheReads(cache: seq<char>, word: string)
    requires |word| <= |cache| && cache[..|word|] == word && NUL !in word
    requires |word| < |cache| ==> cache[|word|] == NUL
    ensures CStr(cache, NUL) == word
  {
    forall i | 0 <= i < |word| ensures cache[i] != NUL {
      assert cache[i] == word[i];
    }
    FindIs(cache, NUL, |word|);
  }

  /** Whether the key read so far is the host key. */
  method IsHostKey(keyCache: array<char>, ghost key: string) returns (found: bool)
    requires |key| <= keyCache.Length && NUL !in key
    requires forall i :: 0 <= i < |key| ==> keyCache[i] == key[i]
    requires forall i :: |key| <= i < keyCache.Length ==> keyCache[i] == NUL
    ensures found <==> key == HOST_HEADER_KEY
  {
    assert keyCache[..][..|key|] == key;
    CacheReads(keyCache[..], key);
    found := CStr(keyCache[..], NUL) == HOST_HEADER_KEY;
  }

  /** The `strndup` copies; the value's size includes the NUL the loop has copied. */
  method Persist(keyCache: array<char>, keySize: nat, valueCache: array<char>, valueSize: nat,
                 ghost key: string, ghost value: string)
    returns (h: Header)
    requires keySize == |key| <= keyCache.Length && valueSize == |value| + 1 <= valueCache.Length
    requires NUL !in key && NUL !in value
    requires forall i :: 0 <= i < |key| ==> keyCache[i] == key[i]
    requires forall i :: 0 <= i < |value| ==> valueCache[i] == value[i]
    requires valueCache[|value|] == NUL
    ensures h == Header(key, |key|, value, |value| + 1)
  {
    assert keyCache[..keySize] == key;
    CacheReads(keyCache[..keySize], key);
    assert valueCache[..valueSize][..|value|] == value;
    CacheReads(valueCache[..valueSize], value);
    h := Header(CStr(keyCache[..keySize], NUL), keySize, CStr(valueCache[..valueSize], NUL), valueSize);
  }

  lemma KeyHitsReturn(text: string)
    requires KeyEnds(text) && text[KeyEnd(text)] == '\r'
    ensures HeaderOf(text) == None && !HostFound(text)
  {
  }

  lemma KeyHitsColon(text: string)
    requires KeyEnds(text) && text[KeyEnd(text)] == ':'
    ensures HostFound(text) <==> text[..KeyEnd(text)] == HOST_HEADER_KEY
    ensures At(text, KeyEnd(text) + 1) != ' ' ==> HeaderOf(text) == None
  {
  }

  lemma ValueUnpaired(text: string, i: nat)
    requires KeyEnds(text) && KeyEnd(text) + 2 <= i < |text| && text[i] == '\r' && At(text, i + 1) != '\n'
    ensures HeaderOf(text) == None
  {
    PairedValue(text, KeyEnd(text) + 2);
  }

  lemma ValueComplete(text: string)
    requires KeyEnds(text) && text[KeyEnd(text)] == ':' && At(text, KeyEnd(text) + 1) == ' '
    requires PairedUpTo(text, KeyEnd(text) + 2, |text| + 1)
    ensures var c := KeyEnd(text);
            c + 2 <= |text| && HeaderOf(text) == Some(Header(text[..c], c, text[c + 2..], |text[c + 2..]| + 1))
  {
    PairedValue(text, KeyEnd(text) + 2);
  }

  /** The header machine; `IS_ASSIGNING` lasts only within one round and is left out. */
  method ValidateHttpHeader(header: array<char>, headerSize: nat) returns (hostFound: bool, result: Option<Header>)
    requires IsLine(header, headerSize) && KeyEnds(header[..headerSize])
    ensures result == HeaderOf(header[..headerSize])
    ensures hostFound == HostFound(header[..headerSize])
  {
    hide KeyEnd, HeaderOf, HostFound;
    ghost var text := header[..headerSize];
    ghost var c := KeyEnd(text);
    var keyCache, valueCache := new char[headerSize], new char[headerSize];
    Clear(keyCache);
    Clear(valueCache);
    var keyCacheSize, valueCacheSize, totalParsed := 0, 0, 0;
    var flag := IsKey;
    hostFound := false;
    while totalParsed <= headerSize
      invariant flag.IsKey? ==> totalParsed == keyCacheSize <= c && valueCacheSize == 0 && !hostFound
      invariant flag.IsValue? ==> text[c] == ':' && c + 1 < headerSize && text[c + 1] == ' ' && keyCacheSize == c
      invariant flag.IsValue? ==> totalParsed == c + 2 + valueCacheSize <= headerSize + 1
      invariant flag.IsValue? ==> hostFound == HostFound(text) && PairedUpTo(text, c + 2, totalParsed)
      invariant forall i :: 0 <= i < keyCacheSize ==> keyCache[i] == text[i]
      invariant forall i :: keyCacheSize <= i < headerSize ==> keyCache[i] == NUL
      invariant forall i :: 0 <= i < valueCacheSize ==> valueCache[i] == At(text, c + 2 + i)
      decreases headerSize + 1 - totalParsed
    {
      assert header[totalParsed] == At(text, totalParsed);
      assert totalParsed < headerSize ==> header[totalParsed + 1] == At(text, totalParsed + 1);
      if flag.IsKey? && header[totalParsed] == ':' {
        KeyHitsColon(text);
        hostFound := IsHostKey(keyCache, text[..c]);
        if header[totalParsed + 1] != ' ' {
          return hostFound, None;
        }
        flag := IsValue;
        totalParsed := totalParsed + 2;
      } else if flag.IsKey? {
        keyCache[keyCacheSize] := header[totalParsed];
        keyCacheSize := keyCacheSize + 1;
        if header[totalParsed] == '\r' {
          KeyHitsReturn(text);
          return hostFound, None;
        }
        totalParsed := totalParsed + 1;
      } else {
        valueCache[valueCacheSize] := header[totalParsed];
        valueCacheSize := valueCacheSize + 1;
        if header[totalParsed] == '\r' && header[totalParsed + 1] != '\n' {
          ValueUnpaired(text, totalParsed);
          return hostFound, None;
        }
        totalParsed := totalParsed + 1;
      }
    }
    ValueComplete(text);
    var persisted := Persist(keyCache, keyCacheSize, valueCache, valueCacheSize, text[..c], text[c + 2..]);
    result := Some(persisted);
  }

  /** Copies the line cache, stopping after a NUL: short exactly when the line holds one. */
  method CopyLine(cache: array<char>, numParsed: nat) returns (line: array<char>, copied: nat)
    requires numParsed < cache.Length && cache[numParsed] == NUL
    ensures fresh(line) && copied <= numParsed
    ensures copied == numParsed <==> forall i :: 0 <= i < numParsed ==> cache[i] != NUL
    ensures copied == numParsed ==> IsLine(line, numParsed) && line[..numParsed] == cache[..numParsed]
  {
    line := new char[numParsed + 1];
    copied := 0;
    for cursor := 0 to numParsed + 1
      invariant copied == cursor
      invariant forall i :: 0 <= i < cursor ==> line[i] == cache[i] && cache[i] != NUL
    {
      line[cursor] := cache[cursor];
      if line[cursor] == NUL {
        break;
      }
      copied := copied + 1;
    }
  }

  /** `rest` begins with a line that ends, at `j`, in the first carriage return. */
  lemma LineEnds(rest: string, j: nat)
    requires j + 1 < |rest| && rest[j] == '\r' && forall i :: 0 <= i < j ==> rest[i] != '\r'
    ensures Find(rest, '\r') == j && FirstLine(rest) == rest[..j]
    ensures LineIsClean(rest) <==> j < MAX_HTTP_HEADER_LINE_SIZE && NUL !in rest[..j] && rest[j + 1] == '\n'
    ensures LineIsClean(rest) ==> RestLines(rest) == rest[j + 2..]
  {
    FindIs(rest, '\r', j);
  }

  lemma LineTooLong(rest: string)
    requires |rest| >= MAX_HTTP_HEADER_LINE_SIZE && forall i :: 0 <= i < MAX_HTTP_HEADER_LINE_SIZE ==> rest[i] != '\r'
    ensures !LineIsClean(rest)
  {
  }

  /** What is to come, seen from the start of line number `n`. */
  ghost predicate Pending(rest: string, n: nat, f: Fields, headers: seq<Header>, host: Option<string>,
                          goal: (bool, Head))
  {
    if n == 0 then headers == [] && host == None && Supported(rest, f) && goal == AllLines(rest, f)
    else SupportedHeaders(rest, |headers|) && goal == HeaderLines(rest, Head(f, headers, host))
  }

  lemma PendingStart(block: string, f: Fields)
    requires Supported(block, f)
    ensures Pending(block, 0, f, [], None, AllLines(block, f))
  {
  }

  lemma UncleanFails(rest: string, n: nat, f: Fields, headers: seq<Header>, host: Option<string>, goal: (bool, Head))
    requires Pending(rest, n, f, headers, host, goal) && !LineIsClean(rest)
    ensures goal == (false, Head(f, headers, host))
  {
  }

  /** The cursor is at a carriage return inside the block: where the block ends and what lies behind it. */
  lemma AtReturn(raw: string, cursor: nat)
    requires HasEnd(raw) && cursor <= FindEnd(raw) && raw[cursor] == '\r'
    ensures cursor + 3 < |raw|
    ensures cursor == FindEnd(raw) <==> raw[cursor + 1] == '\n' && raw[cursor + 2] == '\r' && raw[cursor + 3] == '\n'
    ensures raw[cursor + 1] == '\n' && cursor < FindEnd(raw) ==> cursor + 2 <= FindEnd(raw)
  {
    assert EndAt(raw, FindEnd(raw));
    assert EndAt(raw, cursor) ==> FindEnd(raw) <= cursor;
  }

  lemma AtEnd(raw: string)
    requires HasEnd(raw)
    ensures raw[FindEnd(raw)] == '\r'
  {
  }

  /** Parses one complete line into the struct or the header table. */
  method TakeLine(line: array<char>, size: nat, n: nat, result: HttpRequest, validated: seq<Header>,
                  ghost rest: string, ghost goal: (bool, Head))
    returns (ok: bool, validated': seq<Header>)
    requires IsLine(line, size) && size < MAX_HTTP_HEADER_LINE_SIZE
    requires LineIsClean(rest) && line[..size] == FirstLine(rest)
    requires Pending(rest, n, result.Line(), validated, result.host, goal)
    modifies result
    ensures result.headers == old(result.headers)
    ensures !ok ==> goal.0 == false && goal.1.fields == result.Line() && goal.1.host == result.host
    ensures ok && RestLines(rest) == "" ==> goal == (true, Head(result.Line(), validated', result.host))
    ensures ok && RestLines(rest) != "" ==>
              Pending(RestLines(rest), n + 1, result.Line(), validated', result.host, goal)
  {
    validated' := validated;
    if n < 1 {
      ok := ValidateHttpMetadata(line, size, result);
    } else {
      var hostFound, header := ValidateHttpHeader(line, size);
      if hostFound && header.Some? {
        result.host := Some(header.value.value);
      }
      validated' := validated + [header.value];
      ok := true;
    }
  }

  /** The end-of-line logic: `cache` holds the line, `next` is the byte after its carriage return. */
  method EndLine(cache: array<char>, numParsed: nat, next: char, n: nat, result: HttpRequest, validated: seq<Header>,
                 ghost rest: string, ghost goal: (bool, Head))
    returns (ok: bool, validated': seq<Header>)
    requires numParsed < cache.Length == MAX_HTTP_HEADER_LINE_SIZE && cache[numParsed] == NUL
    requires numParsed + 1 < |rest| && rest[numParsed] == '\r' && rest[numParsed + 1] == next
    requires forall i :: 0 <= i < numParsed ==> rest[i] != '\r' && cache[i] == rest[i]
    requires Pending(rest, n, result.Line(), validated, result.host, goal)
    modifies result
    ensures result.headers == old(result.headers)
    ensures !ok ==> goal.0 == false && goal.1.fields == result.Line() && goal.1.host == result.host
    ensures ok ==> next == '\n'
    ensures ok && numParsed + 2 == |rest| ==> goal == (true, Head(result.Line(), validated', result.host))
    ensures ok && numParsed + 2 < |rest| ==>
              Pending(rest[numParsed + 2..], n + 1, result.Line(), validated', result.host, goal)
  {
    hide Pending, LineIsClean, FirstLine, RestLines;
    LineEnds(rest, numParsed);
    assert cache[..numParsed] == rest[..numParsed];
    var headerLine, copied := CopyLine(cache, numParsed);
    if copied != numParsed || next != '\n' {
      UncleanFails(rest, n, result.Line(), validated, result.host, goal);
      return false, validated;
    }
    ok, validated' := TakeLine(headerLine, numParsed, n, result, validated, rest, goal);
  }

  /** The cursor loop over a head; it never passes the terminator nor looks beyond it. */
  method ParseLines(raw: array<char>, ghost text: string, result: HttpRequest, ghost goal: (bool, Head))
    returns (complete: bool, validated: seq<Header>)
    requires HasEnd(text) && |text| <= raw.Length && raw[..|text|] == text
    requires Pending(BlockOf(text), 0, result.Line(), [], result.host, goal)
    modifies result
    ensures result.headers == old(result.headers) && complete == goal.0
    ensures goal.1.fields == result.Line() && goal.1.host == result.host && (complete ==> goal.1.headers == validated)
  {
    hide Pending, AllLines, HeaderLines, Supported, SupportedHeaders, LineIsClean, FirstLine, RestLines, EndAt;
    hide FindEndFrom;
    ghost var p, block := FindEnd(text), BlockOf(text);
    var rawCursor, numParsed, lineIncrement := 0, 0, 0;
    var headerBuffer := new char[MAX_HTTP_HEADER_LINE_SIZE];
    Clear(headerBuffer);
    validated := [];
    ghost var rest := block;
    while true
      invariant numParsed <= rawCursor <= p && numParsed <= MAX_HTTP_HEADER_LINE_SIZE
      invariant result.headers == old(result.headers)
      invariant rest == block[rawCursor - numParsed..]
      invariant Pending(rest, lineIncrement, result.Line(), validated, result.host, goal)
      invariant forall i :: 0 <= i < numParsed ==> rest[i] != '\r' && headerBuffer[i] == rest[i]
      invariant forall i :: numParsed <= i < MAX_HTTP_HEADER_LINE_SIZE ==> headerBuffer[i] == NUL
      decreases p - rawCursor
    {
      if numParsed == MAX_HTTP_HEADER_LINE_SIZE {
        LineTooLong(rest);
        UncleanFails(rest, lineIncrement, result.Line(), validated, result.host, goal);
        return false, validated;
      }
      assert raw[rawCursor] == text[rawCursor] == rest[numParsed];
      if raw[rawCursor] != '\r' {
        AtEnd(text);
        headerBuffer[numParsed] := raw[rawCursor];
        numParsed := numParsed + 1;
        rawCursor := rawCursor + 1;
      } else {
        AtReturn(text, rawCursor);
        var ok;
        ok, validated := EndLine(headerBuffer, numParsed, raw[rawCursor + 1], lineIncrement, result, validated,
                                 rest, goal);
        if !ok {
          return false, validated;
        }
        if raw[rawCursor + 2] == '\r' && raw[rawCursor + 3] == '\n' {
          return true, validated;
        }
        Clear(headerBuffer);
        rest := rest[numParsed + 2..];
        numParsed := 0;
        lineIncrement := lineIncrement + 1;
        rawCursor := rawCursor + 2;
      }
    }
  }

  /**
   * The head parser. The input holds a complete head (the reader's guarantee) whose header lines
   * are at most 100 and well-formed; the struct is freshly allocated.
   */
  method GetHttpMetadata(raw: array<char>, rawSize: nat, result: HttpRequest) returns (ok: bool)
    requires rawSize <= raw.Length && result.host == None && Parseable(raw[..rawSize], result.Line())
    modifies result
    ensures (ok, Head(result.Line(), if ok then result.headers else [], result.host))
         == Parse(raw[..rawSize], old(result.Line()))
    ensures !ok ==> result.headers == old(result.headers)
  {
    if rawSize == 0 || rawSize > MAX_HTTP_HEADER_TOTAL_SIZE {
      return false;
    }
    ghost var block := BlockOf(raw[..rawSize]);
    PendingStart(block, result.Line());
    var complete, validated := ParseLines(raw, raw[..rawSize], result, AllLines(block, result.Line()));
    if !complete || result.host.None? {
      return false;
    }
    result.headers := validated;
    ok := true;
  }
}
