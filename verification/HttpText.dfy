/** The end-of-head marker both the reader and the parser look for. */
module HttpText {

  const CRLF := "\r\n"
  const MAX_HTTP_HEADER_LINE_SIZE := 8192
  const MAX_HTTP_HEADER_COUNT := 100
  const MAX_HTTP_HEADER_TOTAL_SIZE := MAX_HTTP_HEADER_LINE_SIZE * MAX_HTTP_HEADER_COUNT

  predicate EndAt(s: string, p: nat) {
    p + 4 <= |s| && s[p] == '\r' && s[p + 1] == '\n' && s[p + 2] == '\r' && s[p + 3] == '\n'
  }

  lemma EndAtIs(s: string, p: nat)
    ensures EndAt(s, p) <==> p + 4 <= |s| && s[p..p + 4] == "\r\n\r\n"
  {
    if p + 4 <= |s| {
      assert s[p..p + 4] == [s[p], s[p + 1], s[p + 2], s[p + 3]];
    }
  }

  /** What `memmem` returns as an offset: the first CRLFCRLF, or `|s|` when there is none. */
  function FindEnd(s: string): (p: nat)
    ensures p <= |s| && (p < |s| ==> EndAt(s, p))
    ensures forall q: nat :: EndAt(s, q) ==> p <= q
  {
    FindEndFrom(s, 0)
  }

  function FindEndFrom(s: string, from: nat): (p: nat)
    requires from <= |s|
    ensures from <= p <= |s| && (p < |s| ==> EndAt(s, p))
    ensures forall q: nat :: from <= q && EndAt(s, q) ==> p <= q
    decreases |s| - from
  {
    if from == |s| || EndAt(s, from) then from else FindEndFrom(s, from + 1)
  }

  predicate HasEnd(s: string) {
    FindEnd(s) < |s|
  }

  /** Bytes after the first terminator do not move it. */
  lemma EndOfPrefix(s: string, t: string)
    requires HasEnd(s) && s <= t
    ensures HasEnd(t) && FindEnd(t) == FindEnd(s)
  {
    assert EndAt(t, FindEnd(s));
    assert forall q: nat :: q < FindEnd(s) && EndAt(t, q) ==> EndAt(s, q);
  }
}
