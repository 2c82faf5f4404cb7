/** C strings as sequences: everything a NUL-scanning routine can see of a buffer. */
module CStrings {

  const NUL := '\0'

  /** The number of values of a `size_t`. */
  const WORD := 0x1_0000_0000_0000_0000

  /** A byte of a string as its buffer shows it: past the text stands the terminator. */
  function At(text: string, i: nat): char {
    if i < |text| then text[i] else NUL
  }

  /** The position of the first `x` in `s`, or `|s|` when there is none. */
  function Find<T(==)>(s: seq<T>, x: T): (i: nat)
    ensures i <= |s|
    ensures forall k :: 0 <= k < i ==> s[k] != x
    ensures i < |s| ==> s[i] == x
  {
    if s == [] || s[0] == x then 0
    else
      1 + Find(s[1..], x)
  }

  /** The only position that can be `Find(s, x)`. */
  lemma FindIs<T>(s: seq<T>, x: T, i: nat)
    requires i <= |s| && forall k :: 0 <= k < i ==> s[k] != x
    requires i < |s| ==> s[i] == x
    ensures Find(s, x) == i
  {
  }

  /** The part of `s` that `strcmp` and `strlen` look at when `nul` ends a string. */
  function CStr<T(==)>(s: seq<T>, nul: T): (r: seq<T>)
    ensures r <= s && nul !in r
    ensures nul !in s ==> r == s
    ensures |r| < |s| ==> s[|r|] == nul
  {
    var i := Find(s, nul);
    if i < |s| then s[..i] else s
  }

  /** `strcmp` is zero: the strings agree up to a position where both end and before which neither does. */
  lemma SameString<T>(a: seq<T>, b: seq<T>, nul: T)
    ensures CStr(a, nul) == CStr(b, nul) <==>
              exists i: nat :: i <= |a| && i <= |b| && Agree(a, b, i) && Ends(a, nul, i) && Ends(b, nul, i)
  {
    if CStr(a, nul) == CStr(b, nul) {
      var i := |CStr(a, nul)|;
      assert Agree(a, b, i) && Ends(a, nul, i) && Ends(b, nul, i);
    }
    if i: nat :| i <= |a| && i <= |b| && Agree(a, b, i) && Ends(a, nul, i) && Ends(b, nul, i) {
      FindIs(a, nul, i);
      FindIs(b, nul, i);
    }
  }

  ghost predicate Agree<T>(a: seq<T>, b: seq<T>, i: nat)
    requires i <= |a| && i <= |b|
  {
    a[..i] == b[..i]
  }

  /** The string ends at `i`: no terminator before, and one there or nothing. */
  ghost predicate Ends<T>(s: seq<T>, nul: T, i: nat)
    requires i <= |s|
  {
    (forall k :: 0 <= k < i ==> s[k] != nul) && (i == |s| || s[i] == nul)
  }
}
