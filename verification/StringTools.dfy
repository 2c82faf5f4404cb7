/** The decimal printer of string_tools.c and the numerals it writes. */
module StringTools {
  import opened CStrings

  predicate IsDigit(c: char) {
    '0' <= c <= '9'
  }

  function DigitOf(d: nat): (c: char)
    requires d < 10
    ensures IsDigit(c) && (c as int) - ('0' as int) == d
  {
    '0' + d as char
  }

  predicate Digits(s: string) {
    forall i :: 0 <= i < |s| ==> IsDigit(s[i])
  }

  /** The number a string of digits denotes, read left to right. */
  function Value(s: string): nat
    requires Digits(s)
  {
    if s == [] then 0 else Value(s[..|s| - 1]) * 10 + (s[|s| - 1] as int - '0' as int)
  }

  /** A digit appended: digits are the codes 48 to 57, and the base is ten. */
  lemma ValueSnoc(s: string, c: char)
    ensures IsDigit(c) <==> 48 <= c as int <= 57
    ensures Value("") == 0
    ensures Digits(s) && IsDigit(c) ==> Digits(s + [c]) && Value(s + [c]) == 10 * Value(s) + (c as int - 48)
  {
    assert (s + [c])[..|s|] == s;
  }

  /** The decimal numeral of a number. */
  function Decimal(n: nat): (s: string)
    ensures |s| >= 1 && Digits(s)
  {
    if n < 10 then [DigitOf(n)] else Decimal(n / 10) + [DigitOf(n % 10)]
  }

  /** Printing and reading back is the identity. */
  lemma {:induction false} ValueOfDecimal(n: nat)
    ensures Value(Decimal(n)) == n
  {
    var s := Decimal(n);
    if n < 10 {
      assert s[..0] == [];
    } else {
      assert s[..|s| - 1] == Decimal(n / 10);
      ValueOfDecimal(n / 10);
    }
  }

  /** The numeral is the only string of digits without a leading zero that denotes its number. */
  lemma {:induction false} DecimalIsUnique(s: string)
    requires Digits(s) && s != [] && (|s| == 1 || s[0] != '0')
    ensures Decimal(Value(s)) == s
    ensures s[0] != '0' ==> Value(s) > 0
  {
    var front, last := s[..|s| - 1], s[|s| - 1] as int - '0' as int;
    if |s| == 1 {
      assert front == [];
    } else {
      DecimalIsUnique(front);
      assert Value(s) / 10 == Value(front) && Value(s) % 10 == last;
      assert s == front + [s[|s| - 1]];
    }
  }

  function Pow10(k: nat): (p: nat)
    ensures p >= 1
  {
    if k == 0 then 1 else 10 * Pow10(k - 1)
  }

  /** A number has at most k digits exactly when it is below 10^k. */
  lemma {:induction false} DecimalLength(n: nat, k: nat)
    requires k >= 1
    ensures |Decimal(n)| <= k <==> n < Pow10(k)
  {
    if k == 1 {
      assert Pow10(0) == 1;
    } else if n >= 10 {
      DecimalLength(n / 10, k - 1);
    }
  }

  /** Counts the digits, then writes them from the tail backwards, NUL first. */
  method SizeTToString(number: nat, result: array<char>) returns (ok: bool)
    requires number < WORD && result.Length > |Decimal(number)|
    modifies result
    ensures ok
    ensures result[..|Decimal(number)|] == Decimal(number)
    ensures result[|Decimal(number)|] == NUL
    ensures forall i :: |Decimal(number)| < i < result.Length ==> result[i] == old(result[i])
  {
    ghost var numeral := Decimal(number);
    var tempNumber: nat := number / 10;
    var numberCounter := 1;
    while tempNumber > 0
      invariant |numeral| == numberCounter + if tempNumber == 0 then 0 else |Decimal(tempNumber)|
      decreases tempNumber
    {
      tempNumber := tempNumber / 10;
      numberCounter := numberCounter + 1;
    }
    var tail: int := numberCounter;
    result[tail] := NUL;
    var rest: nat := number;
    while true
      invariant 1 <= tail <= numberCounter == |numeral|
      invariant numeral[..tail] == Decimal(rest)
      invariant forall i :: tail <= i < numberCounter ==> result[i] == numeral[i]
      invariant result[numberCounter] == NUL
      invariant forall i :: numberCounter < i < result.Length ==> result[i] == old(result[i])
      decreases tail
    {
      tail := tail - 1;
      if tail < 0 {
        assert false;
        break;
      }
      assert numeral[tail] == numeral[..tail + 1][tail] == DigitOf(rest % 10);
      assert rest >= 10 ==> numeral[..tail] == numeral[..tail + 1][..tail] == Decimal(rest / 10);
      result[tail] := DigitOf(rest % 10);
      rest := rest / 10;
      if rest == 0 {
        break;
      }
    }
    ok := true;
  }
}
