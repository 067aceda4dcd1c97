/** Unsigned decimal text: what a C++ stream prints for an unsigned integer, and what
    `strtoull` in base 10 reads back. */
module Decimal {

  const UINT64_LIMIT := 0x1_0000_0000_0000_0000
  type UInt64 = n: int | 0 <= n < UINT64_LIMIT

  predicate IsDigit(c: char) {
    '0' <= c <= '9'
  }

  predicate AllDigits(s: string) {
    forall i | 0 <= i < |s| :: IsDigit(s[i])
  }

  function DigitChar(d: nat): (c: char)
    requires d < 10
    ensures IsDigit(c)
  {
    '0' + d as char
  }

  function Digits(n: nat): (s: string)
    ensures |s| > 0 && AllDigits(s)
    ensures |s| > 1 ==> s[0] != '0'
  {
    if n < 10 then [DigitChar(n)] else Digits(n / 10) + [DigitChar(n % 10)]
  }

  function Value(s: string): nat
    requires AllDigits(s)
  {
    if s == [] then 0 else 10 * Value(s[..|s| - 1]) + (s[|s| - 1] - '0') as nat
  }

  lemma {:induction false} ValueOfDigits(n: nat)
    ensures Value(Digits(n)) == n
  {
    if n < 10 {
      assert Digits(n)[..0] == [];
    } else {
      ValueOfDigits(n / 10);
      assert Digits(n)[..|Digits(n)| - 1] == Digits(n / 10);
    }
  }

  /** The places count tens. */
  lemma DigitsByTens(n: nat, d: nat)
    requires d < 10
    ensures Digits(d) == ["0123456789"[d]]
    ensures n > 0 ==> Digits(10 * n + d) == Digits(n) + Digits(d)
  {
    assert (10 * n + d) / 10 == n && (10 * n + d) % 10 == d;
  }

  /** `strtoull(text, nullptr, 10)` on a text of digits: saturates at the largest uint64. */
  method Strtoull(text: string) returns (n: UInt64)
    requires AllDigits(text)
    ensures n == if Value(text) < UINT64_LIMIT then Value(text) else UINT64_LIMIT - 1
  {
    n := 0;
    var overflow := false;
    for i := 0 to |text|
      invariant overflow ==> Value(text[..i]) >= UINT64_LIMIT
      invariant !overflow ==> n == Value(text[..i])
    {
      assert text[..i + 1][..i] == text[..i];
      var d := (text[i] - '0') as nat;
      assert Value(text[..i + 1]) == 10 * Value(text[..i]) + d;
      if overflow || 10 * n + d >= UINT64_LIMIT {
        overflow := true;
      } else {
        n := 10 * n + d;
      }
    }
    assert text[..|text|] == text;
    if overflow {
      n := UINT64_LIMIT - 1;
    }
  }
}
