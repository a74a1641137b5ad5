/** The departure map is keyed by the member ID written out in decimal, as
    Python's str() does for an int: an optional '-' followed by the digits. */
module MemberKey {

  /** The character for one decimal digit. */
  function DigitChar(d: int): (c: char)
    requires 0 <= d < 10
    ensures '0' <= c <= '9'
    ensures c as int - '0' as int == d
  {
    (d + '0' as int) as char
  }

  predicate IsDigits(s: string) {
    forall i :: 0 <= i < |s| ==> '0' <= s[i] <= '9'
  }

  /** The decimal numeral of n, without leading zeros. */
  function Decimal(n: nat): (s: string)
    ensures IsDigits(s)
    ensures |s| >= 1
    ensures |s| == 1 <==> n < 10
    ensures s[|s| - 1] == DigitChar(n % 10)
    decreases n
  {
    if n < 10 then [DigitChar(n)] else Decimal(n / 10) + [DigitChar(n % 10)]
  }

  /** The key under which a member's departure record is stored. */
  function Key(id: int): (k: string)
    ensures |k| >= 1
    ensures (k[0] == '-') <==> id < 0
  {
    if id < 0 then "-" + Decimal(-id) else Decimal(id)
  }

  lemma {:induction false} DecimalInjective(a: nat, b: nat)
    requires Decimal(a) == Decimal(b)
    ensures a == b
    decreases a
  {
    if a >= 10 {
      var s := Decimal(a);
      assert b >= 10;
      assert DigitChar(a % 10) == s[|s| - 1] == DigitChar(b % 10);
      assert Decimal(a / 10) == s[..|s| - 1] == Decimal(b / 10);
      DecimalInjective(a / 10, b / 10);
    } else {
      assert DigitChar(a) == Decimal(a)[0] == DigitChar(b);
    }
  }

  /** Distinct members never share a key, so one member's record can never be
      read, overwritten or deleted on behalf of another. */
  lemma KeyInjective(a: int, b: int)
    ensures Key(a) == Key(b) <==> a == b
  {
    if Key(a) == Key(b) {
      if a < 0 {
        assert Key(a)[1..] == Decimal(-a) && Key(b)[1..] == Decimal(-b);
        DecimalInjective(-a, -b);
      } else {
        DecimalInjective(a, b);
      }
    }
  }
}
