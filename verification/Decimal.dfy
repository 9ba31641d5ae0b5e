/** Decimal rendering as done by std::to_string and operator<< on unsigned counters. */
module Decimal {

  ghost predicate IsDigit(c: char) { '0' <= c <= '9' }

  ghost predicate AllDigits(s: string) { forall i :: 0 <= i < |s| ==> IsDigit(s[i]) }

  function Digit(d: nat): (c: char)
    requires d < 10
    ensures IsDigit(c)
  {
    ('0' as int + d) as char
  }

  function Dec(n: nat): (s: string)
    ensures s != [] && AllDigits(s)
  {
    if n < 10 then [Digit(n)] else Dec(n / 10) + [Digit(n % 10)]
  }

  /** Rendering of a signed 64-bit timestamp. */
  function DecInt(n: int): string {
    if n < 0 then "-" + Dec(-n) else Dec(n)
  }

  /** The reader of decimal text; it exists to show that rendering loses nothing. */
  function Undec(s: string): int {
    if s == [] then 0 else Undec(s[..|s| - 1]) * 10 + (s[|s| - 1] as int - '0' as int)
  }

  lemma {:induction false} UndecDec(n: nat)
    ensures Undec(Dec(n)) == n
  {
    if n >= 10 {
      var s := Dec(n);
      assert s[..|s| - 1] == Dec(n / 10);
      UndecDec(n / 10);
    }
  }

  /** Decimal text as it is written: digits, with no leading zero but in "0" itself. */
  ghost predicate IsDecimal(s: string) {
    s != "" && AllDigits(s) && (s[0] == '0' ==> |s| == 1)
  }

  lemma {:induction false} UndecSign(s: string)
    requires AllDigits(s)
    ensures Undec(s) >= 0
    ensures s != "" && s[0] != '0' ==> Undec(s) > 0
  {
    if s != "" {
      UndecSign(s[..|s| - 1]);
    }
  }

  lemma {:induction false} DecIsDecimal(n: nat)
    ensures IsDecimal(Dec(n)) && (Dec(n)[0] == '0' ==> n == 0)
  {
    if n >= 10 {
      DecIsDecimal(n / 10);
      assert Dec(n)[0] == Dec(n / 10)[0];
    }
  }

  /** Reading decimal text gives the number that renders as it. */
  lemma {:induction false} DecUndec(s: string)
    requires IsDecimal(s)
    ensures Undec(s) >= 0 && Dec(Undec(s)) == s
  {
    UndecSign(s);
    var last := s[|s| - 1];
    assert IsDigit(last);
    if |s| == 1 {
      assert s == [last];
    } else {
      var pre := s[..|s| - 1];
      UndecSign(pre);
      DecUndec(pre);
      assert s == pre + [last];
      assert Undec(s) / 10 == Undec(pre) && Undec(s) % 10 == last as int - '0' as int;
    }
  }

  /** Rendering, exactly: Dec(n) is the one decimal text that reads as n. */
  lemma DecExactly(s: string, n: nat)
    ensures s == Dec(n) <==> IsDecimal(s) && Undec(s) == n
  {
    DecIsDecimal(n);
    UndecDec(n);
    if IsDecimal(s) {
      DecUndec(s);
    }
  }

  /** Two counters that render alike are equal: no identifier is ever minted twice. */
  lemma DecInjective(m: nat, n: nat)
    requires Dec(m) == Dec(n)
    ensures m == n
  {
    UndecDec(m);
    UndecDec(n);
  }

  lemma DecIntInjective(m: int, n: int)
    requires DecInt(m) == DecInt(n)
    ensures m == n
  {
    assert m < 0 ==> DecInt(m)[0] == '-' && DecInt(m)[1..] == Dec(-m);
    assert n < 0 ==> DecInt(n)[0] == '-' && DecInt(n)[1..] == Dec(-n);
    assert m >= 0 ==> IsDigit(DecInt(m)[0]);
    assert n >= 0 ==> IsDigit(DecInt(n)[0]);
    if m < 0 {
      DecInjective(-m, -n);
    } else {
      DecInjective(m, n);
    }
  }
}
