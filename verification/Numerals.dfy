/** Decimal texts: the number that digits spell, and the text QString::number gives a number. */
module Numerals {
  predicate IsDigits(s: string) {
    forall i :: 0 <= i < |s| ==> '0' <= s[i] <= '9'
  }

  /** The number that digits spell. */
  function NumberOf(s: string): nat
    requires IsDigits(s)
  {
    if s == "" then 0 else NumberOf(s[..|s| - 1]) * 10 + (s[|s| - 1] as int - '0' as int)
  }

  function TenToThe(n: nat): nat {
    if n == 0 then 1 else 10 * TenToThe(n - 1)
  }

  /** QString::number. */
  function Decimal(n: int): (s: string)
    ensures s != ""
    decreases if n < 0 then 1 - n else n
  {
    if n < 0 then "-" + Decimal(-n)
    else if n < 10 then [Digit(n)]
    else Decimal(n / 10) + [Digit(n % 10)]
  }

  function Digit(d: int): char
    requires 0 <= d < 10
  {
    ('0' as int + d) as char
  }

  function Zeros(k: nat): (s: string)
    ensures |s| == k
  {
    seq(k, _ => '0')
  }

  // ---------------------------------------------------------------- what digits spell

  lemma SingleDigits()
    ensures IsDigits("0123456789")
    ensures forall d :: 0 <= d < 10 ==> NumberOf(["0123456789"[d]]) == d
  {
    forall d | 0 <= d < 10 ensures NumberOf(["0123456789"[d]]) == d {
      var s := ["0123456789"[d]];
      assert s[..0] == "" && s[|s| - 1] as int == '0' as int + d;
    }
  }

  lemma Shifted(x: nat, p: nat, y: nat, d: nat)
    ensures (x * p + y) * 10 + d == x * (10 * p) + (y * 10 + d)
  {}

  /** The positional law: what stands further left counts ten times as much. */
  lemma {:induction false} NumberOfJoined(a: string, b: string)
    requires IsDigits(a) && IsDigits(b)
    ensures IsDigits(a + b) && NumberOf(a + b) == NumberOf(a) * TenToThe(|b|) + NumberOf(b)
  {
    if b == "" {
      assert a + b == a;
    } else {
      var n := |b| - 1;
      var d := b[n] as int - '0' as int;
      NumberOfJoined(a, b[..n]);
      assert (a + b)[..|a + b| - 1] == a + b[..n] && (a + b)[|a + b| - 1] == b[n];
      assert NumberOf(a + b) == NumberOf(a + b[..n]) * 10 + d && NumberOf(b) == NumberOf(b[..n]) * 10 + d;
      assert TenToThe(|b|) == 10 * TenToThe(n);
      Shifted(NumberOf(a), TenToThe(n), NumberOf(b[..n]), d);
    }
  }

  lemma {:induction false} NumberBounded(s: string)
    requires IsDigits(s)
    ensures NumberOf(s) < TenToThe(|s|)
  {
    if s != "" {
      NumberBounded(s[..|s| - 1]);
    }
  }

  // ---------------------------------------------------------------- decimal texts are read back

  lemma {:induction false} DecimalSpells(n: nat)
    ensures IsDigits(Decimal(n)) && NumberOf(Decimal(n)) == n
    ensures n > 0 ==> Decimal(n)[0] != '0'
  {
    var s := Decimal(n);
    if n >= 10 {
      DecimalSpells(n / 10);
      assert s[..|s| - 1] == Decimal(n / 10);
    } else {
      assert s[..0] == "";
    }
  }

  lemma {:induction false} ZerosSpellNothing(k: nat)
    ensures IsDigits(Zeros(k)) && NumberOf(Zeros(k)) == 0
  {
    if k > 0 {
      ZerosSpellNothing(k - 1);
      assert Zeros(k)[..k - 1] == Zeros(k - 1);
    }
  }

  /** The text of n, with any number of zeros in front, spells n. */
  lemma DecimalIsReadBack(k: nat, n: nat)
    ensures IsDigits(Zeros(k) + Decimal(n)) && NumberOf(Zeros(k) + Decimal(n)) == n
  {
    DecimalSpells(n);
    ZerosSpellNothing(k);
    NumberOfJoined(Zeros(k), Decimal(n));
  }

  lemma OneMoreDigit(k: nat, m: nat, d: nat) returns (k': nat)
    requires d < 10
    ensures Zeros(k) + Decimal(m) + [Digit(d)] == Zeros(k') + Decimal(m * 10 + d)
  {
    if m == 0 {
      k' := k + 1;
      assert Zeros(k) + Decimal(m) == Zeros(k');
    } else {
      k' := k;
      assert Decimal(m * 10 + d) == Decimal(m) + [Digit(d)];
    }
  }

  /** And there are no other digits: every non-empty digit string is such a text. */
  lemma {:induction false} DigitsAreDecimal(s: string) returns (k: nat)
    requires IsDigits(s) && s != ""
    ensures s == Zeros(k) + Decimal(NumberOf(s))
  {
    hide Decimal, Zeros;
    var n := |s| - 1;
    var d := s[n] as int - '0' as int;
    assert s == s[..n] + [Digit(d)];
    if n == 0 {
      assert s[..0] == "";
      k := 0;
      OneDigit(d);
    } else {
      var k' := DigitsAreDecimal(s[..n]);
      k := OneMoreDigit(k', NumberOf(s[..n]), d);
    }
  }

  lemma OneDigit(d: nat)
    requires d < 10
    ensures [Digit(d)] == Zeros(0) + Decimal(d)
  {}

  lemma DecimalIsInjective(a: nat, b: nat)
    requires Decimal(a) == Decimal(b)
    ensures a == b
  {
    DecimalSpells(a);
    DecimalSpells(b);
  }

  /** The text is that of the integer: a minus sign for a negative one, and its digits without zeros in front. */
  predicate IsInteger(text: string, n: int) {
    if n < 0 then text != "" && text[0] == '-' && IsNatural(text[1..], -n) else IsNatural(text, n)
  }

  predicate IsNatural(text: string, n: nat) {
    text != "" && IsDigits(text) && NumberOf(text) == n && (text[0] != '0' || text == "0")
  }

  lemma NaturalIsDecimal(text: string, n: nat)
    ensures IsNatural(text, n) <==> text == Decimal(n)
  {
    DecimalSpells(n);
    if n == 0 { assert Decimal(0) == "0"; }
    if IsNatural(text, n) {
      var k := DigitsAreDecimal(text);
      ZerosLead(text, k, n);
    }
  }

  lemma ZerosLead(text: string, k: nat, n: nat)
    requires text == Zeros(k) + Decimal(n)
    ensures if k == 0 then text == Decimal(n) else text[0] == '0' && |text| >= 2
  {
    assert k > 0 ==> Zeros(k)[0] == '0';
  }

  lemma IntegerIsDecimal(text: string, n: int)
    ensures IsInteger(text, n) <==> text == Decimal(n)
  {
    if n < 0 {
      if text != "" {
        NaturalIsDecimal(text[1..], -n);
        assert text == [text[0]] + text[1..];
      }
      hide IsNatural;
      assert Decimal(n) == "-" + Decimal(-n) && Decimal(n)[1..] == Decimal(-n);
    } else {
      NaturalIsDecimal(text, n);
    }
  }

  lemma DecimalIsInteger(n: int)
    ensures IsInteger(Decimal(n), n)
    ensures Decimal(n)[0] == '-' || '0' <= Decimal(n)[0] <= '9'
  {
    IntegerIsDecimal(Decimal(n), n);
    if n >= 0 { DecimalSpells(n); }
  }

  lemma IntegersApart(text: string, a: int, b: int)
    requires IsInteger(text, a) && IsInteger(text, b)
    ensures a == b
  {}
}
