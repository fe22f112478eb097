/** Decimal numerals: strconv.Itoa and the %d / %02d verbs, with their reader. */
module Decimal {
  import opened Bytes

  type digit = d: int | 0 <= d < 10

  /** The digits of n, most significant first, as strconv.Itoa writes them. */
  function Digits(n: nat): (ds: seq<digit>)
    ensures |ds| > 0
  {
    if n < 10 then [n] else Digits(n / 10) + [n % 10]
  }

  /** The %02d verb: at least two digits. */
  function PaddedDigits(n: nat): (ds: seq<digit>)
    ensures |ds| > 0
  {
    if n < 10 then [0, n] else Digits(n)
  }

  function Value(ds: seq<digit>): nat {
    if ds == [] then 0 else 10 * Value(ds[..|ds| - 1]) + ds[|ds| - 1]
  }

  lemma {:induction false} ValueOfDigits(n: nat)
    ensures Value(Digits(n)) == n
  {
    if n >= 10 {
      ValueOfDigits(n / 10);
      assert Digits(n)[..|Digits(n)| - 1] == Digits(n / 10);
    }
  }

  lemma ValueOfPaddedDigits(n: nat)
    ensures Value(PaddedDigits(n)) == n
  {
    ValueOfDigits(n);
    if n < 10 {
      assert [0, n][..1] == [0];
      assert Value([0]) == 0;
    }
  }

  function ToText(ds: seq<digit>): (s: string)
    ensures |s| == |ds|
    ensures forall i :: 0 <= i < |s| ==> IsDigit(s[i])
  {
    seq(|ds|, i requires 0 <= i < |ds| => (48 + ds[i] as int) as char)
  }

  predicate IsDigit(c: char) {
    '0' <= c <= '9'
  }

  /** The characters themselves, in text and in bytes. */
  lemma DigitCharacters(ds: seq<digit>, i: nat)
    requires i < |ds|
    ensures ToText(ds)[i] == "0123456789"[ds[i]] && ToBytes(ds)[i] == "0123456789"[ds[i]] as int
  {
  }

  /** No leading zero but for 0 itself. */
  lemma {:induction false} NoLeadingZero(n: nat)
    ensures n == 0 ==> Digits(n) == [0]
    ensures n > 0 ==> Digits(n)[0] != 0
  {
    if n >= 10 {
      NoLeadingZero(n / 10);
    }
  }

  /** Equal texts come from equal digits, even when a non-digit and anything
      else follows them: a numeral followed by a separator is self-delimiting. */
  lemma TextPrefixInjective(a: seq<digit>, s: string, b: seq<digit>, t: string)
    requires s != [] ==> !IsDigit(s[0])
    requires t != [] ==> !IsDigit(t[0])
    requires ToText(a) + s == ToText(b) + t
    ensures a == b && s == t
  {
    var x, y := ToText(a) + s, ToText(b) + t;
    assert |a| < |x| ==> !IsDigit(x[|a|]);
    assert |b| < |y| ==> !IsDigit(y[|b|]);
    assert forall i :: 0 <= i < |a| ==> IsDigit(x[i]);
    assert forall i :: 0 <= i < |b| ==> IsDigit(y[i]);
    forall i | 0 <= i < |a| ensures a[i] == b[i] {
      assert x[i] == ToText(a)[i] && y[i] == ToText(b)[i];
      assert ToText(a)[i] as int == 48 + a[i] as int && ToText(b)[i] as int == 48 + b[i] as int;
    }
    assert s == x[|a|..] && t == y[|b|..];
  }

  /** The same numeral as ASCII bytes, for tag text. */
  function ToBytes(ds: seq<digit>): (b: seq<byte>)
    ensures |b| == |ds|
  {
    seq(|ds|, i requires 0 <= i < |ds| => 48 + ds[i] as int)
  }

  /** Reads an ASCII numeral; anything else reads as 0. */
  function FromBytes(b: seq<byte>): nat {
    if forall i :: 0 <= i < |b| ==> 48 <= b[i] < 58
    then Value(seq(|b|, i requires 0 <= i < |b| && 48 <= b[i] < 58 => b[i] - 48))
    else 0
  }

  lemma BytesRoundTrip(n: nat)
    ensures FromBytes(ToBytes(Digits(n))) == n
  {
    var ds := Digits(n);
    var b := ToBytes(ds);
    ValueOfDigits(n);
    assert seq(|b|, i requires 0 <= i < |b| && 48 <= b[i] < 58 => b[i] - 48) == ds;
  }
}
