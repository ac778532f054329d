/** Decimal digits and the text of integers, as Python's `str` and `int` treat them. */
module Numerals {
  import opened Wrappers

  predicate IsDigit(c: char) { '0' <= c <= '9' }

  predicate AllDigits(s: string) {
    forall i :: 0 <= i < |s| ==> IsDigit(s[i])
  }

  function DigitChar(n: nat): (c: char)
    requires n < 10
    ensures IsDigit(c) && DigitValue(c) == n
  {
    ('0' as int + n) as char
  }

  function DigitValue(c: char): (n: nat)
    requires IsDigit(c)
    ensures n < 10
  {
    c as int - '0' as int
  }

  function Pow10(n: nat): (p: nat)
    ensures p > 0
  {
    if n == 0 then 1 else 10 * Pow10(n - 1)
  }

  /** The number a digit string denotes; the empty string denotes zero. */
  function NumberOf(s: string): (n: nat)
    requires AllDigits(s)
    ensures n < Pow10(|s|)
  {
    if s == [] then 0 else 10 * NumberOf(s[..|s| - 1]) + DigitValue(s[|s| - 1])
  }

  /** The low `width` digits of `n`, zero-padded on the left. */
  function Padded(n: nat, width: nat): (s: string)
    ensures |s| == width && AllDigits(s)
  {
    if width == 0 then "" else Padded(n / 10, width - 1) + [DigitChar(n % 10)]
  }

  function Zeros(n: nat): (s: string)
    ensures |s| == n && AllDigits(s)
  {
    seq(n, i => '0')
  }

  function NatText(n: nat): (s: string)
    ensures |s| > 0 && AllDigits(s)
  {
    if n < 10 then [DigitChar(n)] else NatText(n / 10) + [DigitChar(n % 10)]
  }

  /** Python's `str` of an integer. */
  function IntText(n: int): string {
    if n < 0 then "-" + NatText(-n) else NatText(n)
  }

  /** ASCII white space, which `int` strips from both ends. */
  predicate IsSpace(c: char) {
    c == ' ' || 9 <= c as int <= 13 || 28 <= c as int <= 31
  }

  function StripLeft(s: string): (r: string)
    ensures |r| <= |s|
  {
    if s != [] && IsSpace(s[0]) then StripLeft(s[1..]) else s
  }

  function StripRight(s: string): (r: string)
    ensures |r| <= |s|
  {
    if s != [] && IsSpace(s[|s| - 1]) then StripRight(s[..|s| - 1]) else s
  }

  /** Digits with single underscores between them, as in Python's integer literals. */
  predicate GroupedDigits(s: string) {
    && s != []
    && IsDigit(s[0])
    && IsDigit(s[|s| - 1])
    && (forall i :: 0 <= i < |s| ==> IsDigit(s[i]) || s[i] == '_')
    && (forall i :: 0 <= i < |s| - 1 ==> !(s[i] == '_' && s[i + 1] == '_'))
  }

  function WithoutUnderscores(s: string): (r: string)
    ensures (forall i :: 0 <= i < |s| ==> IsDigit(s[i]) || s[i] == '_') ==> AllDigits(r)
  {
    if s == [] then []
    else (if s[0] == '_' then [] else [s[0]]) + WithoutUnderscores(s[1..])
  }

  /** Python's `int(text)` on ASCII text; `None` stands for its ValueError. */
  function ParseInt(text: string): Option<int> {
    var body := StripRight(StripLeft(text));
    var negative := body != [] && body[0] == '-';
    var signed := body != [] && (body[0] == '-' || body[0] == '+');
    var digits := if signed then body[1..] else body;
    if !GroupedDigits(digits) then None
    else
      var n: int := NumberOf(WithoutUnderscores(digits));
      Some(if negative then -n else n)
  }

  lemma NumberOfLast(s: string, c: char)
    requires AllDigits(s) && IsDigit(c)
    ensures AllDigits(s + [c]) && NumberOf(s + [c]) == 10 * NumberOf(s) + DigitValue(c)
  {
    var whole := s + [c];
    assert whole[..|whole| - 1] == s && whole[|whole| - 1] == c;
  }

  /** A number splits at its thousands. */
  lemma NumberOfThousands(high: string, low: string)
    requires AllDigits(high) && AllDigits(low) && |low| == 3
    ensures AllDigits(high + low)
    ensures NumberOf(high + low) == 1_000 * NumberOf(high) + NumberOf(low)
    ensures NumberOf(low) < 1_000
  {
    var x, y, z := low[0], low[1], low[2];
    NumberOfLast([], x);
    NumberOfLast([x], y);
    NumberOfLast([x] + [y], z);
    NumberOfLast(high, x);
    NumberOfLast(high + [x], y);
    NumberOfLast(high + [x] + [y], z);
    assert [] + [x] == [x];
    assert low == [x] + [y] + [z];
    assert high + low == high + [x] + [y] + [z];
  }

  lemma {:induction false} NumberOfPadded(n: nat, width: nat)
    requires n < Pow10(width)
    ensures NumberOf(Padded(n, width)) == n
  {
    if width > 0 {
      assert n / 10 < Pow10(width - 1);
      hide Pow10;
      NumberOfPadded(n / 10, width - 1);
      NumberOfLast(Padded(n / 10, width - 1), DigitChar(n % 10));
    }
  }

  lemma {:induction false} NumberOfZero(s: string)
    requires AllDigits(s)
    ensures NumberOf(s) == 0 <==> forall i :: 0 <= i < |s| ==> s[i] == '0'
  {
    if s != [] {
      var init := s[..|s| - 1];
      NumberOfZero(init);
      assert forall i :: 0 <= i < |init| ==> init[i] == s[i];
      if forall i :: 0 <= i < |init| ==> init[i] == '0' {
        assert NumberOf(s) == 0 <==> s[|s| - 1] == '0';
      }
    }
  }

  lemma {:induction false} NumberOfNatText(n: nat)
    ensures NumberOf(NatText(n)) == n
  {
    var s := NatText(n);
    if n < 10 {
      assert s[..0] == "";
    } else {
      NumberOfNatText(n / 10);
      assert s[..|s| - 1] == NatText(n / 10);
    }
  }

  lemma {:induction false} DigitsKeepNoUnderscore(s: string)
    requires AllDigits(s)
    ensures WithoutUnderscores(s) == s
  {
    if s != [] {
      DigitsKeepNoUnderscore(s[1..]);
      assert s == [s[0]] + s[1..];
    }
  }

  /** `int(str(n)) == n` for every integer. */
  lemma ParseIntOfText(n: int)
    ensures ParseInt(IntText(n)) == Some(n)
  {
    hide NumberOf, NatText, WithoutUnderscores;
    var magnitude := if n < 0 then -n else n;
    var digits := NatText(magnitude);
    var text := IntText(n);
    assert !IsSpace(text[0]) && !IsSpace(text[|text| - 1]) by {
      assert text[|text| - 1] == digits[|digits| - 1];
    }
    assert StripRight(StripLeft(text)) == text;
    DigitsKeepNoUnderscore(digits);
    NumberOfNatText(magnitude);
    if n < 0 {
      assert text[1..] == digits;
    }
  }
}
