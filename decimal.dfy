/** Python's float() on a string and str.replace(c, ""), restricted to plain decimal
    notation: an optional sign, digits, and at most one decimal point. */
module Decimal {
  import opened Common

  predicate IsDigit(c: char) {
    '0' <= c <= '9'
  }

  predicate AllDigits(s: string) {
    forall i :: 0 <= i < |s| ==> IsDigit(s[i])
  }

  function DigitValue(c: char): nat
    requires IsDigit(c)
  {
    (c as int) - ('0' as int)
  }

  /** The natural number written by a string of digits. */
  function DigitsValue(s: string): nat
    requires AllDigits(s)
  {
    if s == [] then 0 else 10 * DigitsValue(s[..|s| - 1]) + DigitValue(s[|s| - 1])
  }

  function Pow10(n: nat): (r: nat)
    ensures r >= 1
  {
    if n == 0 then 1 else 10 * Pow10(n - 1)
  }

  /** Index of the first occurrence of `c`, if any. */
  function IndexOf(s: string, c: char): (r: Option<nat>)
    ensures r.Some? ==> r.value < |s| && s[r.value] == c && c !in s[..r.value]
    ensures r.None? ==> c !in s
  {
    if s == [] then None
    else if s[0] == c then Some(0)
    else
      match IndexOf(s[1..], c)
      case None => None
      case Some(k) =>
        assert s[..k + 1] == [s[0]] + s[1..][..k];
        Some(k + 1)
  }

  /** s.replace(c, ""): every occurrence of `c` removed, everything else kept in order. */
  function RemoveAll(s: string, c: char): (r: string)
    ensures c !in r
    ensures |r| <= |s|
    ensures c !in s ==> r == s
  {
    if s == [] then []
    else if s[0] == c then RemoveAll(s[1..], c)
    else [s[0]] + RemoveAll(s[1..], c)
  }

  lemma RemoveAllAppend(s: string, t: string, c: char)
    ensures RemoveAll(s + t, c) == RemoveAll(s, c) + RemoveAll(t, c)
  {
    if s != [] {
      assert (s + t)[0] == s[0];
      assert (s + t)[1..] == s[1..] + t;
      RemoveAllAppend(s[1..], t, c);
      if s[0] != c {
        assert [s[0]] + (RemoveAll(s[1..], c) + RemoveAll(t, c)) == ([s[0]] + RemoveAll(s[1..], c)) + RemoveAll(t, c);
      }
    } else {
      assert s + t == t;
    }
  }

  /** Unsigned decimal notation: digits with at most one point, at least one digit in all. */
  function ParseUnsigned(s: string): Option<real>
  {
    match IndexOf(s, '.')
    case None =>
      if s != [] && AllDigits(s) then Some(DigitsValue(s) as real) else None
    case Some(k) =>
      var whole, fraction := s[..k], s[k + 1..];
      if AllDigits(whole) && AllDigits(fraction) && |whole| + |fraction| > 0 then
        Some(DigitsValue(whole) as real + DigitsValue(fraction) as real / Pow10(|fraction|) as real)
      else None
  }

  /** float(s) for decimal notation; None where Python raises ValueError. */
  function ParseNumber(s: string): Option<real>
  {
    if |s| > 0 && s[0] == '-' then
      match ParseUnsigned(s[1..])
      case None => None
      case Some(x) => Some(-x)
    else if |s| > 0 && s[0] == '+' then ParseUnsigned(s[1..])
    else ParseUnsigned(s)
  }

  function DigitChar(d: nat): (c: char)
    requires d < 10
    ensures IsDigit(c) && DigitValue(c) == d
  {
    (('0' as int) + d) as char
  }

  /** str(n) for a natural number. */
  function Render(n: nat): (r: string)
    ensures |r| > 0 && AllDigits(r)
  {
    if n < 10 then [DigitChar(n)] else Render(n / 10) + [DigitChar(n % 10)]
  }

  lemma {:induction false} RenderValue(n: nat)
    ensures DigitsValue(Render(n)) == n
  {
    if n >= 10 {
      var r := Render(n);
      assert r[..|r| - 1] == Render(n / 10);
      RenderValue(n / 10);
    }
  }

  /** float(str(n)) == n, and the same with a leading minus sign. */
  lemma ParseRendered(n: nat)
    ensures ParseNumber(Render(n)) == Some(n as real)
    ensures ParseNumber("-" + Render(n)) == Some(-(n as real))
  {
    var r := Render(n);
    RenderValue(n);
    assert IndexOf(r, '.').None? by {
      assert !IsDigit('.');
    }
    assert ("-" + r)[1..] == r;
  }

  /** "n%" carries a percent sign, and without it reads back as n. */
  lemma PercentText(n: nat)
    ensures '%' in Render(n) + "%"
    ensures RemoveAll(Render(n) + "%", '%') == Render(n)
    ensures ParseNumber(RemoveAll(Render(n) + "%", '%')) == Some(n as real)
  {
    var r := Render(n);
    ParseRendered(n);
    RenderValue(n);
    assert '%' !in r by {
      assert !IsDigit('%');
    }
    RemoveAllAppend(r, "%", '%');
    assert RemoveAll("%", '%') == [];
    assert (r + "%")[|r|] == '%';
  }
}
