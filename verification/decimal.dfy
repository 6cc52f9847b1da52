/**
 * A restricted model of Python's `float(s)`: an optional sign, then
 * decimal digits with at most one point and at least one digit. The
 * exponent form, `inf`/`nan`, digit-group underscores and surrounding
 * whitespace that `float` also accepts are not part of this grammar.
 */
module Decimal {
  import opened Common
  import Text

  predicate IsDigit(c: char) {
    '0' <= c <= '9'
  }

  predicate AllDigits(d: string) {
    forall k :: 0 <= k < |d| ==> IsDigit(d[k])
  }

  function Pow10(k: nat): (r: nat)
    ensures r > 0
  {
    if k == 0 then 1 else 10 * Pow10(k - 1)
  }

  /** The number a string of decimal digits denotes (0 for the empty string). */
  function DigitsValue(d: string): nat
    requires AllDigits(d)
  {
    if |d| == 0 then 0
    else 10 * DigitsValue(d[..|d| - 1]) + ((d[|d| - 1] as int) - ('0' as int))
  }

  /** The value of a whole part and a fraction that are both digit runs, not both empty. */
  function UnsignedValue(whole: string, frac: string): (r: Option<real>)
    ensures r.Some? <==> AllDigits(whole) && AllDigits(frac) && |whole| + |frac| > 0
    ensures r.Some? ==> r.value >= 0.0
  {
    if !AllDigits(whole) || !AllDigits(frac) || |whole| + |frac| == 0 then None
    else Some(DigitsValue(whole) as real + DigitsValue(frac) as real / Pow10(|frac|) as real)
  }

  /** An unsigned decimal: `ddd`, `ddd.`, `.ddd` or `ddd.ddd`, split at the first point. */
  function ParseUnsigned(s: string): (r: Option<real>)
    ensures r.Some? ==> forall k :: 0 <= k < |s| ==> IsDigit(s[k]) || s[k] == '.'
    ensures r.Some? ==> r.value >= 0.0
  {
    var i := Text.FirstIndex(s, '.');
    var frac := if i < |s| then s[i + 1..] else "";
    var r := UnsignedValue(s[..i], frac);
    assert r.Some? ==> forall k :: 0 <= k < |s| ==> IsDigit(s[k]) || s[k] == '.' by {
      if r.Some? {
        forall k | 0 <= k < |s| ensures IsDigit(s[k]) || s[k] == '.' {
          if k < i {
            assert s[k] == s[..i][k];
          } else if k > i {
            assert s[k] == frac[k - i - 1];
          }
        }
      }
    }
    r
  }

  /**
   * `float(s)` on the restricted grammar. A string holding anything but
   * digits, a point and a leading sign (a `$`, a `%`, a letter, a space) is
   * rejected.
   */
  function ParseDecimal(s: string): (r: Option<real>)
    ensures r.Some? ==> |s| > 0
    ensures r.Some? ==> forall k :: 0 <= k < |s| ==> IsDigit(s[k]) || s[k] in ".+-"
  {
    if |s| > 0 && (s[0] == '-' || s[0] == '+') then
      match ParseUnsigned(s[1..])
      case None => None
      case Some(x) =>
        assert forall k :: 1 <= k < |s| ==> s[k] == s[1..][k - 1];
        Some(if s[0] == '-' then -x else x)
    else
      ParseUnsigned(s)
  }

  /** The decimal digits of `n`, most significant first, without leading zeros. */
  function RenderNat(n: nat): (d: string)
    ensures |d| > 0 && AllDigits(d)
  {
    if n < 10 then [('0' as int + n) as char]
    else RenderNat(n / 10) + [('0' as int + n % 10) as char]
  }

  /** `str(n)` for an integer `n`. */
  function RenderInt(n: int): string {
    if n < 0 then "-" + RenderNat(-n) else RenderNat(n)
  }

  lemma {:induction false} DigitsOfRender(n: nat)
    ensures DigitsValue(RenderNat(n)) == n
  {
    if n >= 10 {
      DigitsOfRender(n / 10);
      var d := RenderNat(n);
      assert d[..|d| - 1] == RenderNat(n / 10);
    }
  }

  /** Parsing a rendered integer gives that integer back. */
  lemma ParseRender(n: int)
    ensures ParseDecimal(RenderInt(n)) == Some(n as real)
  {
    var m: nat := if n < 0 then -n else n;
    var d := RenderNat(m);
    DigitsOfRender(m);
    assert Text.FirstIndex(d, '.') == |d| by {
      assert '.' !in d;
    }
    assert d[..|d|] == d;
    assert ParseUnsigned(d) == Some(m as real);
    if n < 0 {
      assert RenderInt(n)[1..] == d;
    }
  }

  /** A value holding a `$` never parses. */
  lemma CurrencyNeverParses(s: string)
    requires '$' in s
    ensures ParseDecimal(s) == None
  {
  }

  /** A point between two digit runs, not both empty, is read as whole part and fraction. */
  lemma ParsePointed(whole: string, frac: string)
    requires AllDigits(whole)
    ensures ParseUnsigned(whole + "." + frac) == UnsignedValue(whole, frac)
  {
    var s := whole + "." + frac;
    assert '.' !in whole by {
      forall k | 0 <= k < |whole| ensures whole[k] != '.' { }
    }
    Text.FirstIndexAt(whole, '.', frac);
    assert s[..|whole|] == whole;
    assert s[|whole| + 1..] == frac;
  }

  /** One digit denotes its own value. */
  lemma OneDigit(d: string)
    requires |d| == 1 && IsDigit(d[0])
    ensures AllDigits(d) && DigitsValue(d) == (d[0] as int) - ('0' as int)
  {
    assert d[..0] == "";
  }

  /** "5.2" parses to 5.2. */
  lemma ParseFivePointTwo(s: string)
    requires s == "5.2"
    ensures ParseDecimal(s) == Some(5.2)
  {
    var whole, frac := s[..1], s[2..];
    OneDigit(whole);
    OneDigit(frac);
    assert s == whole + "." + frac;
    ParsePointed(whole, frac);
  }

  /** "-1.1" parses to -1.1. */
  lemma ParseMinusOnePointOne(s: string)
    requires s == "-1.1"
    ensures ParseDecimal(s) == Some(-1.1)
  {
    var whole, frac := s[1..2], s[3..];
    OneDigit(whole);
    OneDigit(frac);
    assert s[1..] == whole + "." + frac;
    ParsePointed(whole, frac);
  }

  /** "12" parses to 12. */
  lemma ParseTwelve(s: string)
    requires s == "12"
    ensures ParseDecimal(s) == Some(12.0)
  {
    ParseRender(12);
    assert RenderNat(12) == RenderNat(1) + ['2'];
    assert RenderInt(12) == s;
  }

  /** The three numerals of the worked summary parse as `float` reads them. */
  lemma ParseExamples()
    ensures ParseDecimal("5.2") == Some(5.2)
    ensures ParseDecimal("-1.1") == Some(-1.1)
    ensures ParseDecimal("12") == Some(12.0)
  {
    ParseFivePointTwo("5.2");
    ParseMinusOnePointOne("-1.1");
    ParseTwelve("12");
  }
}
