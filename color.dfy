/**
 * `pixelToColor`: a pixel formatted as the CSS-style string
 * `rgba(r, g, b, a)`, each channel written as the decimal integer it holds
 * (the alpha channel raw, 0..255, not scaled to 0..1).
 */
module Colors {
  import opened Pixels

  predicate IsDigit(c: char)
  {
    '0' <= c <= '9'
  }

  function DigitChar(d: nat): (c: char)
    requires d < 10
  {
    "0123456789"[d]
  }

  function DigitValue(c: char): nat
    requires IsDigit(c)
  {
    (c as int) - ('0' as int)
  }

  /** The decimal digits of n, most significant first, without leading zeros. */
  function NatToString(n: nat): string
  {
    if n < 10 then [DigitChar(n)] else NatToString(n / 10) + [DigitChar(n % 10)]
  }

  /** How JavaScript's template literal writes an integer of magnitude below 10^21. */
  function IntToString(n: int): string
  {
    if n < 0 then "-" + NatToString(-n) else NatToString(n)
  }

  /** `rgba(${pixel[0]}, ${pixel[1]}, ${pixel[2]}, ${pixel[3]})` */
  function PixelToColor(p: Pixel): (color: string)
    ensures "rgba(" <= color
  {
    "rgba(" + (IntToString(p.r) + (", " + (IntToString(p.g) + (", " + (IntToString(p.b) + (", " + (IntToString(p.a) + ")")))))))
  }

  /** The value of a string of decimal digits. */
  function ParseNat(s: string): nat
    requires forall i :: 0 <= i < |s| ==> IsDigit(s[i])
  {
    if |s| == 0 then 0 else ParseNat(s[..|s| - 1]) * 10 + DigitValue(s[|s| - 1])
  }

  /** A decimal integer as `IntToString` writes it: an optional minus sign, then digits. */
  predicate IsIntString(s: string)
  {
    |s| > 0 &&
    (IsDigit(s[0]) || (s[0] == '-' && |s| > 1)) &&
    forall i :: 1 <= i < |s| ==> IsDigit(s[i])
  }

  /** The value of a string `IntToString` could have written. */
  function ParseInt(s: string): int
    requires IsIntString(s)
  {
    if s[0] == '-' then -(ParseNat(s[1..]) as int) else ParseNat(s)
  }

  lemma {:induction false} NatToStringDigits(n: nat)
    ensures |NatToString(n)| > 0
    ensures forall i :: 0 <= i < |NatToString(n)| ==> IsDigit(NatToString(n)[i])
  {
    if n >= 10 {
      NatToStringDigits(n / 10);
    }
  }

  /** Reading back the digits gives the number. */
  lemma {:induction false} ParseNatToString(n: nat)
    ensures forall i :: 0 <= i < |NatToString(n)| ==> IsDigit(NatToString(n)[i])
    ensures ParseNat(NatToString(n)) == n
  {
    NatToStringDigits(n);
    if n >= 10 {
      ParseNatToString(n / 10);
      var s := NatToString(n);
      assert s[..|s| - 1] == NatToString(n / 10);
    }
  }

  /** `IntToString` writes a well-formed decimal integer that reads back as the number. */
  lemma ParseIntToString(n: int)
    ensures IsIntString(IntToString(n))
    ensures ParseInt(IntToString(n)) == n
  {
    var m := if n < 0 then -n else n;
    ParseNatToString(m);
    var s := IntToString(n);
    if n < 0 {
      assert s[1..] == NatToString(m);
    }
  }

  /** Distinct integers are written as distinct strings. */
  lemma IntToStringInjective(m: int, n: int)
    requires IntToString(m) == IntToString(n)
    ensures m == n
  {
    ParseIntToString(m);
    ParseIntToString(n);
  }

  /** A decimal integer followed by a non-digit cannot be a proper prefix of another decimal integer. */
  lemma IntEndsBeforeNonDigit(a1: string, t1: string, a2: string, t2: string)
    requires IsIntString(a1) && IsIntString(a2)
    requires |t1| > 0 && !IsDigit(t1[0])
    requires a1 + t1 == a2 + t2
    ensures |a2| <= |a1|
  {
    // position |a1| holds t1[0], a non-digit, while every position of a2 after the first is a digit
    assert (a1 + t1)[|a1|] == t1[0];
    assert forall i :: 1 <= i < |a2| ==> IsDigit((a1 + t1)[i]);
  }

  /**
   * A decimal integer followed by a non-digit ends at that non-digit, so two
   * such concatenations that are equal split at the same place.
   */
  lemma SplitAfterInt(a1: string, t1: string, a2: string, t2: string)
    requires IsIntString(a1) && IsIntString(a2)
    requires |t1| > 0 && !IsDigit(t1[0]) && |t2| > 0 && !IsDigit(t2[0])
    requires a1 + t1 == a2 + t2
    ensures a1 == a2 && t1 == t2
  {
    IntEndsBeforeNonDigit(a1, t1, a2, t2);
    IntEndsBeforeNonDigit(a2, t2, a1, t1);
    assert a1 == (a1 + t1)[..|a1|] == (a2 + t2)[..|a2|] == a2;
    assert t1 == (a1 + t1)[|a1|..] == (a2 + t2)[|a2|..] == t2;
  }

  /** Strips one decimal integer and the separator after it from equal strings. */
  lemma SplitField(m: int, sep: string, rest1: string, n: int, rest2: string)
    requires |sep| > 0 && !IsDigit(sep[0])
    requires IntToString(m) + (sep + rest1) == IntToString(n) + (sep + rest2)
    ensures m == n && rest1 == rest2
  {
    ParseIntToString(m);
    ParseIntToString(n);
    SplitAfterInt(IntToString(m), sep + rest1, IntToString(n), sep + rest2);
    IntToStringInjective(m, n);
    assert rest1 == (sep + rest1)[|sep|..] == (sep + rest2)[|sep|..] == rest2;
  }

  /** The colour string determines the pixel: distinct pixels get distinct strings. */
  lemma PixelToColorInjective(p: Pixel, q: Pixel)
    requires PixelToColor(p) == PixelToColor(q)
    ensures p == q
  {
    var aP, aQ := IntToString(p.a) + ")", IntToString(q.a) + ")";
    var baP, baQ := IntToString(p.b) + (", " + aP), IntToString(q.b) + (", " + aQ);
    var gbaP, gbaQ := IntToString(p.g) + (", " + baP), IntToString(q.g) + (", " + baQ);
    var rgbaP, rgbaQ := IntToString(p.r) + (", " + gbaP), IntToString(q.r) + (", " + gbaQ);
    assert rgbaP == PixelToColor(p)[5..] == PixelToColor(q)[5..] == rgbaQ;
    SplitField(p.r, ", ", gbaP, q.r, gbaQ);
    SplitField(p.g, ", ", baP, q.g, baQ);
    SplitField(p.b, ", ", aP, q.b, aQ);
    assert ")" + "" == ")";
    SplitField(p.a, ")", "", q.a, "");
  }

  /** Opaque red is written with its raw alpha: `rgba(255, 0, 0, 255)`. */
  lemma OpaqueRedColor()
    ensures PixelToColor(Pixel(255, 0, 0, 255)) == "rgba(255, 0, 0, 255)"
  {
    assert NatToString(255) == "255" by {
      assert NatToString(2) == "2";
      assert NatToString(25) == "25";
    }
    assert NatToString(0) == "0";
  }
}
