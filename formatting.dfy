/** Python's decimal formatting of integers as the pipeline uses it:
    `str(n)` (harvard_oxford_2mm_processor.py:212, extract_slices_full.py:198),
    `f"{n:+03d}"` (extract_slices_full.py:176) and `f"{n:02d}"`
    (region_mask_generator.py:202). A format spec `[+]0<width>d` prints a
    sign ('-' for negatives, '+' for the others when '+' is given), then the
    decimal magnitude, zero-padded between sign and digits so that the
    whole text is at least `width` characters long. */
module Formatting {
  import opened Wrappers

  predicate IsDigit(c: char)
  {
    '0' <= c <= '9'
  }

  predicate AllDigits(s: string)
  {
    forall i | 0 <= i < |s| :: IsDigit(s[i])
  }

  function DigitChar(d: nat): (c: char)
    requires d < 10
    ensures IsDigit(c)
  {
    (48 + d) as char
  }

  function DigitValue(c: char): (d: nat)
    requires IsDigit(c)
    ensures d < 10 && DigitChar(d) == c
  {
    c as int - 48
  }

  /** The decimal digits of `n`, most significant first, without leading zeros. */
  function Digits(n: nat): (s: string)
    ensures |s| >= 1 && AllDigits(s)
    ensures n < 10 <==> |s| == 1
  {
    if n < 10 then [DigitChar(n)] else Digits(n / 10) + [DigitChar(n % 10)]
  }

  /** `k` zero characters. */
  function ZeroRun(k: nat): (s: string)
    ensures |s| == k && AllDigits(s)
  {
    seq(k, _ => '0')
  }

  /** The sign Python prints: '-' for negatives, '+' for the others when asked. */
  function Sign(n: int, plus: bool): string
  {
    if n < 0 then "-" else if plus then "+" else ""
  }

  function Magnitude(n: int): nat
  {
    if n < 0 then -n else n
  }

  /** How many zeros fill the text up to `width`. */
  function PadLength(n: int, width: nat, plus: bool): nat
  {
    var pad := width - |Sign(n, plus)| - |Digits(Magnitude(n))|;
    if pad > 0 then pad else 0
  }

  /** Python's `format(n, "[+]0<width>d")`; `plus` says whether '+' is given. */
  function FormatInt(n: int, width: nat, plus: bool): string
  {
    Sign(n, plus) + ZeroRun(PadLength(n, width, plus)) + Digits(Magnitude(n))
  }

  /** Python's `str(n)` for an integer. */
  function Str(n: int): string
  {
    FormatInt(n, 0, false)
  }

  /** `f"{n:+03d}"`: sign always printed, magnitude zero-padded to a total width of 3. */
  function SignedPadded3(n: int): string
  {
    FormatInt(n, 3, true)
  }

  /** `f"{n:02d}"`: zero-padded to a total width of 2, sign only for negatives. */
  function Padded2(n: int): string
  {
    FormatInt(n, 2, false)
  }

  /** Value of a string of decimal digits (leading zeros allowed). */
  function DecimalValue(s: string): nat
    requires AllDigits(s)
  {
    if s == [] then 0 else DecimalValue(s[..|s| - 1]) * 10 + DigitValue(s[|s| - 1])
  }

  /** Reads back an optionally signed decimal integer, the inverse of `FormatInt`. */
  function ParseInt(s: string): Option<int>
  {
    if |s| >= 2 && (s[0] == '-' || s[0] == '+') && AllDigits(s[1..]) then
      var v: int := DecimalValue(s[1..]);
      Some(if s[0] == '-' then -v else v)
    else if |s| >= 1 && AllDigits(s) then
      Some(DecimalValue(s))
    else
      None
  }

  lemma {:induction false} DigitsValue(n: nat)
    ensures DecimalValue(Digits(n)) == n
  {
    if n >= 10 {
      var s := Digits(n);
      assert s[..|s| - 1] == Digits(n / 10);
      DigitsValue(n / 10);
    }
  }

  lemma {:induction false} ZeroRunValue(k: nat)
    ensures DecimalValue(ZeroRun(k)) == 0
  {
    if k > 0 {
      assert ZeroRun(k)[..k - 1] == ZeroRun(k - 1);
      ZeroRunValue(k - 1);
    }
  }

  /** Leading zeros do not change a decimal value. */
  lemma {:induction false} LeadingZerosValue(k: nat, s: string)
    requires AllDigits(s)
    ensures AllDigits(ZeroRun(k) + s)
    ensures DecimalValue(ZeroRun(k) + s) == DecimalValue(s)
  {
    var t := ZeroRun(k) + s;
    if s == [] {
      assert t == ZeroRun(k);
      ZeroRunValue(k);
    } else {
      assert t[..|t| - 1] == ZeroRun(k) + s[..|s| - 1];
      LeadingZerosValue(k, s[..|s| - 1]);
    }
  }

  /** A sign followed by a digit string reads back as the signed value. */
  lemma ParseSignedDigits(sign: string, body: string)
    requires sign == "-" || sign == "+" || sign == ""
    requires |body| >= 1 && AllDigits(body)
    ensures ParseInt(sign + body) == Some(if sign == "-" then 0 - DecimalValue(body) else DecimalValue(body))
  {
    var s := sign + body;
    if sign != "" {
      assert s[0] == sign[0];
      assert s[1..] == body;
    } else {
      assert s == body;
    }
  }

  /** Formatting then parsing gives back the integer, for every width and sign flag. */
  lemma FormatIntRoundTrip(n: int, width: nat, plus: bool)
    ensures ParseInt(FormatInt(n, width, plus)) == Some(n)
  {
    var body := PaddedDigits(n, width, plus);
    PaddedDigitsValue(n, width, plus);
    ParseSignedDigits(Sign(n, plus), body);
  }

  /** The unsigned part of a formatted integer. */
  function PaddedDigits(n: int, width: nat, plus: bool): string
  {
    ZeroRun(PadLength(n, width, plus)) + Digits(Magnitude(n))
  }

  lemma PaddedDigitsValue(n: int, width: nat, plus: bool)
    ensures FormatInt(n, width, plus) == Sign(n, plus) + PaddedDigits(n, width, plus)
    ensures |PaddedDigits(n, width, plus)| >= 1 && AllDigits(PaddedDigits(n, width, plus))
    ensures DecimalValue(PaddedDigits(n, width, plus)) == Magnitude(n)
  {
    LeadingZerosValue(PadLength(n, width, plus), Digits(Magnitude(n)));
    DigitsValue(Magnitude(n));
  }

  /** Different integers always format differently under the same spec. */
  lemma FormatIntInjective(a: int, b: int, width: nat, plus: bool)
    requires FormatInt(a, width, plus) == FormatInt(b, width, plus)
    ensures a == b
  {
    FormatIntRoundTrip(a, width, plus);
    FormatIntRoundTrip(b, width, plus);
  }

  /** Shape of a formatted integer: at least `width` long; a leading sign
      exactly when the value is negative or '+' is requested, '-' exactly
      for negatives; every other character a digit. */
  lemma FormatIntShape(n: int, width: nat, plus: bool)
    ensures var s := FormatInt(n, width, plus);
      && |s| >= width && |s| >= 1
      && ((n < 0 || plus) <==> (s[0] == '-' || s[0] == '+'))
      && (s[0] == '-' <==> n < 0)
      && AllDigits(s[1..])
      && (forall i | 0 <= i < |s| :: IsDigit(s[i]) || s[i] == '-' || s[i] == '+')
  {
    var sign := Sign(n, plus);
    var body := ZeroRun(PadLength(n, width, plus)) + Digits(Magnitude(n));
    var s := FormatInt(n, width, plus);
    assert s == sign + body;
    assert AllDigits(body);
    if sign == "" {
      assert s[0] == body[0];
      assert s[1..] == body[1..];
    } else {
      assert s[1..] == body;
    }
  }

  /** Formatted integers contain neither of the separators the pipeline puts
      between them. */
  lemma FormatIntHasNoSeparator(n: int, width: nat, plus: bool)
    ensures ',' !in FormatInt(n, width, plus) && '/' !in FormatInt(n, width, plus)
  {
    FormatIntShape(n, width, plus);
  }

  /** The `+03d` examples: zero gets a '+', small magnitudes are padded to two
      digits, wider magnitudes are not cut. */
  lemma SignedPadded3Examples()
    ensures SignedPadded3(0) == "+00"
    ensures SignedPadded3(-5) == "-05"
    ensures SignedPadded3(30) == "+30"
    ensures SignedPadded3(-126) == "-126"
    ensures SignedPadded3(108) == "+108"
  {
    assert Digits(126) == Digits(12) + ['6'];
    assert Digits(108) == Digits(10) + ['8'];
  }

  /** In `a + [sep] + b` with `sep` not in `a`, the first separator is at `|a|`. */
  lemma SeparatorPosition(a: string, b: string, sep: char)
    requires sep !in a
    ensures var s := a + [sep] + b; s[|a|] == sep && forall i | 0 <= i < |a| :: s[i] != sep
  {
    var s := a + [sep] + b;
    forall i | 0 <= i < |a| ensures s[i] != sep {
      assert s[i] == a[i];
    }
  }

  /** Two strings that each start with a separator-free part split the same
      way at their first separator. */
  lemma SplitAtSeparator(a1: string, b1: string, a2: string, b2: string, sep: char)
    requires sep !in a1 && sep !in a2
    requires a1 + [sep] + b1 == a2 + [sep] + b2
    ensures a1 == a2 && b1 == b2
  {
    var s1, s2 := a1 + [sep] + b1, a2 + [sep] + b2;
    SeparatorPosition(a1, b1, sep);
    SeparatorPosition(a2, b2, sep);
    assert |a1| == |a2|;
    assert a1 == s1[..|a1|] && a2 == s2[..|a2|];
    assert b1 == s1[|a1| + 1..] && b2 == s2[|a2| + 1..];
  }

  /** A common prefix and suffix can be cancelled. */
  lemma CancelAround(p: string, x: string, y: string, q: string)
    requires p + x + q == p + y + q
    ensures x == y
  {
    var s1, s2 := p + x + q, p + y + q;
    assert |x| == |y|;
    assert x == s1[|p|..|p| + |x|];
    assert y == s2[|p|..|p| + |y|];
  }

  /** The first two fields free of the separator, three fields joined by a separator split back uniquely. */
  lemma SplitThree(a1: string, b1: string, c1: string, a2: string, b2: string, c2: string, sep: char)
    requires sep !in a1 && sep !in b1 && sep !in a2 && sep !in b2
    requires a1 + [sep] + (b1 + [sep] + c1) == a2 + [sep] + (b2 + [sep] + c2)
    ensures a1 == a2 && b1 == b2 && c1 == c2
  {
    SplitAtSeparator(a1, b1 + [sep] + c1, a2, b2 + [sep] + c2, sep);
    SplitAtSeparator(b1, c1, b2, c2, sep);
  }

  /** `c.upper()` for ASCII letters; every other character is kept. */
  function UpperChar(c: char): char
  {
    if 'a' <= c <= 'z' then (c as int - 32) as char else c
  }

  /** `c.lower()` for ASCII letters; every other character is kept. */
  function LowerChar(c: char): char
  {
    if 'A' <= c <= 'Z' then (c as int + 32) as char else c
  }

  /** `s.capitalize()` on ASCII text: the first character upper case, the rest lower case. */
  function Capitalize(s: string): (r: string)
    ensures |r| == |s|
    ensures |s| > 0 ==> r[0] == UpperChar(s[0])
    ensures forall i | 0 < i < |s| :: r[i] == LowerChar(s[i])
  {
    if s == [] then [] else [UpperChar(s[0])] + seq(|s| - 1, i requires 0 <= i < |s| - 1 => LowerChar(s[i + 1]))
  }
}
