/** String helpers that stand for the Python string operations the source
    uses: `str(int)`, `'%d'`, `'{:x}'`, `float()` on integer text,
    `str.strip()`, `str.find()` and `str.replace()`. */
module Text {
  import opened Basics

  const DigitChars := "0123456789abcdef"

  predicate IsDigitIn(c: char, base: nat)
  {
    DigitValue(c) < base
  }

  /** The value of one digit character; 16 for a character that is no digit. */
  function DigitValue(c: char): (d: nat)
    ensures d <= 16
  {
    if '0' <= c <= '9' then c as int - '0' as int
    else if 'a' <= c <= 'f' then c as int - 'a' as int + 10
    else 16
  }

  /** Digits of `n` in `base`, most significant first, no leading zeros,
      lower-case letters (Python's `str(n)` for base 10, `'{:x}'` for 16). */
  function Digits(n: nat, base: nat): (s: string)
    requires 2 <= base <= 16
    ensures |s| >= 1
    ensures forall i :: 0 <= i < |s| ==> IsDigitIn(s[i], base)
    decreases n
  {
    if n < base then [DigitChar(n, base)]
    else DivDecreases(n, base); Digits(n / base, base) + [DigitChar(n % base, base)]
  }

  /** The character of digit `d`. */
  function DigitChar(d: nat, base: nat): (c: char)
    requires 2 <= base <= 16 && d < base
    ensures DigitValue(c) == d && IsDigitIn(c, base)
  {
    DigitValueOf(d, base);
    DigitChars[d]
  }

  lemma DivDecreases(n: nat, b: nat)
    requires 2 <= b <= n
    ensures n / b < n && n % b < b
  {
  }

  /** The number a digit string denotes (inverse of `Digits`); meaningful
      when every character is a digit in `base`. */
  function DigitsValue(s: string, base: nat): nat
  {
    if s == [] then 0
    else DigitsValue(s[..|s| - 1], base) * base + DigitValue(s[|s| - 1])
  }

  lemma DigitValueOf(d: nat, base: nat)
    requires 2 <= base <= 16 && d < base
    ensures DigitValue(DigitChars[d]) == d
  {
    if d < 10 {
      assert DigitChars[d] as int == '0' as int + d;
    } else {
      assert DigitChars[d] as int == 'a' as int + d - 10;
    }
  }

  /** Reading back the digits of `n` gives `n`. */
  lemma {:induction false} DigitsRoundTrip(n: nat, base: nat)
    requires 2 <= base <= 16
    ensures DigitsValue(Digits(n, base), base) == n
    decreases n
  {
    if n < base {
      DigitsSingle(n, base);
    } else {
      var q := n / base;
      DigitsRoundTrip(q, base);
      DigitsStep(n, base);
      DivMod(n, base);
      MulCongruence(DigitsValue(Digits(q, base), base), q, base);
    }
  }

  lemma DigitsSingle(n: nat, base: nat)
    requires 2 <= base <= 16 && n < base
    ensures DigitsValue(Digits(n, base), base) == n
  {
    var s := Digits(n, base);
    assert s[..0] == [];
    assert DigitsValue(s, base) == 0 * base + n;
  }

  lemma MulCongruence(a: int, b: int, c: int)
    requires a == b
    ensures a * c == b * c
  {
  }

  /** The digits of `n` are those of `n / base` followed by the digit of
      `n % base`. */
  lemma DigitsStep(n: nat, base: nat)
    requires 2 <= base <= 16 && n >= base
    ensures DigitsValue(Digits(n, base), base)
         == DigitsValue(Digits(n / base, base), base) * base + n % base
  {
    var s := Digits(n, base);
    assert s[..|s| - 1] == Digits(n / base, base);
  }

  lemma DivMod(n: nat, b: nat)
    requires b > 0
    ensures n == (n / b) * b + n % b
  {
  }

  /** `n` has at most `k` digits in `base` when it is below `base^k`. */
  function Pow(base: nat, k: nat): nat
  {
    if k == 0 then 1 else base * Pow(base, k - 1)
  }

  lemma {:induction false} DigitsLength(n: nat, base: nat, k: nat)
    requires 2 <= base <= 16 && 1 <= k && n < Pow(base, k)
    ensures |Digits(n, base)| <= k
    decreases k
  {
    if n >= base {
      assert k > 1;
      assert n / base < Pow(base, k - 1);
      DigitsLength(n / base, base, k - 1);
    }
  }

  /** Python's `'%d' % n` and `str(n)` for an integer. */
  function Decimal(n: int): (s: string)
    ensures |s| >= 1
    ensures n >= 0 <==> s[0] != '-'
  {
    if n < 0 then "-" + Digits(-n, 10) else Digits(n, 10)
  }

  /** `'{:0Wx}'`: lower-case hex, left-padded with '0' to at least `width`. */
  function HexPadded(n: nat, width: nat): (s: string)
    ensures |s| >= width
    ensures forall i :: 0 <= i < |s| ==> IsDigitIn(s[i], 16)
  {
    var h := Digits(n, 16);
    if |h| >= width then h else Zeros(width - |h|) + h
  }

  function Zeros(k: nat): (z: string)
    ensures |z| == k && forall i :: 0 <= i < k ==> z[i] == '0'
  {
    if k == 0 then [] else Zeros(k - 1) + ['0']
  }

  lemma {:induction false} LeadingZerosValue(k: nat, s: string, base: nat)
    requires 2 <= base <= 16
    ensures DigitsValue(Zeros(k) + s, base) == DigitsValue(s, base)
    decreases |s|
  {
    var z := Zeros(k) + s;
    if s == [] {
      assert z == Zeros(k);
      ZerosValue(k, base);
    } else {
      LeadingZerosValue(k, s[..|s| - 1], base);
      assert z[..|z| - 1] == Zeros(k) + s[..|s| - 1];
    }
  }

  lemma {:induction false} ZerosValue(k: nat, base: nat)
    requires 2 <= base <= 16
    ensures DigitsValue(Zeros(k), base) == 0
    decreases k
  {
    if k > 0 {
      ZerosValue(k - 1, base);
      var z := Zeros(k);
      assert z[..k - 1] == Zeros(k - 1);
      assert DigitValue(z[k - 1]) == 0;
      assert DigitsValue(z, base) == DigitsValue(Zeros(k - 1), base) * base + 0;
    }
  }

  /** A colour below 0x1000000 is written as exactly six hex digits that read
      back as the colour. */
  lemma HexColour(n: nat)
    requires n < 0x100_0000
    ensures |HexPadded(n, 6)| == 6
    ensures DigitsValue(HexPadded(n, 6), 16) == n
  {
    assert Pow(16, 6) == 0x100_0000;
    DigitsLength(n, 16, 6);
    DigitsRoundTrip(n, 16);
    var h := Digits(n, 16);
    if |h| < 6 {
      LeadingZerosValue(6 - |h|, h, 16);
    }
  }

  /** Characters Python's `str.strip()` and `float()` remove: those for
      which `str.isspace()` holds. */
  predicate IsSpace(c: char)
  {
    // '\t' '\n' '\v' '\f' '\r', the four separators 0x1c..0x1f, ' ', NEL, NBSP
    || 9 <= c as int <= 13 || 28 <= c as int <= 32 || c == '\U{0085}' || c == '\U{00a0}'
    // OGHAM SPACE MARK, the spaces U+2000..U+200A, LINE and PARAGRAPH
    // SEPARATOR, NARROW NBSP, MEDIUM MATHEMATICAL SPACE, IDEOGRAPHIC SPACE
    || c == '\U{1680}' || 0x2000 <= c as int <= 0x200a || c == '\U{2028}' || c == '\U{2029}'
    || c == '\U{202f}' || c == '\U{205f}' || c == '\U{3000}'
  }

  function StripLeft(s: string): (r: string)
    ensures r == [] || !IsSpace(r[0])
  {
    if s != [] && IsSpace(s[0]) then StripLeft(s[1..]) else s
  }

  function StripRight(s: string): (r: string)
    ensures |r| <= |s| && r == s[..|r|]
    ensures r == [] || !IsSpace(r[|r| - 1])
  {
    if s != [] && IsSpace(s[|s| - 1]) then StripRight(s[..|s| - 1]) else s
  }

  /** Python's `str.strip()`. */
  function Strip(s: string): (r: string)
    ensures r == [] || (!IsSpace(r[0]) && !IsSpace(r[|r| - 1]))
  {
    StripRight(StripLeft(s))
  }

  /** The stripped text is the slice of `s` left when the whitespace at
      both ends is cut off. */
  lemma StripSlice(s: string)
    ensures exists a, b ::
      && 0 <= a <= b <= |s| && Strip(s) == s[a..b]
      && (forall i :: 0 <= i < |s| && (i < a || b <= i) ==> IsSpace(s[i]))
  {
    var l := StripLeft(s);
    var r := StripRight(l);
    StripLeftCut(s);
    StripRightCut(l);
    var a := |s| - |l|;
    assert r == s[a..a + |r|];
    assert forall i :: a + |r| <= i < |s| ==> s[i] == l[i - a];
  }

  /** `StripLeft` cuts off a prefix made only of whitespace. */
  lemma {:induction false} StripLeftCut(s: string)
    ensures |StripLeft(s)| <= |s| && StripLeft(s) == s[|s| - |StripLeft(s)|..]
    ensures forall i :: 0 <= i < |s| - |StripLeft(s)| ==> IsSpace(s[i])
  {
    if s != [] && IsSpace(s[0]) {
      StripLeftCut(s[1..]);
    }
  }

  /** `StripRight` cuts off a suffix made only of whitespace. */
  lemma {:induction false} StripRightCut(s: string)
    ensures forall i :: |StripRight(s)| <= i < |s| ==> IsSpace(s[i])
  {
    if s != [] && IsSpace(s[|s| - 1]) {
      StripRightCut(s[..|s| - 1]);
    }
  }

  lemma StripNoSpace(s: string)
    requires forall i :: 0 <= i < |s| ==> !IsSpace(s[i])
    ensures Strip(s) == s
  {
    assert StripLeft(s) == s;
  }

  /** `pat` occurs in `s` at index `j`. */
  predicate OccursAt(s: string, pat: string, j: int)
  {
    0 <= j <= |s| - |pat| && s[j..j + |pat|] == pat
  }

  /** Python's `str.find(pat)`: the first index where `pat` occurs, or -1. */
  function Find(s: string, pat: string): (r: int)
    ensures r == -1 || OccursAt(s, pat, r)
    ensures forall j :: 0 <= j && (r == -1 || j < r) ==> !OccursAt(s, pat, j)
  {
    FindFrom(s, pat, 0)
  }

  function FindFrom(s: string, pat: string, k: nat): (r: int)
    ensures r == -1 || (k <= r && OccursAt(s, pat, r))
    ensures forall j :: k <= j && (r == -1 || j < r) ==> !OccursAt(s, pat, j)
    decreases |s| - k
  {
    if k > |s| - |pat| then -1
    else if s[k..k + |pat|] == pat then k
    else FindFrom(s, pat, k + 1)
  }

  /** Python's `s.replace(c, r)` for a one-character pattern. */
  function ReplaceChar(s: string, c: char, r: string): (t: string)
    ensures c !in r ==> c !in t
    ensures c !in s ==> t == s
  {
    if s == [] then []
    else (if s[0] == c then r else [s[0]]) + ReplaceChar(s[1..], c, r)
  }

  /** Python's `float(text)` restricted to integer text: optional surrounding
      whitespace, an optional sign, one or more decimal digits. */
  function ParseInt(text: string): Option<int>
  {
    var t := Strip(text);
    if t != [] && (t[0] == '-' || t[0] == '+') then
      var d := t[1..];
      if d != [] && AllDigits(d)
      then
        var v: int := DigitsValue(d, 10);
        Some(if t[0] == '-' then -v else v)
      else None
    else if t != [] && AllDigits(t)
    then Some(DigitsValue(t, 10))
    else None
  }

  predicate AllDigits(d: string)
  {
    forall i :: 0 <= i < |d| ==> IsDigitIn(d[i], 10)
  }

  lemma DigitNotSpace(c: char)
    requires IsDigitIn(c, 10)
    ensures !IsSpace(c)
  {
  }

  lemma ParseDigits(s: string)
    requires s != [] && AllDigits(s)
    ensures ParseInt(s) == Some(DigitsValue(s, 10))
  {
    forall i | 0 <= i < |s| ensures !IsSpace(s[i]) {
      assert IsDigitIn(s[i], 10);
    }
    StripNoSpace(s);
    assert IsDigitIn(s[0], 10);
  }

  lemma ParseNegative(d: string)
    requires d != [] && AllDigits(d)
    ensures ParseInt("-" + d) == Some(-(DigitsValue(d, 10) as int))
  {
    var s := "-" + d;
    forall i | 0 <= i < |s| ensures !IsSpace(s[i]) {
      if i > 0 {
        assert s[i] == d[i - 1];
        DigitNotSpace(d[i - 1]);
      }
    }
    StripNoSpace(s);
    var t := Strip(s);
    assert t == s && t[0] == '-' && t[1..] == d;
  }

  /** `float(str(n))` gives back `n`. */
  lemma ParseDecimal(n: int)
    ensures ParseInt(Decimal(n)) == Some(n)
  {
    if n < 0 {
      DigitsRoundTrip(-n, 10);
      ParseNegative(Digits(-n, 10));
    } else {
      DigitsRoundTrip(n, 10);
      ParseDigits(Digits(n, 10));
    }
  }
}
