/**
 * Building blocks for the hand-written matchers that stand in for the
 * fixed regular expressions of the NOTAM parsers: character classes,
 * greedy runs, literal tests, decimal digit strings and `re.search`'s
 * leftmost scan.
 */
module Scan {
  import opened Wrappers

  // ---------------------------------------------------------------------
  // Character classes
  // ---------------------------------------------------------------------

  /** `[0-9]`, and `\d` restricted to ASCII. */
  predicate IsDigit(c: char) { '0' <= c <= '9' }

  /** `[A-Z]`. */
  predicate IsUpper(c: char) { 'A' <= c <= 'Z' }

  /** `\w` restricted to ASCII: letters, digits and underscore. */
  predicate IsWordChar(c: char) { IsDigit(c) || IsUpper(c) || ('a' <= c <= 'z') || c == '_' }

  /** `\s` of a `str` pattern, which is exactly the set of `str.isspace()` characters. */
  predicate IsSpace(c: char)
  {
    || c == ' '
    || ('\t' <= c <= '\r')
    || ('\U{1C}' <= c <= '\U{1F}')
    || c == '\U{85}' || c == '\U{A0}' || c == '\U{1680}'
    || ('\U{2000}' <= c <= '\U{200A}')
    || c == '\U{2028}' || c == '\U{2029}' || c == '\U{202F}' || c == '\U{205F}' || c == '\U{3000}'
  }

  /**
   * The whitespace `int()` skips around a numeral: ASCII space and `\t`..`\r`,
   * and every non-ASCII `str.isspace()` character. The ASCII separators
   * U+001C..U+001F are `str.isspace()` characters that `int()` does not skip.
   */
  predicate IsIntSpace(c: char)
  {
    IsSpace(c) && !('\U{1C}' <= c <= '\U{1F}')
  }

  /** The character classes the NOTAM patterns are built from. */
  datatype Class =
    | Digit         // [0-9]
    | Upper         // [A-Z]
    | UpperOrDigit  // [A-Z0-9]
    | Space         // \s
    | IntSpace      // what int() skips around a numeral
    | Word          // \w
    | Traffic       // [IV]
    | Purpose       // [NBOM]
    | Scope         // [AEW]

  predicate In(c: char, k: Class)
  {
    match k
    case Digit => IsDigit(c)
    case Upper => IsUpper(c)
    case UpperOrDigit => IsUpper(c) || IsDigit(c)
    case Space => IsSpace(c)
    case IntSpace => IsIntSpace(c)
    case Word => IsWordChar(c)
    case Traffic => c == 'I' || c == 'V'
    case Purpose => c == 'N' || c == 'B' || c == 'O' || c == 'M'
    case Scope => c == 'A' || c == 'E' || c == 'W'
  }

  /** Every character of `w` is in class `k`. */
  predicate AllIn(w: string, k: Class) { forall i :: 0 <= i < |w| ==> In(w[i], k) }

  predicate AllDigits(d: string) { forall i :: 0 <= i < |d| ==> IsDigit(d[i]) }

  // ---------------------------------------------------------------------
  // Positional tests
  // ---------------------------------------------------------------------

  /** The character at `p` exists and is `c`. */
  predicate At(s: string, p: int, c: char) { 0 <= p < |s| && s[p] == c }

  /** The literal `lit` occurs at `p`. */
  predicate LitAt(s: string, p: int, lit: string) { 0 <= p && p + |lit| <= |s| && s[p..p + |lit|] == lit }

  /** The `n` characters from `p` exist and are all in class `k`. */
  predicate AllAt(s: string, p: int, n: nat, k: Class)
  {
    0 <= p && p + n <= |s| && forall i :: p <= i < p + n ==> In(s[i], k)
  }

  /** End of the longest run of class-`k` characters starting at `p`: a greedy `[...]*`. */
  function SpanWhile(s: string, p: nat, k: Class): (e: nat)
    requires p <= |s|
    ensures p <= e <= |s|
    ensures forall i :: p <= i < e ==> In(s[i], k)
    ensures e == |s| || !In(s[e], k)
    decreases |s| - p
  {
    if p < |s| && In(s[p], k) then SpanWhile(s, p + 1, k) else p
  }

  /** The digits checked in place are a digit string once cut out. */
  lemma DigitsSlice(s: string, p: nat, n: nat)
    requires AllAt(s, p, n, Digit)
    ensures AllDigits(s[p..p + n])
  {
    var t := s[p..p + n];
    forall i | 0 <= i < |t| ensures IsDigit(t[i]) {
      assert t[i] == s[p + i];
    }
  }

  /** A run that ends where class `k` stops is the one SpanWhile finds. */
  lemma {:induction false} SpanWhileExact(s: string, p: nat, e: nat, k: Class)
    requires p <= e <= |s|
    requires forall i :: p <= i < e ==> In(s[i], k)
    requires e == |s| || !In(s[e], k)
    ensures SpanWhile(s, p, k) == e
    decreases e - p
  {
    if p < e {
      SpanWhileExact(s, p + 1, e, k);
    }
  }

  /** A single space followed by a letter is a whole `\s+` run. */
  lemma OneSpace(s: string, u: nat)
    requires u + 1 < |s| && s[u] == ' ' && IsUpper(s[u + 1])
    ensures SpanWhile(s, u, Space) == u + 1
  {
    SpanWhileExact(s, u, u + 1, Space);
  }

  /** A word of class `k` written after any prefix, and not run on, is one whole run. */
  lemma SpanOver(pre: string, w: string, t: string, k: Class)
    requires AllIn(w, k) && (t == [] || !In(t[0], k))
    ensures SpanWhile(pre + w + t, |pre|, k) == |pre| + |w|
    ensures (pre + w + t)[|pre|..|pre| + |w|] == w
  {
    var s := pre + w + t;
    forall i | |pre| <= i < |pre| + |w| ensures In(s[i], k) {
      assert s[i] == w[i - |pre|];
    }
    assert |pre| + |w| == |s| || s[|pre| + |w|] == t[0];
    SpanWhileExact(s, |pre|, |pre| + |w|, k);
    assert s[|pre|..|pre| + |w|] == w;
  }

  // ---------------------------------------------------------------------
  // re.search: try every start position from left to right
  // ---------------------------------------------------------------------

  /**
   * The first position `q >= p` (up to and including `|s|`, as Python
   * tries the empty suffix too) at which the anchored matcher `m`
   * succeeds, together with what it captured.
   */
  function Leftmost<T(==)>(s: string, p: nat, m: (string, nat) -> Option<T>): (r: Option<(nat, T)>)
    ensures r.None? <==> forall q :: p <= q <= |s| ==> m(s, q).None?
    ensures r.Some? ==> p <= r.value.0 <= |s| && m(s, r.value.0) == Some(r.value.1)
    ensures r.Some? ==> forall q :: p <= q < r.value.0 ==> m(s, q).None?
    decreases |s| + 1 - p
  {
    if p > |s| then None
    else match m(s, p)
      case Some(v) => Some((p, v))
      case None => Leftmost(s, p + 1, m)
  }

  /** Positions where the matcher fails can be skipped. */
  lemma {:induction false} LeftmostSkip<T>(s: string, p: nat, q: nat, m: (string, nat) -> Option<T>)
    requires p <= q && forall j :: p <= j < q ==> m(s, j).None?
    ensures Leftmost(s, p, m) == Leftmost(s, q, m)
    decreases q - p
  {
    if p < q && p <= |s| {
      LeftmostSkip(s, p + 1, q, m);
    }
  }

  /** A match at the first position tried is the leftmost one. */
  lemma LeftmostHit<T>(s: string, p: nat, m: (string, nat) -> Option<T>)
    requires p <= |s| && m(s, p).Some?
    ensures Leftmost(s, p, m) == Some((p, m(s, p).value))
  {
  }

  // ---------------------------------------------------------------------
  // Decimal digit strings
  // ---------------------------------------------------------------------

  function Pow10(n: nat): (r: nat)
    ensures r >= 1
  {
    if n == 0 then 1 else 10 * Pow10(n - 1)
  }

  function DigitVal(c: char): (v: nat)
    requires IsDigit(c)
    ensures v < 10
  {
    c as int - '0' as int
  }

  function DigitChar(k: nat): (c: char)
    requires k < 10
    ensures IsDigit(c) && DigitVal(c) == k
  {
    ('0' as int + k) as char
  }

  /** Python's `int()` of an ASCII digit string. */
  function DigitsValue(d: string): (v: nat)
    requires AllDigits(d)
    ensures v < Pow10(|d|)
  {
    if d == [] then 0 else 10 * DigitsValue(d[..|d| - 1]) + DigitVal(d[|d| - 1])
  }

  /** Shortest decimal rendering of `n` (Python's `str(n)`). */
  function Decimal(n: nat): (d: string)
    ensures |d| >= 1 && AllDigits(d)
  {
    if n < 10 then [DigitChar(n)] else Decimal(n / 10) + [DigitChar(n % 10)]
  }

  function Zeros(k: nat): (z: string)
    ensures |z| == k && AllDigits(z)
  {
    if k == 0 then [] else Zeros(k - 1) + ['0']
  }

  /** `format(n, "0<w>d")`: `n` in decimal, left-padded with zeros to width `w`. */
  function Pad(n: nat, w: nat): (d: string)
    ensures AllDigits(d)
  {
    var dec := Decimal(n);
    if |dec| < w then Zeros(w - |dec|) + dec else dec
  }

  /** Appending a digit multiplies the value by ten and adds it. */
  lemma DigitsValueSnoc(d: string, c: char)
    requires AllDigits(d) && IsDigit(c)
    ensures AllDigits(d + [c]) && DigitsValue(d + [c]) == 10 * DigitsValue(d) + DigitVal(c)
  {
    assert (d + [c])[..|d + [c]| - 1] == d;
  }

  /** The value of the two digits at `i`. */
  lemma TwoDigitsAt(s: string, i: nat)
    requires i + 2 <= |s| && IsDigit(s[i]) && IsDigit(s[i + 1])
    ensures AllDigits(s[i..i + 2]) && DigitsValue(s[i..i + 2]) == 10 * DigitVal(s[i]) + DigitVal(s[i + 1])
  {
    var t := s[i..i + 2];
    assert t[..1] == [s[i]] && t[1] == s[i + 1];
    assert [s[i]][..0] == [];
  }

  /** The value of the three digits at `i`. */
  lemma ThreeDigitsAt(s: string, i: nat)
    requires i + 3 <= |s| && IsDigit(s[i]) && IsDigit(s[i + 1]) && IsDigit(s[i + 2])
    ensures AllDigits(s[i..i + 3])
    ensures DigitsValue(s[i..i + 3]) == 100 * DigitVal(s[i]) + 10 * DigitVal(s[i + 1]) + DigitVal(s[i + 2])
  {
    TwoDigitsAt(s, i);
    var t := s[i..i + 3];
    assert t[..2] == s[i..i + 2] && t[2] == s[i + 2];
  }

  lemma MulTen(x: int, p: int)
    ensures x * (10 * p) == 10 * (x * p)
  {
  }

  /** The value of two digit strings laid side by side. */
  lemma {:induction false} DigitsValueConcat(a: string, b: string)
    requires AllDigits(a) && AllDigits(b)
    ensures AllDigits(a + b) && DigitsValue(a + b) == DigitsValue(a) * Pow10(|b|) + DigitsValue(b)
    decreases |b|
  {
    if b == [] {
      assert a + b == a;
    } else {
      var init, c := b[..|b| - 1], b[|b| - 1];
      DigitsValueConcat(a, init);
      assert a + b == (a + init) + [c];
      assert b == init + [c];
      DigitsValueSnoc(a + init, c);
      DigitsValueSnoc(init, c);
      assert Pow10(|b|) == 10 * Pow10(|init|);
      MulTen(DigitsValue(a), Pow10(|init|));
    }
  }

  /** Leading zeros do not change the value of a digit string. */
  lemma {:induction false} ZerosPrefixValue(k: nat, d: string)
    requires AllDigits(d)
    ensures AllDigits(Zeros(k) + d) && DigitsValue(Zeros(k) + d) == DigitsValue(d)
    decreases |d|
  {
    if d == [] {
      assert Zeros(k) + d == Zeros(k);
      ZerosValue(k);
    } else {
      var d', c := d[..|d| - 1], d[|d| - 1];
      assert d == d' + [c];
      assert Zeros(k) + d == (Zeros(k) + d') + [c];
      ZerosPrefixValue(k, d');
      DigitsValueSnoc(Zeros(k) + d', c);
      DigitsValueSnoc(d', c);
    }
  }

  /** Reading back a decimal rendering gives the number. */
  lemma {:induction false} DecimalValue(n: nat)
    ensures DigitsValue(Decimal(n)) == n
  {
    if n >= 10 {
      DecimalValue(n / 10);
      DigitsValueSnoc(Decimal(n / 10), DigitChar(n % 10));
    }
  }

  /** A number below `10^w` needs at most `w` digits. */
  lemma {:induction false} DecimalLength(n: nat, w: nat)
    requires w >= 1 && n < Pow10(w)
    ensures |Decimal(n)| <= w
  {
    if n >= 10 {
      assert w >= 2;
      DecimalLength(n / 10, w - 1);
    }
  }

  lemma {:induction false} ZerosValue(k: nat)
    ensures DigitsValue(Zeros(k)) == 0
  {
    if k > 0 {
      ZerosValue(k - 1);
      DigitsValueSnoc(Zeros(k - 1), '0');
    }
  }

  /** Zero padding to a wide enough width keeps the value and fixes the length. */
  lemma PadValue(n: nat, w: nat)
    requires w >= 1 && n < Pow10(w)
    ensures |Pad(n, w)| == w && DigitsValue(Pad(n, w)) == n
  {
    var dec := Decimal(n);
    assert |dec| <= w by { DecimalLength(n, w); }
    assert DigitsValue(dec) == n by { DecimalValue(n); }
    if |dec| < w {
      ZerosPrefixValue(w - |dec|, dec);
    }
  }

  /** Digit strings of equal length and equal value are the same string. */
  lemma {:induction false} DigitsInjective(a: string, b: string)
    requires AllDigits(a) && AllDigits(b) && |a| == |b|
    requires DigitsValue(a) == DigitsValue(b)
    ensures a == b
    decreases |a|
  {
    if a != [] {
      var a', b' := a[..|a| - 1], b[..|b| - 1];
      var x, y := DigitVal(a[|a| - 1]), DigitVal(b[|b| - 1]);
      LastDigit(DigitsValue(a'), x, DigitsValue(b'), y);
      DigitsInjective(a', b');
      assert a == a' + [a[|a| - 1]] && b == b' + [b[|b| - 1]];
    }
  }

  /** A number's last decimal digit and the rest are determined by the number. */
  lemma LastDigit(u: nat, x: nat, v: nat, y: nat)
    requires x < 10 && y < 10 && 10 * u + x == 10 * v + y
    ensures u == v && x == y
  {
  }

  /** Formatting the value of a digit string back to its own width restores it. */
  lemma PadDigitsValue(d: string)
    requires |d| >= 1 && AllDigits(d)
    ensures Pad(DigitsValue(d), |d|) == d
  {
    PadValue(DigitsValue(d), |d|);
    DigitsInjective(Pad(DigitsValue(d), |d|), d);
  }
}
