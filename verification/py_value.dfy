/**
 * The Python values the pipeline's dictionaries hold, the few operations
 * on them it relies on (truthiness, subscripts, `dict.get`, numeric
 * comparison) and `int()` of a string.
 */
module PyValue {
  import opened Wrappers
  import opened Scan

  /** A JSON-like Python value: what a NOTAM document's fields can hold. */
  datatype Value =
    | Nil
    | Bool(b: bool)
    | Int(i: int)
    | Float(r: real)
    | Str(s: string)
    | List(items: seq<Value>)
    | Dict(entries: map<string, Value>)

  /** The exceptions a modelled operation can raise; ValueError is `int()` refusing its text. */
  datatype PyError = KeyError | TypeError | IndexError | ZeroDivisionError | ValueError

  /** `bool(v)`: empty containers, zero, `""` and `None` are false. */
  predicate Truthy(v: Value)
  {
    match v
    case Nil => false
    case Bool(b) => b
    case Int(i) => i != 0
    case Float(r) => r != 0.0
    case Str(s) => s != []
    case List(xs) => xs != []
    case Dict(m) => m != map[]
  }

  /** The numeric value of a number (`bool` being a subclass of `int`), or nothing. */
  function Num(v: Value): Option<real>
  {
    match v
    case Bool(b) => Some(if b then 1.0 else 0.0)
    case Int(i) => Some(i as real)
    case Float(r) => Some(r)
    case _ => None
  }

  /** `v[key]` for a string key: only a dict holding the key answers. */
  function Subscript(v: Value, key: string): Result<Value, PyError>
  {
    match v
    case Dict(m) => if key in m then Ok(m[key]) else Err(KeyError)
    case _ => Err(TypeError)
  }

  /** `v[i]` for a non-negative index: a list's item or a one-character string. */
  function Index(v: Value, i: nat): Result<Value, PyError>
  {
    match v
    case List(xs) => if i < |xs| then Ok(xs[i]) else Err(IndexError)
    case Str(s) => if i < |s| then Ok(Str([s[i]])) else Err(IndexError)
    case Dict(_) => Err(KeyError)
    case _ => Err(TypeError)
  }

  /** `d.get(key, default)`. */
  function Get(d: map<string, Value>, key: string, default: Value): Value
  {
    if key in d then d[key] else default
  }

  // ---------------------------------------------------------------------
  // str.strip() and int(str)
  // ---------------------------------------------------------------------

  /** Every character is whitespace: `not s.strip()`. */
  predicate IsBlank(s: string) { forall i :: 0 <= i < |s| ==> IsSpace(s[i]) }

  /** Start of the trailing run of class-`k` characters that ends at `e`. */
  function TrailStart(s: string, e: nat, k: Class): (b: nat)
    requires e <= |s|
    ensures b <= e
    ensures forall i :: b <= i < e ==> In(s[i], k)
    ensures b == 0 || !In(s[b - 1], k)
  {
    if e > 0 && In(s[e - 1], k) then TrailStart(s, e - 1, k) else e
  }

  /** `s` with the class-`k` characters at both ends removed. */
  function StripOf(s: string, k: Class): (t: string)
    ensures t == [] <==> AllIn(s, k)
    ensures t != [] ==> !In(t[0], k) && !In(t[|t| - 1], k)
    ensures t != [] ==> SpanWhile(s, 0, k) < |s| && t[0] == s[SpanWhile(s, 0, k)]
  {
    var b := SpanWhile(s, 0, k);
    var e := TrailStart(s, |s|, k);
    if b == |s| then
      assert AllIn(s, k) by {
        forall i | 0 <= i < |s| ensures In(s[i], k) {
          assert 0 <= i < b;
        }
      }
      []
    else
      assert !In(s[b], k);
      assert b < e;
      assert !AllIn(s, k);
      s[b..e]
  }

  /** `s.strip()`: leading and trailing `str.isspace()` characters removed. */
  function Strip(s: string): (t: string)
    ensures t == [] <==> IsBlank(s)
    ensures t != [] ==> !IsSpace(t[0]) && !IsSpace(t[|t| - 1])
  {
    assert AllIn(s, Space) <==> IsBlank(s) by {
      if IsBlank(s) {
        forall i | 0 <= i < |s| ensures In(s[i], Space) {
          assert IsSpace(s[i]);
        }
      }
    }
    StripOf(s, Space)
  }

  /** What `int()` removes around its numeral: only the whitespace it skips. */
  function IntStrip(s: string): (t: string)
    ensures t == [] <==> AllIn(s, IntSpace)
    ensures t != [] ==> !IsIntSpace(t[0]) && !IsIntSpace(t[|t| - 1])
  {
    StripOf(s, IntSpace)
  }

  /** Position `i` of a numeral holds a digit, or an underscore between two digits. */
  predicate GroupChar(b: string, i: nat)
    requires i < |b|
  {
    IsDigit(b[i]) || (b[i] == '_' && 0 < i < |b| - 1 && IsDigit(b[i - 1]) && IsDigit(b[i + 1]))
  }

  /** Digits with single underscores between them, as `int()` accepts. */
  predicate Grouped(b: string)
  {
    |b| >= 1 && forall i :: 0 <= i < |b| ==> GroupChar(b, i)
  }

  /** The digits of a numeral: the underscores of a grouped numeral dropped. */
  function Ungroup(b: string): (d: string)
    ensures AllDigits(d) && |d| <= |b|
  {
    if b == [] then []
    else (if IsDigit(b[0]) then [b[0]] else []) + Ungroup(b[1..])
  }

  /**
   * CPython's default limit on the number of digits `int()` converts from
   * decimal text (`sys.int_info.default_max_str_digits`); longer numerals
   * raise ValueError.
   */
  const MaxStrDigits: nat := 4300

  /** What follows an optional leading `+` or `-`. */
  function Unsigned(t: string): (b: string)
    ensures |b| <= |t|
  {
    if |t| >= 1 && (t[0] == '+' || t[0] == '-') then t[1..] else t
  }

  /** An optional sign and a grouped numeral of at most `MaxStrDigits` digits, nothing around them. */
  function ParseNumeral(t: string): (r: Option<int>)
    ensures r.Some? ==> t != [] && (r.value < 0 ==> t[0] == '-')
  {
    var negative := |t| >= 1 && t[0] == '-';
    var body := if |t| >= 1 && (t[0] == '+' || t[0] == '-') then t[1..] else t;
    if !Grouped(body) then None
    else
      var d := Ungroup(body);
      if |d| > MaxStrDigits then None
      else
        var v: int := DigitsValue(d);
        Some(if negative then -v else v)
  }

  /**
   * `int(s)` for a `str` argument: the whitespace `int()` skips, an optional
   * sign and a grouped decimal numeral within the digit limit; anything else
   * raises ValueError, here `None`.
   */
  function ParsePyInt(s: string): (r: Option<int>)
    ensures IsBlank(s) ==> r.None?
  {
    var t := IntStrip(s);
    assert IsBlank(s) ==> ParseNumeral(t).None? by {
      if IsBlank(s) && t != [] {
        assert IsSpace(s[SpanWhile(s, 0, IntSpace)]);
        NotNumeralStart(t);
      }
    }
    ParseNumeral(t)
  }

  /** Text that opens with neither a sign nor a digit is no numeral. */
  lemma NotNumeralStart(t: string)
    requires t != [] && !IsDigit(t[0]) && t[0] != '+' && t[0] != '-'
    ensures ParseNumeral(t).None?
  {
    assert !GroupChar(t, 0);
  }

  /**
   * `int()` accepts exactly the strings whose text inside the whitespace it
   * skips is, after an optional sign, a grouped numeral of at most
   * `MaxStrDigits` digits; everything else raises ValueError.
   */
  lemma ParsePyIntAccepts(s: string)
    ensures var b := Unsigned(IntStrip(s));
      ParsePyInt(s).Some? <==> Grouped(b) && |Ungroup(b)| <= MaxStrDigits
  {
  }

  /** A string without surrounding whitespace or sign is rejected by `int()` when one position breaks the grouping. */
  lemma RejectedAt(t: string, i: nat)
    requires t != [] && !IsIntSpace(t[0]) && !IsIntSpace(t[|t| - 1]) && t[0] != '+' && t[0] != '-'
    requires i < |t| && !GroupChar(t, i)
    ensures ParsePyInt(t).None?
  {
    StripTight(t, IntSpace);
    assert Unsigned(t) == t;
    ParsePyIntAccepts(t);
  }

  /** Strings `int()` rejects: a decimal point, letters, a doubled underscore. */
  lemma ParsePyIntRejects()
    ensures ParsePyInt("5.0").None? && ParsePyInt("abc").None? && ParsePyInt("1__0").None?
  {
    RejectedAt("5.0", 1);
    RejectedAt("abc", 0);
    RejectedAt("1__0", 1);
  }

  /**
   * The separator U+001C is removed by `str.strip()` but not skipped by
   * `int()`, so `int()` rejects a numeral it precedes.
   */
  lemma SeparatorNotSkipped()
    ensures Strip("\U{1C}5") == "5"
    ensures ParsePyInt("\U{1C}5").None?
  {
    StripPadded("\U{1C}", "5", "", Space);
    assert "\U{1C}" + "5" + "" == "\U{1C}5";
    RejectedAt("\U{1C}5", 0);
  }

  /** A digit string has no underscore to drop. */
  lemma {:induction false} UngroupDigits(d: string)
    requires AllDigits(d)
    ensures Ungroup(d) == d
  {
    if d != [] {
      UngroupDigits(d[1..]);
      assert d == [d[0]] + d[1..];
    }
  }

  /** A digit string is a grouped numeral without underscores. */
  lemma DigitsGrouped(d: string)
    requires |d| >= 1 && AllDigits(d)
    ensures Grouped(d) && Ungroup(d) == d
  {
    UngroupDigits(d);
    forall i | 0 <= i < |d| ensures GroupChar(d, i) {
      assert IsDigit(d[i]);
    }
  }

  /** A digit string reads as its value when it is within the digit limit. */
  lemma NumeralOfDigits(d: string)
    requires |d| >= 1 && AllDigits(d)
    ensures ParseNumeral(d) == if |d| <= MaxStrDigits then Some(DigitsValue(d)) else None
  {
    DigitsGrouped(d);
  }

  /** A minus sign followed by digits reads as the negated value of the digits, within the limit. */
  lemma NumeralOfNegative(t: string)
    requires |t| >= 2 && t[0] == '-' && AllDigits(t[1..])
    ensures ParseNumeral(t) == if |t| - 1 <= MaxStrDigits then Some(-(DigitsValue(t[1..]) as int)) else None
  {
    DigitsGrouped(t[1..]);
  }

  /** A string with no class-`k` character at either end is its own strip. */
  lemma StripTight(s: string, k: Class)
    requires s != [] && !In(s[0], k) && !In(s[|s| - 1], k)
    ensures StripOf(s, k) == s
  {
    assert SpanWhile(s, 0, k) == 0;
    assert TrailStart(s, |s|, k) == |s|;
  }

  /** `int()` of a digit string is its value when it is within the digit limit, and fails otherwise. */
  lemma ParsePyIntDigits(d: string)
    requires |d| >= 1 && AllDigits(d)
    ensures ParsePyInt(d) == if |d| <= MaxStrDigits then Some(DigitsValue(d)) else None
  {
    assert IsDigit(d[0]) && IsDigit(d[|d| - 1]);
    StripTight(d, IntSpace);
    NumeralOfDigits(d);
  }

  /** Round trip: `int(str(n))` is `n`, for every `n` whose decimal text is within the digit limit. */
  lemma ParsePyIntDecimal(n: nat)
    ensures ParsePyInt(Decimal(n)) == if |Decimal(n)| <= MaxStrDigits then Some(n) else None
  {
    DecimalValue(n);
    ParsePyIntDigits(Decimal(n));
  }

  /** A numeral longer than the digit limit is rejected. */
  lemma TooManyDigits(d: string)
    requires |d| > MaxStrDigits && AllDigits(d)
    ensures ParsePyInt(d).None?
  {
    ParsePyIntDigits(d);
  }

  /** `int()` of a string without surrounding skipped whitespace reads the string itself. */
  lemma ParsePyIntTight(t: string)
    requires t != [] && !IsIntSpace(t[0]) && !IsIntSpace(t[|t| - 1])
    ensures ParsePyInt(t) == ParseNumeral(t)
  {
    StripTight(t, IntSpace);
  }

  /** `int()` of a minus sign followed by digits is the negated value: nothing is stripped. */
  lemma ParsePyIntMinusDigits(t: string)
    requires |t| >= 2 && t[0] == '-' && AllDigits(t[1..])
    ensures ParsePyInt(t) == if |t| - 1 <= MaxStrDigits then Some(-(DigitsValue(t[1..]) as int)) else None
  {
    assert t[|t| - 1] == t[1..][|t| - 2];
    ParsePyIntTight(t);
    NumeralOfNegative(t);
  }

  /** Class-`k` characters around a string with none at its own ends are all that is stripped. */
  lemma StripPadded(pre: string, s: string, post: string, k: Class)
    requires AllIn(pre, k) && AllIn(post, k) && s != [] && !In(s[0], k) && !In(s[|s| - 1], k)
    ensures StripOf(pre + s + post, k) == s
  {
    var t := pre + s + post;
    forall i | 0 <= i < |pre| ensures In(t[i], k) {
      assert t[i] == pre[i];
    }
    assert t[|pre|] == s[0];
    SpanWhileExact(t, 0, |pre|, k);
    var e := |pre| + |s|;
    forall i | e <= i < |t| ensures In(t[i], k) {
      assert t[i] == post[i - e];
    }
    assert t[e - 1] == s[|s| - 1];
    TrailExact(t, e, k);
    assert t[|pre|..e] == s;
  }

  /** The whitespace `int()` skips around a numeral does not change what it reads. */
  lemma ParsePyIntPadded(pre: string, s: string, post: string)
    requires AllIn(pre, IntSpace) && AllIn(post, IntSpace)
    requires s != [] && !IsIntSpace(s[0]) && !IsIntSpace(s[|s| - 1])
    ensures ParsePyInt(pre + s + post) == ParsePyInt(s)
  {
    StripPadded(pre, s, post, IntSpace);
    StripTight(s, IntSpace);
  }

  /** A trailing run that starts after a character outside the class is the one TrailStart finds. */
  lemma {:induction false} TrailExact(s: string, b: nat, k: Class)
    requires 0 < b <= |s| && !In(s[b - 1], k)
    requires forall i :: b <= i < |s| ==> In(s[i], k)
    ensures TrailStart(s, |s|, k) == b
  {
    TrailFrom(s, b, |s|, k);
  }

  lemma {:induction false} TrailFrom(s: string, b: nat, e: nat, k: Class)
    requires 0 < b <= e <= |s| && !In(s[b - 1], k)
    requires forall i :: b <= i < e ==> In(s[i], k)
    ensures TrailStart(s, e, k) == b
    decreases e
  {
    if e > b {
      TrailFrom(s, b, e - 1, k);
    }
  }
}
