/**
 * Exact decimal text: the revision an `If-Match` header names, and a catalog rate scaled by 11/10
 * without leaving strings.
 */
module DecimalText {
  import opened Prelude

  predicate IsDigit(c: char) { '0' <= c <= '9' }

  predicate IsDigits(s: string) { forall i :: 0 <= i < |s| ==> IsDigit(s[i]) }

  function Digit(c: char): (d: nat)
    requires IsDigit(c)
    ensures d < 10
  {
    c as int - '0' as int
  }

  /** `n` with `k` zeros written after it. */
  function Shift(n: nat, k: nat): nat {
    if k == 0 then n else 10 * Shift(n, k - 1)
  }

  /** The number a run of digits names; no digits is zero, as `BigInt("")` is. */
  function Value(s: string): nat
    requires IsDigits(s)
  {
    if s == "" then 0 else Value(s[..|s| - 1]) * 10 + Digit(s[|s| - 1])
  }

  function Print(n: nat): (s: string)
    ensures s != "" && IsDigits(s)
    ensures |s| > 1 ==> s[0] != '0'
  {
    var last := [('0' as int + n % 10) as char];
    if n < 10 then last else Print(n / 10) + last
  }

  lemma {:induction false} ValueOfPrint(n: nat)
    ensures Value(Print(n)) == n
  {
    if n >= 10 {
      ValueOfPrint(n / 10);
      assert Print(n)[..|Print(n)| - 1] == Print(n / 10);
    }
  }

  lemma {:induction false} PrintOfValue(s: string)
    requires s != "" && IsDigits(s) && (|s| > 1 ==> s[0] != '0')
    ensures Print(Value(s)) == s
  {
    var front, last := s[..|s| - 1], s[|s| - 1];
    assert s == front + [last];
    if front == "" {
      assert Value(s) == Digit(last);
    } else {
      PrintOfValue(front);
      ValuePositive(front);
      assert Value(s) / 10 == Value(front) && Value(s) % 10 == Digit(last);
    }
  }

  lemma {:induction false} ValuePositive(s: string)
    requires s != "" && IsDigits(s) && s[0] != '0'
    ensures Value(s) > 0
  {
    if |s| > 1 {
      ValuePositive(s[..|s| - 1]);
    }
  }

  // ----- entity tags

  datatype IfMatch = Missing | Invalid | Revision(revision: nat)

  function ETag(revision: nat): string {
    "\"" + Print(revision) + "\""
  }

  /** A quoted revision: digits with no redundant leading zero, and a safe integer. */
  function ParseIfMatch(header: Option<string>): IfMatch {
    if header == None || header == Some("") then Missing
    else
      var s := header.value;
      if |s| < 3 || s[0] != '\"' || s[|s| - 1] != '\"' then Invalid
      else
        var inner := s[1..|s| - 1];
        if !IsDigits(inner) || (|inner| > 1 && inner[0] == '0') then Invalid
        else if Value(inner) > MAXIMUM_SAFE_INTEGER then Invalid
        else Revision(Value(inner))
  }

  /** A header is read as revision `r` exactly when it is the tag Relay writes for `r`. */
  lemma {:induction false} IfMatchIsETag(s: string, r: nat)
    ensures ParseIfMatch(Some(s)) == Revision(r) <==> s == ETag(r) && r <= 9_007_199_254_740_991
  {
    ValueOfPrint(r);
    assert ETag(r)[1..|ETag(r)| - 1] == Print(r);
    if ParseIfMatch(Some(s)) == Revision(r) {
      PrintOfValue(s[1..|s| - 1]);
      assert s == "\"" + s[1..|s| - 1] + "\"";
    }
  }

  /** The tag of a revision is its digits between quotes, without a leading zero. */
  lemma {:induction false} TagIsQuotedNumber(s: string, r: nat)
    ensures s == ETag(r) <==>
            && |s| >= 3 && s[0] == '\"' && s[|s| - 1] == '\"'
            && IsDigits(s[1..|s| - 1]) && (s[1] == '0' ==> |s| == 3)
            && Value(s[1..|s| - 1]) == r
  {
    ValueOfPrint(r);
    assert ETag(r)[1..|ETag(r)| - 1] == Print(r);
    if |s| >= 3 && IsDigits(s[1..|s| - 1]) && (s[1] == '0' ==> |s| == 3) {
      PrintOfValue(s[1..|s| - 1]);
      assert s == [s[0]] + s[1..|s| - 1] + [s[|s| - 1]];
    }
  }

  /** A header is missing when it is absent or empty, and otherwise invalid unless it is some revision's tag. */
  lemma {:induction false} HeaderIsMissingInvalidOrTag(header: Option<string>)
    ensures ParseIfMatch(header) == Missing <==> header.None? || header.value == ""
    ensures ParseIfMatch(header).Revision? <==>
            header.Some? && exists r: nat :: header.value == ETag(r) && r <= 9_007_199_254_740_991
  {
    if ParseIfMatch(header).Revision? {
      IfMatchIsETag(header.value, ParseIfMatch(header).revision);
    }
    if header.Some? {
      forall r: nat | header.value == ETag(r) && r <= 9_007_199_254_740_991
        ensures ParseIfMatch(header).Revision?
      {
        IfMatchIsETag(header.value, r);
      }
    }
  }

  // ----- decimal strings

  /** The part before the first point. */
  function Integer(s: string): (r: string)
    ensures r <= s && '.' !in r
    ensures |r| < |s| ==> s[|r|] == '.'
  {
    if s == "" || s[0] == '.' then "" else [s[0]] + Integer(s[1..])
  }

  /** The part after the first point, or nothing. */
  function Fraction(s: string): string {
    var n := |Integer(s)|;
    if n == |s| then "" else s[n + 1..]
  }

  /** Digits, with at most one point among them. */
  predicate IsDecimal(s: string) {
    IsDigits(Integer(s)) && IsDigits(Fraction(s))
  }

  /** The digits with the point dropped: the string denotes this, shifted down by its fraction. */
  function Numerator(s: string): nat
    requires IsDecimal(s)
  {
    Value(Integer(s) + Fraction(s))
  }

  /** Both strings denote one number: their digits agree once both have the same fraction width. */
  ghost predicate SameNumber(a: string, b: string)
    requires IsDecimal(a) && IsDecimal(b)
  {
    Shift(Numerator(a), |Fraction(b)|) == Shift(Numerator(b), |Fraction(a)|)
  }

  /** Ten times the number `a` denotes is eleven times the number `b` denotes. */
  ghost predicate IsElevenTenths(a: string, b: string)
    requires IsDecimal(a) && IsDecimal(b)
  {
    10 * Shift(Numerator(a), |Fraction(b)|) == 11 * Shift(Numerator(b), |Fraction(a)|)
  }

  /** No redundant leading zero, no trailing fraction zero, and no bare point. */
  predicate IsCanonical(s: string) {
    && IsDecimal(s)
    && Integer(s) != ""
    && (|Integer(s)| > 1 ==> s[0] != '0')
    && (|Integer(s)| < |s| ==> Fraction(s) != "" && s[|s| - 1] != '0')
  }

  function PadStart(s: string, width: nat): (r: string)
    ensures |r| == Max(|s|, width)
    decreases width - |s|
  {
    if |s| >= width then s else PadStart("0" + s, width)
  }

  function StripZeros(s: string): string {
    if s != "" && s[|s| - 1] == '0' then StripZeros(s[..|s| - 1]) else s
  }

  function Join(whole: string, decimal: string): string {
    if decimal == "" then whole else whole + "." + decimal
  }

  /** A point `scale` digits from the end, with the zeros after it that say nothing removed. */
  function PointAt(raw: string, scale: nat): string
    requires |raw| >= scale
  {
    var point := |raw| - scale;
    Join(raw[..point], StripZeros(raw[point..]))
  }

  function MultiplyByElevenTenths(value: string): string
    requires IsDecimal(value)
  {
    var scale := |Fraction(value)| + 1;
    var raw := PadStart(Print(Numerator(value) * 11), scale + 1);
    PointAt(raw, scale)
  }

  // ----- shifting

  lemma {:induction false} ShiftTwice(n: nat, j: nat, k: nat)
    ensures Shift(Shift(n, j), k) == Shift(n, j + k)
  {
    if k > 0 {
      ShiftTwice(n, j, k - 1);
    }
  }

  lemma {:induction false} ShiftAdd(a: nat, b: nat, k: nat)
    ensures Shift(a + b, k) == Shift(a, k) + Shift(b, k)
  {
    if k > 0 {
      ShiftAdd(a, b, k - 1);
    }
  }

  lemma {:induction false} ShiftScaled(n: nat, k: nat)
    ensures Shift(10 * n, k) == 10 * Shift(n, k)
    ensures Shift(11 * n, k) == 11 * Shift(n, k)
  {
    if k > 0 {
      ShiftScaled(n, k - 1);
    }
  }

  lemma {:induction false} ShiftOrder(a: nat, b: nat, k: nat)
    ensures a < b ==> Shift(a, k) + Shift(1, k) <= Shift(b, k)
  {
    if a < b {
      ShiftAdd(a, 1, k);
      ShiftAdd(a + 1, b - a - 1, k);
    }
  }

  lemma {:induction false} ShiftOne(k: nat)
    ensures Shift(1, k) > 0
  {
    if k > 0 {
      ShiftOne(k - 1);
    }
  }

  lemma {:induction false} ShiftInjective(a: nat, b: nat, k: nat)
    ensures Shift(a, k) == Shift(b, k) <==> a == b
  {
    ShiftOne(k);
    ShiftOrder(a, b, k);
    ShiftOrder(b, a, k);
  }

  // ----- what those strings denote

  lemma {:induction false} ValueAppend(a: string, b: string)
    requires IsDigits(a) && IsDigits(b)
    ensures IsDigits(a + b)
    ensures Value(a + b) == Shift(Value(a), |b|) + Value(b)
  {
    if b == "" {
      assert a + b == a;
    } else {
      var front := b[..|b| - 1];
      ValueAppend(a, front);
      assert (a + b)[..|a + b| - 1] == a + front;
    }
  }

  lemma {:induction false} ValueBound(s: string)
    requires IsDigits(s)
    ensures Value(s) < Shift(1, |s|)
  {
    if s != "" {
      ValueBound(s[..|s| - 1]);
    }
  }

  lemma {:induction false} PadStartValue(s: string, width: nat)
    requires IsDigits(s)
    ensures IsDigits(PadStart(s, width)) && Value(PadStart(s, width)) == Value(s)
    ensures |s| >= width ==> PadStart(s, width) == s
    decreases width - |s|
  {
    if |s| < width {
      ValueAppend("0", s);
      ShiftAdd(0, 0, |s|);
      assert Value("0") == 0;
      PadStartValue("0" + s, width);
    }
  }

  lemma {:induction false} StripZerosValue(s: string)
    requires IsDigits(s)
    ensures StripZeros(s) <= s && IsDigits(StripZeros(s))
    ensures Value(s) == Shift(Value(StripZeros(s)), |s| - |StripZeros(s)|)
    ensures StripZeros(s) != "" ==> StripZeros(s)[|StripZeros(s)| - 1] != '0'
  {
    if s != "" && s[|s| - 1] == '0' {
      StripZerosValue(s[..|s| - 1]);
    }
  }

  lemma {:induction false} PartsOf(whole: string, decimal: string)
    requires IsDigits(whole) && IsDigits(decimal)
    ensures Integer(whole) == whole && Fraction(whole) == ""
    ensures Integer(whole + "." + decimal) == whole && Fraction(whole + "." + decimal) == decimal
  {
    var s := whole + "." + decimal;
    if whole != "" {
      PartsOf(whole[1..], decimal);
      assert s[1..] == whole[1..] + "." + decimal;
    }
  }

  lemma {:induction false} JoinedShape(whole: string, decimal: string)
    requires IsDigits(whole) && IsDigits(decimal) && whole != ""
    requires |whole| > 1 ==> whole[0] != '0'
    requires decimal != "" ==> decimal[|decimal| - 1] != '0'
    ensures IsCanonical(Join(whole, decimal))
    ensures |Fraction(Join(whole, decimal))| == |decimal|
    ensures IsDigits(whole + decimal) && Numerator(Join(whole, decimal)) == Value(whole + decimal)
  {
    PartsOf(whole, decimal);
    if decimal == "" {
      assert whole + decimal == whole;
      assert Integer(whole) + Fraction(whole) == whole;
    } else {
      var out := Join(whole, decimal);
      assert out[0] == whole[0] && out[|out| - 1] == decimal[|decimal| - 1];
    }
  }

  lemma {:induction false} StrippedValue(whole: string, tail: string)
    requires IsDigits(whole) && IsDigits(tail)
    ensures StripZeros(tail) <= tail && IsDigits(whole + tail) && IsDigits(whole + StripZeros(tail))
    ensures Value(whole + tail)
         == Shift(Value(whole + StripZeros(tail)), |tail| - |StripZeros(tail)|)
  {
    var decimal := StripZeros(tail);
    StripZerosValue(tail);
    ValueAppend(whole, tail);
    ValueAppend(whole, decimal);
    var g, z := |decimal|, |tail| - |decimal|;
    ShiftTwice(Value(whole), g, z);
    ShiftAdd(Shift(Value(whole), g), Value(decimal), z);
  }

  lemma {:induction false} JoinedValue(whole: string, tail: string)
    requires IsDigits(whole) && IsDigits(tail) && whole != ""
    requires |whole| > 1 ==> whole[0] != '0'
    ensures var out := Join(whole, StripZeros(tail));
      && IsCanonical(out)
      && |Fraction(out)| <= |tail|
      && IsDigits(whole + tail)
      && Value(whole + tail) == Shift(Numerator(out), |tail| - |Fraction(out)|)
  {
    StripZerosValue(tail);
    JoinedShape(whole, StripZeros(tail));
    StrippedValue(whole, tail);
  }

  /** A run of digits split `scale` from its end denotes itself shifted down by `scale`. */
  lemma {:induction false} SplitDigits(raw: string, scale: nat)
    requires IsDigits(raw) && |raw| > scale && (|raw| > scale + 1 ==> raw[0] != '0')
    ensures var out := PointAt(raw, scale);
      && IsCanonical(out)
      && |Fraction(out)| <= scale
      && Value(raw) == Shift(Numerator(out), scale - |Fraction(out)|)
  {
    var whole, tail := raw[..|raw| - scale], raw[|raw| - scale..];
    assert raw == whole + tail;
    JoinedValue(whole, tail);
  }

  lemma {:induction false} RawDigits(n: nat, width: nat)
    requires width > 0
    ensures var raw := PadStart(Print(n), width);
            IsDigits(raw) && Value(raw) == n && (|raw| > width ==> raw[0] != '0')
  {
    PadStartValue(Print(n), width);
    ValueOfPrint(n);
  }

  /** Scaling a rate names exactly eleven tenths of it, in canonical text. */
  lemma {:induction false} ElevenTenths(value: string)
    requires IsDecimal(value)
    ensures IsCanonical(MultiplyByElevenTenths(value))
    ensures IsElevenTenths(MultiplyByElevenTenths(value), value)
  {
    var f, n := |Fraction(value)|, Numerator(value);
    var raw := PadStart(Print(n * 11), f + 2);
    RawDigits(n * 11, f + 2);
    SplitDigits(raw, f + 1);
    var out := PointAt(raw, f + 1);
    ElevenTenthsShifted(n, f, Numerator(out), |Fraction(out)|);
  }

  lemma {:induction false} ElevenTenthsShifted(n: nat, f: nat, m: nat, g: nat)
    requires g <= f + 1 && n * 11 == Shift(m, f + 1 - g)
    ensures 10 * Shift(m, f) == 11 * Shift(n, g)
  {
    ShiftTwice(m, f + 1 - g, g);
    assert Shift(m, f + 1) == 10 * Shift(m, f);
    ShiftScaled(n, g);
  }

  // ----- canonical text is unique

  lemma {:induction false} LastDigit(s: string)
    requires IsDigits(s) && s != ""
    ensures Value(s) % 10 == Digit(s[|s| - 1])
  {
  }

  lemma {:induction false} SameWidthSameValue(a: string, b: string)
    requires IsDigits(a) && IsDigits(b) && |a| == |b| && Value(a) == Value(b)
    ensures a == b
  {
    if a != "" {
      LastDigit(a);
      LastDigit(b);
      SameWidthSameValue(a[..|a| - 1], b[..|b| - 1]);
      assert a == a[..|a| - 1] + [a[|a| - 1]];
      assert b == b[..|b| - 1] + [b[|b| - 1]];
    }
  }

  lemma {:induction false} LastFractionDigit(b: string)
    requires IsCanonical(b) && Fraction(b) != ""
    ensures Numerator(b) % 10 != 0
  {
    var digits := Integer(b) + Fraction(b);
    assert digits[|digits| - 1] == b[|b| - 1];
    LastDigit(digits);
  }

  /** A longer canonical fraction cannot denote the same number: its last digit would be zero. */
  lemma {:induction false} NoLongerFraction(a: string, b: string)
    requires IsCanonical(a) && IsCanonical(b) && SameNumber(a, b)
    ensures |Fraction(b)| <= |Fraction(a)|
  {
    var g, h := |Fraction(a)|, |Fraction(b)|;
    if g < h {
      WiderIsTens(Numerator(a), Numerator(b), g, h);
      LastFractionDigit(b);
      assert false;
    }
  }

  lemma {:induction false} WiderIsTens(n: nat, m: nat, g: nat, h: nat)
    requires g < h && Shift(n, h) == Shift(m, g)
    ensures m % 10 == 0
  {
    ShiftTwice(n, h - g, g);
    ShiftInjective(Shift(n, h - g), m, g);
  }

  lemma {:induction false} SameParts(a: string, b: string)
    requires IsCanonical(a) && IsCanonical(b)
    requires |Fraction(a)| == |Fraction(b)| && Numerator(a) == Numerator(b)
    ensures a == b
  {
    ValueAppend(Integer(a), Fraction(a));
    ValueAppend(Integer(b), Fraction(b));
    ValueBound(Fraction(a));
    ValueBound(Fraction(b));
    SplitUnique(
      Value(Integer(a)), Value(Integer(b)), Value(Fraction(a)), Value(Fraction(b)), |Fraction(a)|);
    SameWidthSameValue(Fraction(a), Fraction(b));
    PrintOfValue(Integer(a));
    PrintOfValue(Integer(b));
    PartsDetermine(a, b);
  }

  lemma {:induction false} SplitUnique(i: nat, j: nat, f: nat, g: nat, k: nat)
    requires Shift(i, k) + f == Shift(j, k) + g && f < Shift(1, k) && g < Shift(1, k)
    ensures i == j && f == g
  {
    ShiftOrder(i, j, k);
    ShiftOrder(j, i, k);
  }

  lemma {:induction false} PartsDetermine(a: string, b: string)
    requires IsCanonical(a) && IsCanonical(b)
    requires Integer(a) == Integer(b) && Fraction(a) == Fraction(b)
    ensures a == b
  {
    assert a == Integer(a) + (if |Integer(a)| == |a| then "" else "." + Fraction(a));
    assert b == Integer(b) + (if |Integer(b)| == |b| then "" else "." + Fraction(b));
  }

  /** Canonical strings of one number are one string. */
  lemma {:induction false} CanonicalUnique(a: string, b: string)
    requires IsCanonical(a) && IsCanonical(b)
    ensures SameNumber(a, b) <==> a == b
  {
    if SameNumber(a, b) {
      NoLongerFraction(a, b);
      NoLongerFraction(b, a);
      ShiftInjective(Numerator(a), Numerator(b), |Fraction(a)|);
      SameParts(a, b);
    }
  }

  /** Two rates scale to one text exactly when they are one number. */
  lemma {:induction false} ScaledTextIsTheNumber(a: string, b: string)
    requires IsDecimal(a) && IsDecimal(b)
    ensures MultiplyByElevenTenths(a) == MultiplyByElevenTenths(b) <==> SameNumber(a, b)
  {
    var x, y := MultiplyByElevenTenths(a), MultiplyByElevenTenths(b);
    ElevenTenths(a);
    ElevenTenths(b);
    CanonicalUnique(x, y);
    SameRatio(
      Numerator(a), Numerator(b), Numerator(x), Numerator(y),
      |Fraction(a)|, |Fraction(b)|, |Fraction(x)|, |Fraction(y)|);
  }

  /** x = 11/10 a and y = 11/10 b, each with its own fraction width: x = y exactly when a = b. */
  lemma {:induction false} SameRatio(a: nat, b: nat, x: nat, y: nat, fa: nat, fb: nat, fx: nat, fy: nat)
    requires 10 * Shift(x, fa) == 11 * Shift(a, fx)
    requires 10 * Shift(y, fb) == 11 * Shift(b, fy)
    ensures Shift(x, fy) == Shift(y, fx) <==> Shift(a, fb) == Shift(b, fa)
  {
    var u, v, w := fa + fb + fy, fa + fb + fx, fx + fy + fb;
    var w' := fx + fy + fa;
    RatioShifted(a, x, fa, fx, fb + fy, u, w);
    RatioShifted(b, y, fb, fy, fa + fx, v, w');
    ShiftMeets(x, fy, y, fx, fa + fb, u, v);
    ShiftMeets(a, fb, b, fa, fx + fy, w, w');
  }

  lemma {:induction false} ShiftMeets(x: nat, i: nat, y: nat, j: nat, k: nat, u: nat, v: nat)
    requires u == i + k && v == j + k
    ensures Shift(x, i) == Shift(y, j) <==> Shift(x, u) == Shift(y, v)
  {
    ShiftTwice(x, i, k);
    ShiftTwice(y, j, k);
    ShiftInjective(Shift(x, i), Shift(y, j), k);
  }

  lemma {:induction false} RatioShifted(a: nat, x: nat, fa: nat, fx: nat, k: nat, u: nat, w: nat)
    requires 10 * Shift(x, fa) == 11 * Shift(a, fx)
    requires u == fa + k && w == fx + k
    ensures 10 * Shift(x, u) == 11 * Shift(a, w)
  {
    ShiftTwice(x, fa, k);
    ShiftTwice(a, fx, k);
    ShiftScaled(Shift(x, fa), k);
    ShiftScaled(Shift(a, fx), k);
  }
}
