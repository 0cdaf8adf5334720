/**
 * clean_amount: turning a captured money string into a number.
 *
 * Python's float() is not modelled in general; it is a parameter
 * `toFloat` whose None result stands for the ValueError it raises. What the
 * model relies on is stated as FloatReadsDecimals: the empty string is
 * rejected, and a plain two-place decimal is read exactly.
 */
module Amounts {
  import opened Options
  import opened PyStr

  /** float() on a string: None where Python raises ValueError. */
  type FloatParse = string -> Option<real>

  /** The capture group of every amount pattern, [0-9,]+\.[0-9]{2}. */
  predicate AmountShape(c: string) {
    && |c| >= 4
    && c[|c| - 3] == '.'
    && IsDigit(c[|c| - 2]) && IsDigit(c[|c| - 1])
    && forall i :: 0 <= i < |c| - 3 ==> IsDigit(c[i]) || c[i] == ','
  }

  /** A plain decimal with exactly two fraction digits, [0-9]*\.[0-9]{2}. */
  predicate DecimalShape(s: string) {
    |s| >= 3 && s[|s| - 3] == '.' && AllDigits(s[..|s| - 3]) && AllDigits(s[|s| - 2..])
  }

  /** The value of a two-place decimal, in cents. */
  function DecimalCents(s: string): nat
    requires DecimalShape(s)
  {
    DigitsValue(s[..|s| - 3]) * 100 + DigitsValue(s[|s| - 2..])
  }

  /** What the model trusts float() to do. */
  ghost predicate FloatReadsDecimals(toFloat: FloatParse) {
    && toFloat("") == None
    && forall s :: DecimalShape(s) ==> toFloat(s) == Some(DecimalCents(s) as real / 100.0)
  }

  /**
   * The string clean_amount hands to float(): surrounding whitespace
   * stripped, then every ',' and '$' deleted.
   */
  function Clean(s: string): (r: string)
    ensures forall i :: 0 <= i < |r| ==> r[i] != ',' && r[i] != '$'
    ensures |r| <= |s|
  {
    Without(Strip(s), {',', '$'})
  }

  /**
   * clean_amount: 0 for the empty string; otherwise the float() reading of
   * the cleaned string, or 0 where float() would raise.
   */
  function CleanAmount(toFloat: FloatParse, s: string): (r: real)
    ensures s == [] ==> r == 0.0
    ensures toFloat(Clean(s)) == None ==> r == 0.0
    ensures s != [] && toFloat(Clean(s)).Some? ==> r == toFloat(Clean(s)).value
  {
    if s == [] then 0.0
    else match toFloat(Clean(s))
      case Some(v) => v
      case None => 0.0
  }

  // ---------------------------------------------------------------- cleaning twice

  /** Cleaning a cleaned string only strips it again: ',' and '$' are already gone. */
  lemma CleanTwice(s: string)
    ensures Clean(Clean(s)) == Strip(Clean(s))
  {
    var c := Clean(s);
    assert forall i :: 0 <= i < |c| ==> c[i] !in {',', '$'};
    StripKeepsOut(c, {',', '$'});
    WithoutNothing(Strip(c), {',', '$'});
  }

  /**
   * Hence cleaning is idempotent exactly when the first pass leaves no
   * whitespace at the ends.
   */
  lemma CleanIdempotentIff(s: string)
    ensures Clean(Clean(s)) == Clean(s) <==> Trimmed(Clean(s))
  {
    CleanTwice(s);
    StripFixpoint(Clean(s));
  }

  /**
   * Witnesses that the first pass can leave whitespace at the ends: for any
   * digit d, ", d" cleans to " d", and cleaning that again gives "d".
   */
  lemma CleanNotAlwaysIdempotent(d: char)
    requires IsDigit(d)
    ensures Clean([',', ' ', d]) == [' ', d]
    ensures Clean(Clean([',', ' ', d])) == [d]
  {
    CleanCommaDigit(d);
    CleanSpaceDigit(d);
  }

  lemma CleanCommaDigit(d: char)
    requires IsDigit(d)
    ensures Clean([',', ' ', d]) == [' ', d]
  {
    StripCommaDigit(d);
    DropComma(d);
  }

  lemma StripCommaDigit(d: char)
    requires IsDigit(d)
    ensures Strip([',', ' ', d]) == [',', ' ', d]
  {
    var s := [',', ' ', d];
    assert !IsSpace(d);
    assert Trimmed(s);
    StripFixpoint(s);
  }

  lemma DropComma(d: char)
    requires IsDigit(d)
    ensures Without([',', ' ', d], {',', '$'}) == [' ', d]
  {
    var s := [',', ' ', d];
    assert Without(s, {',', '$'}) == Without(s[1..], {',', '$'});
    assert s[1..] == [' ', d];
    WithoutNothing([' ', d], {',', '$'});
  }

  lemma CleanSpaceDigit(d: char)
    requires IsDigit(d)
    ensures Clean([' ', d]) == [d]
  {
    StripSpaceDigit(d);
    KeepDigit(d);
  }

  lemma KeepDigit(d: char)
    requires IsDigit(d)
    ensures Without([d], {',', '$'}) == [d]
  {
    WithoutNothing([d], {',', '$'});
  }

  lemma StripSpaceDigit(d: char)
    requires IsDigit(d)
    ensures Strip([' ', d]) == [d]
  {
    var s := [' ', d];
    assert IsSpace(' ') && !IsSpace(d);
    assert s[1..] == [d];
    StripLeftOfTrimmed([d]);
    assert StripLeft(s) == [d];
    StripRightOfTrimmed([d]);
  }

  // ---------------------------------------------------------------- captured amounts

  lemma {:induction false} WithoutSameDrop(s: string, a: set<char>, b: set<char>)
    requires forall i :: 0 <= i < |s| ==> (s[i] in a <==> s[i] in b)
    ensures Without(s, a) == Without(s, b)
  {
    if s != [] {
      WithoutSameDrop(s[1..], a, b);
    }
  }

  lemma AmountDigits(c: string)
    requires AmountShape(c)
    ensures AllDigits(Without(c, {',', '.'}))
  {
    WithoutLeavesDigits(c, {',', '.'});
  }

  /** The amount a capture denotes in cents: its digits, with ',' and '.' deleted, read as a number. */
  ghost function CaptureCents(c: string): nat
    requires AmountShape(c)
  {
    AmountDigits(c);
    DigitsValue(Without(c, {',', '.'}))
  }

  lemma CaptureEnds(c: string)
    requires AmountShape(c)
    ensures Trimmed(c)
  {
    assert IsDigit(c[0]) || c[0] == ',';
  }

  lemma DeleteAroundPoint(p: string, f: string)
    requires AllDigits(f)
    requires '.' !in p
    ensures Without(p + ['.'] + f, {','}) == Without(p, {','}) + ['.'] + f
    ensures Without(p + ['.'] + f, {',', '.'}) == Without(p, {','}) + f
  {
    KeepPoint(p, f);
    DropPoint(p, f);
  }

  lemma KeepPoint(p: string, f: string)
    requires AllDigits(f)
    ensures Without(p + ['.'] + f, {','}) == Without(p, {','}) + ['.'] + f
  {
    WithoutConcat(p + ['.'], f, {','});
    WithoutConcat(p, ['.'], {','});
    WithoutNothing(['.'], {','});
    WithoutNothing(f, {','});
  }

  lemma DropPoint(p: string, f: string)
    requires AllDigits(f)
    requires '.' !in p
    ensures Without(p + ['.'] + f, {',', '.'}) == Without(p, {','}) + f
  {
    WithoutConcat(p + ['.'], f, {',', '.'});
    WithoutConcat(p, ['.'], {',', '.'});
    WithoutSameDrop(p, {','}, {',', '.'});
    WithoutNothing(f, {',', '.'});
    assert Without(['.'], {',', '.'}) == [] by {
      assert ['.'][1..] == [];
    }
  }

  /**
   * For any capture of an amount pattern the cleaned string is a plain
   * two-place decimal (so float() accepts it) whose value in cents is the
   * capture's digits read as one number.
   */
  lemma CleanCapture(c: string)
    requires AmountShape(c)
    ensures Clean(c) == Without(c, {','})
    ensures DecimalShape(Clean(c))
    ensures DecimalCents(Clean(c)) == CaptureCents(c)
  {
    var p, f := CaptureParts(c);
    CleanIsCommaDeletion(c);
    DeleteAroundPoint(p, f);
    WithoutLeavesDigits(p, {','});
    DecimalOfParts(Without(p, {','}), f);
  }

  /** A capture is its integer part (digits and commas), a point, and two digits. */
  lemma CaptureParts(c: string) returns (p: string, f: string)
    requires AmountShape(c)
    ensures c == p + ['.'] + f
    ensures |f| == 2 && AllDigits(f)
    ensures forall k :: 0 <= k < |p| ==> IsDigit(p[k]) || p[k] == ','
    ensures '.' !in p
  {
    var n := |c|;
    p, f := c[..n - 3], c[n - 2..];
    assert c == p + ['.'] + f;
    assert forall k :: 0 <= k < |p| ==> p[k] == c[k];
    assert f[0] == c[n - 2] && f[1] == c[n - 1];
  }

  /** A capture holds no '$', and strip() leaves it alone. */
  lemma CleanIsCommaDeletion(c: string)
    requires AmountShape(c)
    ensures Clean(c) == Without(c, {','})
  {
    CaptureEnds(c);
    CaptureHasNoDollar(c);
    CleanPlain(c);
  }

  lemma CaptureHasNoDollar(c: string)
    requires AmountShape(c)
    ensures forall i :: 0 <= i < |c| ==> c[i] != '$'
  {
  }

  lemma CleanPlain(c: string)
    requires Trimmed(c)
    requires forall i :: 0 <= i < |c| ==> c[i] != '$'
    ensures Clean(c) == Without(c, {','})
  {
    StripFixpoint(c);
    WithoutSameDrop(c, {',', '$'}, {','});
  }

  lemma DecimalOfParts(w: string, f: string)
    requires AllDigits(w) && AllDigits(f) && |f| == 2
    ensures DecimalShape(w + ['.'] + f)
    ensures DecimalCents(w + ['.'] + f) == DigitsValue(w + f)
  {
    var r := w + ['.'] + f;
    assert r[..|r| - 3] == w;
    assert r[|r| - 2..] == f;
    DigitsValueConcat(w, f);
    assert DigitsValue(w + f) == DigitsValue(w) * 100 + DigitsValue(f) by {
      assert Pow10(2) == 100;
    }
  }

  /** The cleaning of a capture is idempotent. */
  lemma CleanCaptureIdempotent(c: string)
    requires AmountShape(c)
    ensures Clean(Clean(c)) == Clean(c)
  {
    CleanCapture(c);
    DecimalTrimmed(Clean(c));
    CleanIdempotentIff(c);
  }

  lemma DecimalTrimmed(r: string)
    requires DecimalShape(r)
    ensures Trimmed(r)
  {
    assert IsDigit(r[0]) || r[0] == '.' by {
      if |r| > 3 { assert r[0] == r[..|r| - 3][0]; }
    }
    assert IsDigit(r[|r| - 1]) by { assert r[|r| - 1] == r[|r| - 2..][1]; }
  }

  /**
   * clean_amount on any capture of an amount pattern: conversion succeeds
   * and the value is the capture's digits, commas and point deleted, read
   * as a whole number of cents.
   */
  lemma CleanAmountOfCapture(toFloat: FloatParse, c: string)
    requires FloatReadsDecimals(toFloat)
    requires AmountShape(c)
    ensures toFloat(Clean(c)).Some?
    ensures CleanAmount(toFloat, c) == CaptureCents(c) as real / 100.0
    ensures CleanAmount(toFloat, c) >= 0.0
  {
    CleanCapture(c);
  }
}
