/**
 * The Python string built-ins the pay-statement processor relies on:
 * str.strip(), str.lower(), str.split(sep), str.zfill(width), and the
 * character-class deletion done by re.sub(r'[,$]', '', s).
 */
module PyStr {

  /** The characters for which Python's str.isspace() holds; str.strip() removes these. */
  predicate IsSpace(c: char) {
    || ('\t' <= c <= '\r')
    || ('\U{1C}' <= c <= '\U{1F}')
    || c == ' '
    || c == '\U{85}'
    || c == '\U{A0}'
    || c == '\U{1680}'
    || ('\U{2000}' <= c <= '\U{200A}')
    || c == '\U{2028}'
    || c == '\U{2029}'
    || c == '\U{202F}'
    || c == '\U{205F}'
    || c == '\U{3000}'
  }

  predicate IsDigit(c: char) {
    '0' <= c <= '9'
  }

  predicate AllDigits(s: string) {
    forall i :: 0 <= i < |s| ==> IsDigit(s[i])
  }

  predicate AllSpace(s: string) {
    forall i :: 0 <= i < |s| ==> IsSpace(s[i])
  }

  /** No whitespace at either end: what str.strip() leaves behind. */
  predicate Trimmed(s: string) {
    s == [] || (!IsSpace(s[0]) && !IsSpace(s[|s| - 1]))
  }

  // ---------------------------------------------------------------- strip

  /** str.lstrip(): the suffix left after dropping leading whitespace. */
  function StripLeft(s: string): (r: string)
    ensures |r| <= |s| && r == s[|s| - |r|..]
    ensures r == [] || !IsSpace(r[0])
  {
    if s != [] && IsSpace(s[0]) then StripLeft(s[1..]) else s
  }

  /** What str.lstrip() cuts off is whitespace. */
  lemma {:induction false} StripLeftCutsSpace(s: string)
    ensures forall k :: 0 <= k < |s| - |StripLeft(s)| ==> IsSpace(s[k])
  {
    if s != [] && IsSpace(s[0]) {
      var t := s[1..];
      StripLeftCutsSpace(t);
      assert StripLeft(s) == StripLeft(t);
      forall k | 0 < k < |s| - |StripLeft(s)| ensures IsSpace(s[k]) {
        assert s[k] == t[k - 1];
      }
    }
  }

  /** str.rstrip(): the prefix left after dropping trailing whitespace. */
  function StripRight(s: string): (r: string)
    ensures |r| <= |s| && r == s[..|r|]
    ensures r == [] || !IsSpace(r[|r| - 1])
  {
    if s != [] && IsSpace(s[|s| - 1]) then StripRight(s[..|s| - 1]) else s
  }

  /** What str.rstrip() cuts off is whitespace. */
  lemma {:induction false} StripRightCutsSpace(s: string)
    ensures forall k :: |StripRight(s)| <= k < |s| ==> IsSpace(s[k])
  {
    if s != [] && IsSpace(s[|s| - 1]) {
      var t := s[..|s| - 1];
      StripRightCutsSpace(t);
      assert StripRight(s) == StripRight(t);
      forall k | |StripRight(s)| <= k < |s| - 1 ensures IsSpace(s[k]) {
        assert s[k] == t[k];
      }
    }
  }

  /** str.strip(): whitespace removed from both ends. */
  function Strip(s: string): (r: string)
    ensures Trimmed(r)
    ensures |r| <= |s|
  {
    StripFront(s);
    StripRight(StripLeft(s))
  }

  /** What str.strip() returns is a piece of the input, starting where str.lstrip() starts. */
  lemma StripIsSlice(s: string)
    ensures var i := |s| - |StripLeft(s)|; var r := Strip(s);
            && i + |r| <= |s|
            && r == s[i..i + |r|]
  {
    var l := StripLeft(s);
    assert Strip(s) == StripRight(l);
    StripSlice(s);
  }

  /** What str.strip() cuts off at either end is whitespace. */
  lemma StripCutsSpace(s: string)
    ensures var i := |s| - |StripLeft(s)|; var r := Strip(s);
            && (forall k :: 0 <= k < i ==> IsSpace(s[k]))
            && (forall k :: i + |r| <= k < |s| ==> IsSpace(s[k]))
  {
    assert Strip(s) == StripRight(StripLeft(s));
    StripBack(s);
    StripLeftCutsSpace(s);
  }

  /** Stripping brings in no character: one absent from the input is absent from the result. */
  lemma StripKeepsOut(s: string, drop: set<char>)
    requires forall i :: 0 <= i < |s| ==> s[i] !in drop
    ensures forall j :: 0 <= j < |Strip(s)| ==> Strip(s)[j] !in drop
  {
    var i := |s| - |StripLeft(s)|;
    var r := Strip(s);
    StripIsSlice(s);
    forall j | 0 <= j < |r| ensures r[j] !in drop {
      assert r[j] == s[i + j];
    }
  }

  lemma StripFront(s: string)
    ensures var r := StripRight(StripLeft(s)); r == [] || !IsSpace(r[0])
  {
    var l := StripLeft(s);
    var r := StripRight(l);
    if r != [] { assert r[0] == l[0]; }
  }

  lemma StripSlice(s: string)
    ensures var l := StripLeft(s); var r := StripRight(l); var i := |s| - |l|;
            r == s[i..i + |r|]
  {
    var l := StripLeft(s);
    var r := StripRight(l);
    assert r == l[..|r|];
  }

  lemma StripBack(s: string)
    ensures var l := StripLeft(s); var r := StripRight(l); var i := |s| - |l|;
            forall k :: i + |r| <= k < |s| ==> IsSpace(s[k])
  {
    var l := StripLeft(s);
    var r := StripRight(l);
    var i := |s| - |l|;
    StripRightCutsSpace(l);
    forall k | i + |r| <= k < |s| ensures IsSpace(s[k]) {
      assert s[k] == l[k - i];
    }
  }

  lemma StripLeftOfTrimmed(s: string)
    requires s == [] || !IsSpace(s[0])
    ensures StripLeft(s) == s
  {
  }

  lemma StripRightOfTrimmed(s: string)
    requires s == [] || !IsSpace(s[|s| - 1])
    ensures StripRight(s) == s
  {
  }

  /** Stripping leaves a string unchanged exactly when it has no surrounding whitespace. */
  lemma StripFixpoint(s: string)
    ensures Strip(s) == s <==> Trimmed(s)
  {
    if Trimmed(s) {
      StripLeftOfTrimmed(s);
      StripRightOfTrimmed(s);
    }
  }

  lemma StripIdempotent(s: string)
    ensures Strip(Strip(s)) == Strip(s)
  {
    StripFixpoint(Strip(s));
  }

  // ---------------------------------------------------------------- lower

  /** ASCII case folding; see README for the non-ASCII part of str.lower(). */
  function LowerChar(c: char): char {
    if 'A' <= c <= 'Z' then (c as int + 32) as char else c
  }

  /** str.lower(), character by character. */
  function Lower(s: string): (r: string)
    ensures |r| == |s|
    ensures forall i :: 0 <= i < |s| ==> r[i] == LowerChar(s[i])
    ensures forall i :: 0 <= i < |r| ==> !('A' <= r[i] <= 'Z')
  {
    seq(|s|, i requires 0 <= i < |s| => LowerChar(s[i]))
  }

  /** Lower-casing a lower-cased text changes nothing. */
  lemma LowerIdempotent(s: string)
    ensures Lower(Lower(s)) == Lower(s)
  {
    assert forall i :: 0 <= i < |s| ==> Lower(Lower(s))[i] == Lower(s)[i];
  }

  // ---------------------------------------------------------------- re.sub(r'[,$]', '', s)

  /** The characters of `s` that are not in `drop`, in their original order. */
  function Without(s: string, drop: set<char>): (r: string)
    ensures |r| <= |s|
    ensures forall i :: 0 <= i < |r| ==> r[i] !in drop
  {
    if s == [] then []
    else if s[0] in drop then Without(s[1..], drop)
    else [s[0]] + Without(s[1..], drop)
  }

  /** Nothing to delete: the string comes back unchanged. */
  lemma {:induction false} WithoutNothing(s: string, drop: set<char>)
    requires forall i :: 0 <= i < |s| ==> s[i] !in drop
    ensures Without(s, drop) == s
  {
    if s != [] {
      WithoutNothing(s[1..], drop);
    }
  }

  /** A string of digits and deletable characters leaves only digits behind. */
  lemma {:induction false} WithoutLeavesDigits(s: string, drop: set<char>)
    requires forall i :: 0 <= i < |s| ==> IsDigit(s[i]) || s[i] in drop
    ensures AllDigits(Without(s, drop))
  {
    if s != [] {
      WithoutLeavesDigits(s[1..], drop);
    }
  }

  /** Every character that survives the deletion was in the input. */
  lemma {:induction false} WithoutKeepsOrigin(s: string, drop: set<char>, k: nat)
    requires k < |Without(s, drop)|
    ensures Without(s, drop)[k] in s
  {
    if s[0] in drop {
      WithoutKeepsOrigin(s[1..], drop, k);
    } else if k > 0 {
      WithoutKeepsOrigin(s[1..], drop, k - 1);
    }
  }

  lemma {:induction false} WithoutConcat(a: string, b: string, drop: set<char>)
    ensures Without(a + b, drop) == Without(a, drop) + Without(b, drop)
  {
    if a == [] {
      assert a + b == b;
    } else {
      assert (a + b)[1..] == a[1..] + b;
      WithoutConcat(a[1..], b, drop);
    }
  }

  /** Deleting the same characters a second time changes nothing. */
  lemma WithoutIdempotent(s: string, drop: set<char>)
    ensures Without(Without(s, drop), drop) == Without(s, drop)
  {
    WithoutNothing(Without(s, drop), drop);
  }

  // ---------------------------------------------------------------- split / join

  /** Number of occurrences of `c` in `s`. */
  function Count(s: string, c: char): nat {
    if s == [] then 0 else (if s[0] == c then 1 else 0) + Count(s[1..], c)
  }

  /** The inverse of Split: '/'.join(parts), for a separator character. */
  function Join(parts: seq<string>, sep: char): string
    requires |parts| >= 1
  {
    if |parts| == 1 then parts[0] else parts[0] + [sep] + Join(parts[1..], sep)
  }

  function IndexOf(s: string, c: char): (k: nat)
    requires c in s
    ensures k < |s| && s[k] == c && c !in s[..k]
  {
    if s[0] == c then 0 else 1 + IndexOf(s[1..], c)
  }

  /**
   * str.split(sep) for a one-character separator: the pieces between
   * separators, one more piece than separators, and joining them back
   * with `sep` gives the input.
   */
  function Split(s: string, sep: char): (parts: seq<string>)
    ensures |parts| == Count(s, sep) + 1
    ensures forall i :: 0 <= i < |parts| ==> sep !in parts[i]
    ensures Join(parts, sep) == s
    decreases |s|
  {
    if sep !in s then
      CountAbsent(s, sep);
      [s]
    else
      var k := IndexOf(s, sep);
      var rest := Split(s[k + 1..], sep);
      SplitAtFirst(s, sep);
      JoinCons(s[..k], rest, sep);
      [s[..k]] + rest
  }

  /** Cutting at the first separator: the part before it holds none. */
  lemma SplitAtFirst(s: string, sep: char)
    requires sep in s
    ensures var k := IndexOf(s, sep);
            && s == s[..k] + [sep] + s[k + 1..]
            && Count(s, sep) == 1 + Count(s[k + 1..], sep)
  {
    var k := IndexOf(s, sep);
    var a, b := s[..k], s[k + 1..];
    SliceAround(s, k);
    CountConcat(a + [sep], b, sep);
    CountConcat(a, [sep], sep);
    CountAbsent(a, sep);
    assert [sep][1..] == [];
  }

  lemma SliceAround(s: string, k: nat)
    requires k < |s|
    ensures s == s[..k] + [s[k]] + s[k + 1..]
  {
    assert s[..k] + s[k..] == s;
    assert s[k..] == [s[k]] + s[k + 1..];
  }

  /** Joining a piece in front of a list of pieces. */
  lemma JoinCons(p: string, rest: seq<string>, sep: char)
    requires |rest| >= 1
    ensures Join([p] + rest, sep) == p + [sep] + Join(rest, sep)
    ensures forall i :: 1 <= i < |[p] + rest| ==> ([p] + rest)[i] == rest[i - 1]
  {
    var parts := [p] + rest;
    assert parts[0] == p && parts[1..] == rest;
  }

  lemma {:induction false} CountAbsent(s: string, c: char)
    requires c !in s
    ensures Count(s, c) == 0
  {
    if s != [] {
      CountAbsent(s[1..], c);
    }
  }

  lemma {:induction false} CountConcat(a: string, b: string, c: char)
    ensures Count(a + b, c) == Count(a, c) + Count(b, c)
  {
    if a == [] {
      assert a + b == b;
    } else {
      assert (a + b)[1..] == a[1..] + b;
      CountConcat(a[1..], b, c);
    }
  }

  /** Splitting a join of separator-free pieces gives the pieces back. */
  lemma {:induction false} SplitJoin(parts: seq<string>, sep: char)
    requires |parts| >= 1
    requires forall i :: 0 <= i < |parts| ==> sep !in parts[i]
    ensures Split(Join(parts, sep), sep) == parts
  {
    var s := Join(parts, sep);
    if |parts| == 1 {
    } else {
      var tail := Join(parts[1..], sep);
      assert s == parts[0] + [sep] + tail;
      IndexOfAfterPrefix(parts[0], sep, tail);
      var k := IndexOf(s, sep);
      assert s[..k] == parts[0];
      assert s[k + 1..] == tail;
      assert Split(s, sep) == [parts[0]] + Split(tail, sep);
      SplitJoin(parts[1..], sep);
      assert parts == [parts[0]] + parts[1..];
    }
  }

  lemma {:induction false} IndexOfAfterPrefix(a: string, c: char, b: string)
    requires c !in a
    ensures c in a + [c] + b && IndexOf(a + [c] + b, c) == |a|
  {
    assert (a + [c] + b)[|a|] == c;
    if a != [] {
      assert (a + [c] + b)[1..] == a[1..] + [c] + b;
      IndexOfAfterPrefix(a[1..], c, b);
    }
  }

  // ---------------------------------------------------------------- zfill

  function Zeros(n: nat): (r: string)
    ensures |r| == n && forall i :: 0 <= i < n ==> r[i] == '0'
  {
    if n == 0 then [] else Zeros(n - 1) + ['0']
  }

  /**
   * str.zfill(width): strings already `width` long or longer come back
   * unchanged; shorter ones get '0's on the left, placed after a leading
   * '+' or '-' sign when there is one.
   */
  function ZFill(s: string, width: nat): (r: string)
    ensures |r| == if |s| >= width then |s| else width
    ensures |s| >= width ==> r == s
    ensures r[|r| - |s|..] == s || (s[0] in "+-" && r[0] == s[0] && r[|r| - |s| + 1..] == s[1..])
    ensures |s| < width ==>
              var o := if s != [] && s[0] in "+-" then 1 else 0;
              && (o == 1 ==> r[0] == s[0])
              && (forall i :: o <= i < o + width - |s| ==> r[i] == '0')
  {
    if |s| >= width then s
    else if s != [] && s[0] in "+-" then [s[0]] + Zeros(width - |s|) + s[1..]
    else Zeros(width - |s|) + s
  }

  /** Zero-filling brings in no character other than '0'. */
  lemma ZFillKeepsOut(s: string, width: nat, c: char)
    requires c !in s && c != '0'
    ensures c !in ZFill(s, width)
  {
    var r := ZFill(s, width);
    if |s| < width {
      var z := Zeros(width - |s|);
      forall k | 0 <= k < |r| ensures r[k] != c {
        if s != [] && s[0] in "+-" {
          assert r == [s[0]] + z + s[1..];
          if k == 0 { } else if k <= |z| { assert r[k] == z[k - 1]; } else { assert r[k] == s[k - |z|]; }
        } else {
          assert r == z + s;
          if k < |z| { assert r[k] == z[k]; } else { assert r[k] == s[k - |z|]; }
        }
      }
    }
  }

  // ---------------------------------------------------------------- decimal digits

  function DigitValue(c: char): nat
    requires IsDigit(c)
  {
    c as int - '0' as int
  }

  /** The number a run of decimal digits denotes (most significant digit first). */
  function DigitsValue(s: string): nat
    requires AllDigits(s)
  {
    if s == [] then 0 else DigitsValue(s[..|s| - 1]) * 10 + DigitValue(s[|s| - 1])
  }

  function Pow10(n: nat): (p: nat)
    ensures p >= 1
  {
    if n == 0 then 1 else 10 * Pow10(n - 1)
  }

  /** Reading `a + b` is reading `a`, shifted left by |b| places, plus reading `b`. */
  lemma {:induction false} DigitsValueConcat(a: string, b: string)
    requires AllDigits(a) && AllDigits(b)
    ensures AllDigits(a + b)
    ensures DigitsValue(a + b) == DigitsValue(a) * Pow10(|b|) + DigitsValue(b)
  {
    if b == [] {
      assert a + b == a;
    } else {
      var b' := b[..|b| - 1];
      assert (a + b)[..|a + b| - 1] == a + b';
      DigitsValueConcat(a, b');
      var x, y, d := DigitsValue(a), DigitsValue(b'), DigitValue(b[|b| - 1]);
      assert DigitsValue(a + b) == DigitsValue(a + b') * 10 + d;
      assert DigitsValue(b) == y * 10 + d;
      assert Pow10(|b|) == Pow10(|b'|) * 10;
      ShiftOneDigit(x, Pow10(|b'|), y, d);
    }
  }

  lemma ShiftOneDigit(x: int, p: int, y: int, d: int)
    ensures (x * p + y) * 10 + d == x * (p * 10) + (y * 10 + d)
  {
  }

  lemma {:induction false} ZerosValue(n: nat)
    ensures AllDigits(Zeros(n)) && DigitsValue(Zeros(n)) == 0
  {
    if n > 0 {
      ZerosValue(n - 1);
      assert Zeros(n)[..n - 1] == Zeros(n - 1);
    }
  }

  /**
   * Zero-filling a digit string keeps it a digit string and does not
   * change the number it denotes.
   */
  lemma ZFillDigits(s: string, width: nat)
    requires AllDigits(s)
    ensures AllDigits(ZFill(s, width))
    ensures DigitsValue(ZFill(s, width)) == DigitsValue(s)
  {
    if |s| < width {
      ZerosValue(width - |s|);
      DigitsValueConcat(Zeros(width - |s|), s);
      ZFillUnsigned(s, width);
    }
  }

  /** A digit string has no sign, so the zeros go in front of it. */
  lemma ZFillUnsigned(s: string, width: nat)
    requires AllDigits(s) && |s| < width
    ensures ZFill(s, width) == Zeros(width - |s|) + s
  {
    if s != [] {
      assert IsDigit(s[0]);
    }
  }
}
