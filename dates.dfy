/**
 * The date rewriting inside extract_date: a match that splits on '/' into
 * exactly three parts month/day/year is rebuilt as year-MM-DD, month and
 * day zero-filled to two characters; any other match is kept as it is.
 */
module Dates {
  import opened PyStr

  /** The reformatting extract_date applies to the match it found. */
  function ReformatDate(d: string): (r: string)
    ensures Count(d, '/') != 2 ==> r == d
    ensures Count(d, '/') == 2 ==> '/' !in r
  {
    var parts := Split(d, '/');
    if |parts| == 3 then
      ZFillKeepsOut(parts[0], 2, '/');
      ZFillKeepsOut(parts[1], 2, '/');
      NoSlashPieces(parts[2], ZFill(parts[0], 2), ZFill(parts[1], 2));
      parts[2] + "-" + ZFill(parts[0], 2) + "-" + ZFill(parts[1], 2)
    else d
  }

  lemma NoSlashPieces(y: string, m: string, d: string)
    requires '/' !in y
    requires '/' !in m && '/' !in d
    ensures '/' !in y + "-" + m + "-" + d
  {
    var r := y + "-" + m + "-" + d;
    assert '/' !in r by {
      forall k | 0 <= k < |r| ensures r[k] != '/' {
        if k < |y| { assert r[k] == y[k]; }
        else if k == |y| { }
        else if k < |y| + 1 + |m| { assert r[k] == m[k - |y| - 1]; }
        else if k == |y| + 1 + |m| { }
        else { assert r[k] == d[k - |y| - |m| - 2]; }
      }
    }
  }

  /** A date laid out m/d/y with a month of `ml` digits and a day of `dl` digits. */
  predicate SlashDate(c: string, ml: nat, dl: nat) {
    && |c| == ml + dl + 6
    && AllDigits(c[..ml]) && c[ml] == '/'
    && AllDigits(c[ml + 1..ml + 1 + dl]) && c[ml + 1 + dl] == '/'
    && AllDigits(c[ml + dl + 2..])
  }

  /** The capture group of the pay_date patterns, [0-9]{1,2}/[0-9]{1,2}/[0-9]{4}. */
  predicate DateShape(c: string) {
    SlashDate(c, 1, 1) || SlashDate(c, 1, 2) || SlashDate(c, 2, 1) || SlashDate(c, 2, 2)
  }

  /** The layout YYYY-MM-DD, all digits except the two dashes. */
  predicate IsoShape(r: string) {
    && |r| == 10
    && AllDigits(r[..4]) && r[4] == '-'
    && AllDigits(r[5..7]) && r[7] == '-'
    && AllDigits(r[8..])
  }

  /** The pieces of a three-part match, joined back with '/'. */
  lemma JoinThree(m: string, d: string, y: string)
    ensures Join([m, d, y], '/') == m + "/" + d + "/" + y
  {
    var parts := [m, d, y];
    assert parts[1..] == [d, y] && [d, y][1..] == [y];
    assert Join([d, y], '/') == d + ['/'] + y;
    assert Join(parts, '/') == m + ['/'] + (d + ['/'] + y);
  }

  /** A three-part match m/d/y is rebuilt as y-zfill(m)-zfill(d). */
  lemma ReformatThreeParts(m: string, d: string, y: string)
    requires '/' !in m && '/' !in d && '/' !in y
    ensures Split(m + "/" + d + "/" + y, '/') == [m, d, y]
    ensures ReformatDate(m + "/" + d + "/" + y) == y + "-" + ZFill(m, 2) + "-" + ZFill(d, 2)
  {
    JoinThree(m, d, y);
    SplitJoin([m, d, y], '/');
  }

  /**
   * Every capture of the pay_date patterns becomes a ten-character
   * YYYY-MM-DD string that keeps the year as written and the month and
   * day values as written.
   */
  lemma ReformatCapture(c: string)
    requires DateShape(c)
    ensures var parts := Split(c, '/');
            && |parts| == 3
            && AllDigits(parts[0]) && AllDigits(parts[1])
            && IsoShape(ReformatDate(c))
            && ReformatDate(c)[..4] == parts[2]
            && DigitsValue(ReformatDate(c)[5..7]) == DigitsValue(parts[0])
            && DigitsValue(ReformatDate(c)[8..]) == DigitsValue(parts[1])
  {
    if SlashDate(c, 1, 1) {
      ReformatSlashDate(c, 1, 1);
    } else if SlashDate(c, 1, 2) {
      ReformatSlashDate(c, 1, 2);
    } else if SlashDate(c, 2, 1) {
      ReformatSlashDate(c, 2, 1);
    } else {
      ReformatSlashDate(c, 2, 2);
    }
  }

  lemma AllDigitsNoSlash(s: string)
    requires AllDigits(s)
    ensures '/' !in s
  {
    assert forall k :: 0 <= k < |s| ==> s[k] != '/';
  }

  lemma SlashDateParts(c: string, ml: nat, dl: nat)
    requires SlashDate(c, ml, dl)
    ensures c == c[..ml] + "/" + c[ml + 1..ml + 1 + dl] + "/" + c[ml + dl + 2..]
  {
    var m, d, y := c[..ml], c[ml + 1..ml + 1 + dl], c[ml + dl + 2..];
    var t := m + "/" + d + "/" + y;
    assert |t| == |c|;
    forall k | 0 <= k < |c| ensures t[k] == c[k] {
      if k < ml { assert t[k] == m[k]; }
      else if k == ml { }
      else if k < ml + 1 + dl { assert t[k] == d[k - ml - 1]; }
      else if k == ml + 1 + dl { }
      else { assert t[k] == y[k - ml - dl - 2]; }
    }
  }

  lemma ReformatSlashDate(c: string, ml: nat, dl: nat)
    requires 1 <= ml <= 2 && 1 <= dl <= 2 && SlashDate(c, ml, dl)
    ensures var parts := Split(c, '/');
            && |parts| == 3
            && AllDigits(parts[0]) && AllDigits(parts[1])
            && IsoShape(ReformatDate(c))
            && ReformatDate(c)[..4] == parts[2]
            && DigitsValue(ReformatDate(c)[5..7]) == DigitsValue(parts[0])
            && DigitsValue(ReformatDate(c)[8..]) == DigitsValue(parts[1])
  {
    var m, d, y := c[..ml], c[ml + 1..ml + 1 + dl], c[ml + dl + 2..];
    SlashDateParts(c, ml, dl);
    AllDigitsNoSlash(m);
    AllDigitsNoSlash(d);
    AllDigitsNoSlash(y);
    ReformatThreeParts(m, d, y);
    ZFillDigits(m, 2);
    ZFillDigits(d, 2);
    IsoPieces(y, ZFill(m, 2), ZFill(d, 2));
  }

  /** A four-digit year, a two-digit month and a two-digit day joined by dashes. */
  lemma IsoPieces(y: string, m: string, d: string)
    requires |y| == 4 && |m| == 2 && |d| == 2
    requires AllDigits(y) && AllDigits(m) && AllDigits(d)
    ensures var r := y + "-" + m + "-" + d;
            IsoShape(r) && r[..4] == y && r[5..7] == m && r[8..] == d
  {
    var r := y + "-" + m + "-" + d;
    assert r[..4] == y;
    assert r[5..7] == m;
    assert r[8..] == d;
  }
}
