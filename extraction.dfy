/**
 * extract_field, extract_date and extract_pay_period: each lower-cases the
 * text, walks its field's pattern list in order, and uses the first match
 * of the first pattern that matches at all; with no match it falls back to
 * 0 (money) or the empty string (dates, periods).
 *
 * The regular-expression engine is not modelled. `findall` stands for
 * re.findall(pattern, text, re.IGNORECASE) on a one-group pattern: the
 * group's capture in every match, left to right. What the capture groups
 * guarantee is stated as the predicates AmountCaptures, DateCaptures and
 * PeriodCaptures, which the shape lemmas take as hypotheses.
 */
module Extraction {
  import opened Options
  import opened PyStr
  import opened Amounts
  import opened Dates
  import opened PatternTable

  /** re.findall(pattern, text, re.IGNORECASE) for a pattern with one group. */
  type Findall = (string, string) -> seq<string>

  /** The library behaviour the processor calls into: the regex engine and float(). */
  datatype Runtime = Runtime(findall: Findall, toFloat: FloatParse)

  /** No pattern of `ps` matches anywhere in `text`. */
  ghost predicate NoneMatch(findall: Findall, ps: seq<string>, text: string) {
    forall k :: 0 <= k < |ps| ==> findall(ps[k], text) == []
  }

  /** Pattern k is the first of `ps`, in list order, that has any match. */
  ghost predicate Selected(findall: Findall, ps: seq<string>, text: string, k: nat) {
    && k < |ps|
    && findall(ps[k], text) != []
    && forall j :: 0 <= j < k ==> findall(ps[j], text) == []
  }

  /**
   * The find-first loop the three extractors share: the first match of the
   * first pattern that matches, or None when no pattern matches.
   */
  function FirstMatch(findall: Findall, ps: seq<string>, text: string): (r: Option<string>)
    ensures r == None <==> NoneMatch(findall, ps, text)
  {
    if ps == [] then None
    else
      var matches := findall(ps[0], text);
      if matches != [] then Some(matches[0])
      else
        assert forall k :: 1 <= k < |ps| ==> ps[k] == ps[1..][k - 1];
        FirstMatch(findall, ps[1..], text)
  }

  /** The first pattern with a match decides the result: its first match. */
  lemma {:induction false} FirstMatchSelects(findall: Findall, ps: seq<string>, text: string, k: nat)
    requires Selected(findall, ps, text, k)
    ensures FirstMatch(findall, ps, text) == Some(findall(ps[k], text)[0])
  {
    if k > 0 {
      assert findall(ps[0], text) == [];
      assert forall j :: 0 <= j < k - 1 ==> ps[1..][j] == ps[j + 1];
      FirstMatchSelects(findall, ps[1..], text, k - 1);
    }
  }

  /** Whenever something matches there is a first matching pattern, and it gave the result. */
  lemma {:induction false} FirstMatchHasWinner(findall: Findall, ps: seq<string>, text: string)
    requires FirstMatch(findall, ps, text).Some?
    ensures exists k: nat :: Selected(findall, ps, text, k)
                        && FirstMatch(findall, ps, text) == Some(findall(ps[k], text)[0])
  {
    if findall(ps[0], text) == [] {
      FirstMatchHasWinner(findall, ps[1..], text);
      var k: nat :| Selected(findall, ps[1..], text, k)
                    && FirstMatch(findall, ps[1..], text) == Some(findall(ps[1..][k], text)[0]);
      assert forall j :: 0 <= j < k ==> ps[1..][j] == ps[j + 1];
      assert Selected(findall, ps, text, k + 1);
    } else {
      assert Selected(findall, ps, text, 0);
    }
  }

  /** Patterns after the one that matched never affect the result. */
  lemma {:induction false} FirstMatchIgnoresLater(findall: Findall, ps: seq<string>, qs: seq<string>, text: string)
    requires FirstMatch(findall, ps, text).Some?
    ensures FirstMatch(findall, ps + qs, text) == FirstMatch(findall, ps, text)
  {
    assert (ps + qs)[0] == ps[0];
    if findall(ps[0], text) == [] {
      assert (ps + qs)[1..] == ps[1..] + qs;
      FirstMatchIgnoresLater(findall, ps[1..], qs, text);
    }
  }

  /** Patterns that match nothing are passed over as if absent. */
  lemma {:induction false} FirstMatchSkipsBarren(findall: Findall, ps: seq<string>, qs: seq<string>, text: string)
    requires FirstMatch(findall, ps, text) == None
    ensures FirstMatch(findall, ps + qs, text) == FirstMatch(findall, qs, text)
  {
    if ps == [] {
      assert ps + qs == qs;
    } else {
      assert (ps + qs)[0] == ps[0] && (ps + qs)[1..] == ps[1..] + qs;
      assert findall(ps[0], text) == [];
      FirstMatchSkipsBarren(findall, ps[1..], qs, text);
    }
  }

  // ---------------------------------------------------------------- the three extractors

  /** extract_field: the cleaned amount of the first match, or 0. */
  function ExtractField(rt: Runtime, text: string, name: string): (r: real)
    ensures NoneMatch(rt.findall, PatternsFor(name), Lower(text)) ==> r == 0.0
    ensures Lookup(name) == None ==> r == 0.0
  {
    match FirstMatch(rt.findall, PatternsFor(name), Lower(text))
    case None => 0.0
    case Some(c) => CleanAmount(rt.toFloat, c)
  }

  /** extract_date: the reformatted first match, or "". */
  function ExtractDate(rt: Runtime, text: string, name: string): (r: string)
    ensures NoneMatch(rt.findall, PatternsFor(name), Lower(text)) ==> r == ""
    ensures Lookup(name) == None ==> r == ""
  {
    match FirstMatch(rt.findall, PatternsFor(name), Lower(text))
    case None => ""
    case Some(d) => ReformatDate(d)
  }

  /** extract_pay_period: the first match of the pay_period patterns as it stands, or "". */
  function ExtractPayPeriod(rt: Runtime, text: string): (r: string)
    ensures NoneMatch(rt.findall, PatternsFor("pay_period"), Lower(text)) ==> r == ""
  {
    match FirstMatch(rt.findall, PatternsFor("pay_period"), Lower(text))
    case None => ""
    case Some(p) => p
  }

  /** extract_field reads the first match of the first matching pattern of the field. */
  lemma ExtractFieldSelects(rt: Runtime, text: string, name: string, k: nat)
    requires Selected(rt.findall, PatternsFor(name), Lower(text), k)
    ensures ExtractField(rt, text, name)
            == CleanAmount(rt.toFloat, rt.findall(PatternsFor(name)[k], Lower(text))[0])
  {
    FirstMatchSelects(rt.findall, PatternsFor(name), Lower(text), k);
  }

  /** extract_date reformats the first match of the first matching pattern of the field. */
  lemma ExtractDateSelects(rt: Runtime, text: string, name: string, k: nat)
    requires Selected(rt.findall, PatternsFor(name), Lower(text), k)
    ensures ExtractDate(rt, text, name)
            == ReformatDate(rt.findall(PatternsFor(name)[k], Lower(text))[0])
  {
    FirstMatchSelects(rt.findall, PatternsFor(name), Lower(text), k);
  }

  /** extract_pay_period returns the first match of the first matching pay_period pattern. */
  lemma ExtractPayPeriodSelects(rt: Runtime, text: string, k: nat)
    requires Selected(rt.findall, PatternsFor("pay_period"), Lower(text), k)
    ensures ExtractPayPeriod(rt, text) == rt.findall(PatternsFor("pay_period")[k], Lower(text))[0]
  {
    FirstMatchSelects(rt.findall, PatternsFor("pay_period"), Lower(text), k);
  }

  /** All three extractors see the text lower-cased, so its letter case does not matter. */
  lemma ExtractionIgnoresCase(rt: Runtime, text: string, name: string)
    ensures ExtractField(rt, Lower(text), name) == ExtractField(rt, text, name)
    ensures ExtractDate(rt, Lower(text), name) == ExtractDate(rt, text, name)
    ensures ExtractPayPeriod(rt, Lower(text)) == ExtractPayPeriod(rt, text)
  {
    LowerIdempotent(text);
  }

  // ---------------------------------------------------------------- what the capture groups guarantee

  /** Every capture of a money field's patterns has the shape [0-9,]+\.[0-9]{2}. */
  ghost predicate AmountCaptures(findall: Findall, f: Field) {
    forall k, t, i :: 0 <= k < |Patterns(f)| && 0 <= i < |findall(Patterns(f)[k], t)|
                      ==> AmountShape(findall(Patterns(f)[k], t)[i])
  }

  /** Every capture of the pay_date patterns has the shape [0-9]{1,2}/[0-9]{1,2}/[0-9]{4}. */
  ghost predicate DateCaptures(findall: Findall) {
    forall k, t, i :: 0 <= k < |Patterns(PayDate)| && 0 <= i < |findall(Patterns(PayDate)[k], t)|
                      ==> DateShape(findall(Patterns(PayDate)[k], t)[i])
  }

  /** `w` is \s*-\s*: a dash with only whitespace around it. */
  ghost predicate DashBetween(w: string) {
    exists k :: 0 <= k < |w| && w[k] == '-' && AllSpace(w[..k]) && AllSpace(w[k + 1..])
  }

  /** Two slash dates joined by a dash, as the pay_period group captures them. */
  ghost predicate PeriodShape(c: string) {
    exists i, j :: 0 <= i <= j <= |c| && DateShape(c[..i]) && DashBetween(c[i..j]) && DateShape(c[j..])
  }

  /** Every capture of the pay_period patterns has the shape of PeriodShape. */
  ghost predicate PeriodCaptures(findall: Findall) {
    forall k, t, i :: 0 <= k < |Patterns(PayPeriod)| && 0 <= i < |findall(Patterns(PayPeriod)[k], t)|
                      ==> PeriodShape(findall(Patterns(PayPeriod)[k], t)[i])
  }

  /** The result of the find-first loop is a capture of one of the field's patterns. */
  lemma FirstMatchIsCapture(findall: Findall, ps: seq<string>, text: string)
    requires FirstMatch(findall, ps, text).Some?
    ensures exists k :: 0 <= k < |ps| && findall(ps[k], text) != []
                        && FirstMatch(findall, ps, text).value == findall(ps[k], text)[0]
  {
    FirstMatchHasWinner(findall, ps, text);
    var k: nat :| Selected(findall, ps, text, k)
                  && FirstMatch(findall, ps, text) == Some(findall(ps[k], text)[0]);
    assert 0 <= k < |ps| && findall(ps[k], text) != [];
  }

  /**
   * A money field always comes out as a non-negative whole number of
   * cents: 0 when nothing matches, otherwise the digits of the first
   * capture with ',' and '.' deleted, read as cents.
   */
  lemma ExtractAmountInCents(rt: Runtime, text: string, f: Field)
    requires f.IsAmount()
    requires AmountCaptures(rt.findall, f)
    requires FloatReadsDecimals(rt.toFloat)
    ensures var r := ExtractField(rt, text, Key(f));
            var m := FirstMatch(rt.findall, Patterns(f), Lower(text));
            && (m == None ==> r == 0.0)
            && (m.Some? ==> AmountShape(m.value) && r == CaptureCents(m.value) as real / 100.0)
            && r >= 0.0
  {
    LookupKey(f);
    var m := FirstMatch(rt.findall, Patterns(f), Lower(text));
    if m.Some? {
      FirstMatchIsCapture(rt.findall, Patterns(f), Lower(text));
      CleanAmountOfCapture(rt.toFloat, m.value);
    }
  }

  /**
   * The pay date is empty exactly when no pay_date pattern matches, and is
   * otherwise a YYYY-MM-DD string built from the first capture.
   */
  lemma ExtractPayDateIso(rt: Runtime, text: string)
    requires DateCaptures(rt.findall)
    ensures var r := ExtractDate(rt, text, "pay_date");
            var m := FirstMatch(rt.findall, Patterns(PayDate), Lower(text));
            && (r == "" <==> NoneMatch(rt.findall, Patterns(PayDate), Lower(text)))
            && (m.Some? ==> DateShape(m.value) && r == ReformatDate(m.value) && IsoShape(r))
  {
    PayDatePatterns();
    var m := FirstMatch(rt.findall, Patterns(PayDate), Lower(text));
    if m.Some? {
      FirstMatchIsCapture(rt.findall, Patterns(PayDate), Lower(text));
      IsoOfCapture(m.value);
    }
  }

  lemma PayDatePatterns()
    ensures PatternsFor("pay_date") == Patterns(PayDate)
  {
    LookupKey(PayDate);
  }

  lemma IsoOfCapture(c: string)
    requires DateShape(c)
    ensures IsoShape(ReformatDate(c)) && ReformatDate(c) != ""
  {
    ReformatCapture(c);
  }

  /**
   * The pay period is empty exactly when no pay_period pattern matches, and
   * is otherwise the first capture as it stands: two dates joined by a dash.
   */
  lemma ExtractPayPeriodShape(rt: Runtime, text: string)
    requires PeriodCaptures(rt.findall)
    ensures var r := ExtractPayPeriod(rt, text);
            var m := FirstMatch(rt.findall, Patterns(PayPeriod), Lower(text));
            && (r == "" <==> NoneMatch(rt.findall, Patterns(PayPeriod), Lower(text)))
            && (m.Some? ==> r == m.value && PeriodShape(r))
  {
    LookupKey(PayPeriod);
    var m := FirstMatch(rt.findall, Patterns(PayPeriod), Lower(text));
    if m.Some? {
      FirstMatchIsCapture(rt.findall, Patterns(PayPeriod), Lower(text));
      var c := m.value;
      var i, j :| 0 <= i <= j <= |c| && DateShape(c[..i]) && DashBetween(c[i..j]) && DateShape(c[j..]);
      assert |c[..i]| >= 8;
    }
  }
}
