/**
 * The pay-statement record process_file builds from the extracted text:
 * nine money fields read by extract_field, the pay period and the pay
 * date, four money fields the processor never reads (always 0), and the
 * source tag "OCR".
 */
module Statement {
  import opened PyStr
  import opened Amounts
  import opened Dates
  import opened PatternTable
  import opened Extraction

  /** The dictionary process_file returns, one constructor field per key. */
  datatype PaycheckRecord = PaycheckRecord(
    payPeriod: string,
    grossAmount: real,
    federalTaxAmount: real,
    stateTaxAmount: real,
    localTaxAmount: real,
    medicareAmount: real,
    socialSecurityAmount: real,
    employee401kContribution: real,
    employer401kMatch: real,
    healthInsurance: real,
    otherPreTaxDeductions: real,
    garnishments: real,
    otherPostTaxDeductions: real,
    netAmount: real,
    payDate: string,
    sourceSystem: string)

  /** The record built from the text of one pay statement. */
  function BuildRecord(rt: Runtime, text: string): (rec: PaycheckRecord)
    ensures rec.localTaxAmount == 0.0
    ensures rec.otherPreTaxDeductions == 0.0
    ensures rec.garnishments == 0.0
    ensures rec.otherPostTaxDeductions == 0.0
    ensures rec.sourceSystem == "OCR"
  {
    PaycheckRecord(
      payPeriod := ExtractPayPeriod(rt, text),
      grossAmount := ExtractField(rt, text, "gross_amount"),
      federalTaxAmount := ExtractField(rt, text, "federal_tax"),
      stateTaxAmount := ExtractField(rt, text, "state_tax"),
      localTaxAmount := 0.0,
      medicareAmount := ExtractField(rt, text, "medicare"),
      socialSecurityAmount := ExtractField(rt, text, "social_security"),
      employee401kContribution := ExtractField(rt, text, "employee_401k"),
      employer401kMatch := ExtractField(rt, text, "employer_401k_match"),
      healthInsurance := ExtractField(rt, text, "health_insurance"),
      otherPreTaxDeductions := 0.0,
      garnishments := 0.0,
      otherPostTaxDeductions := 0.0,
      netAmount := ExtractField(rt, text, "net_amount"),
      payDate := ExtractDate(rt, text, "pay_date"),
      sourceSystem := "OCR")
  }

  /** A non-negative whole number of cents. */
  predicate WholeCents(x: real) {
    x >= 0.0 && (x * 100.0).Floor as real == x * 100.0
  }

  /** Every money field the processor reads comes out as whole cents. */
  lemma MoneyFieldInCents(rt: Runtime, text: string, f: Field)
    requires f.IsAmount()
    requires AmountCaptures(rt.findall, f)
    requires FloatReadsDecimals(rt.toFloat)
    ensures WholeCents(ExtractField(rt, text, Key(f)))
  {
    ExtractAmountInCents(rt, text, f);
    var m := FirstMatch(rt.findall, Patterns(f), Lower(text));
    var n: nat := if m.Some? then CaptureCents(m.value) else 0;
    CentsAreWhole(n, ExtractField(rt, text, Key(f)));
  }

  lemma CentsAreWhole(n: nat, x: real)
    requires x == n as real / 100.0
    ensures WholeCents(x)
  {
    assert x * 100.0 == n as real;
    assert (n as real).Floor == n;
  }

  /** The money fields of the record are non-negative whole numbers of cents. */
  lemma RecordAmountsInCents(rt: Runtime, text: string)
    requires forall f: Field :: f.IsAmount() ==> AmountCaptures(rt.findall, f)
    requires FloatReadsDecimals(rt.toFloat)
    ensures var rec := BuildRecord(rt, text);
            && WholeCents(rec.grossAmount) && WholeCents(rec.netAmount)
            && WholeCents(rec.federalTaxAmount) && WholeCents(rec.stateTaxAmount)
            && WholeCents(rec.localTaxAmount)
            && WholeCents(rec.medicareAmount) && WholeCents(rec.socialSecurityAmount)
            && WholeCents(rec.employee401kContribution) && WholeCents(rec.employer401kMatch)
            && WholeCents(rec.healthInsurance)
            && WholeCents(rec.otherPreTaxDeductions) && WholeCents(rec.garnishments)
            && WholeCents(rec.otherPostTaxDeductions)
  {
    MoneyFieldInCents(rt, text, GrossAmount);
    MoneyFieldInCents(rt, text, NetAmount);
    MoneyFieldInCents(rt, text, FederalTax);
    MoneyFieldInCents(rt, text, StateTax);
    MoneyFieldInCents(rt, text, Medicare);
    MoneyFieldInCents(rt, text, SocialSecurity);
    MoneyFieldInCents(rt, text, Employee401k);
    MoneyFieldInCents(rt, text, Employer401kMatch);
    MoneyFieldInCents(rt, text, HealthInsurance);
  }

  /**
   * The pay date of the record is empty or YYYY-MM-DD, and the pay period
   * is empty or two dates joined by a dash.
   */
  lemma RecordDatesShaped(rt: Runtime, text: string)
    requires DateCaptures(rt.findall) && PeriodCaptures(rt.findall)
    ensures var rec := BuildRecord(rt, text);
            && (rec.payDate == "" || IsoShape(rec.payDate))
            && (rec.payPeriod == "" || PeriodShape(rec.payPeriod))
  {
    ExtractPayDateIso(rt, text);
    ExtractPayPeriodShape(rt, text);
  }

  /** The record depends on the text only up to letter case. */
  lemma RecordIgnoresCase(rt: Runtime, text: string)
    ensures BuildRecord(rt, Lower(text)) == BuildRecord(rt, text)
  {
    LowerIdempotent(text);
  }

  /**
   * A text in which no pattern of the table matches gives the record of
   * zeros and empty strings.
   */
  lemma RecordWhenNothingMatches(rt: Runtime, text: string)
    requires forall f: Field :: NoneMatch(rt.findall, Patterns(f), Lower(text))
    ensures BuildRecord(rt, text)
            == PaycheckRecord("", 0.0, 0.0, 0.0, 0.0, 0.0, 0.0, 0.0, 0.0, 0.0, 0.0, 0.0, 0.0, 0.0, "", "OCR")
  {
    LookupKey(GrossAmount);
    LookupKey(NetAmount);
    LookupKey(FederalTax);
    LookupKey(StateTax);
    LookupKey(SocialSecurity);
    LookupKey(Medicare);
    LookupKey(Employee401k);
    LookupKey(Employer401kMatch);
    LookupKey(HealthInsurance);
    LookupKey(PayPeriod);
    LookupKey(PayDate);
  }
}
