/**
 * The processor's pattern table: for each field, the regular expressions
 * tried in order. Every expression has exactly one capture group: money
 * fields capture [0-9,]+\.[0-9]{2}, the pay date [0-9]{1,2}/[0-9]{1,2}/[0-9]{4},
 * and the pay period two such dates joined by a dash.
 *
 * The table is a dictionary keyed by field name. Here the eleven keys are
 * the constructors of Field, Key gives each one's name, Lookup finds the
 * field a name stands for, and PatternsFor is the dictionary's
 * get(name, []).
 */
module PatternTable {
  import opened Options

  datatype Field =
    | GrossAmount | NetAmount | FederalTax | StateTax | SocialSecurity | Medicare
    | Employee401k | Employer401kMatch | HealthInsurance | PayPeriod | PayDate
  {
    /** The fields whose patterns capture money amounts. */
    predicate IsAmount() {
      !PayPeriod? && !PayDate?
    }
  }

  /** The dictionary key of each field. */
  function Key(f: Field): string {
    match f
    case GrossAmount => "gross_amount"
    case NetAmount => "net_amount"
    case FederalTax => "federal_tax"
    case StateTax => "state_tax"
    case SocialSecurity => "social_security"
    case Medicare => "medicare"
    case Employee401k => "employee_401k"
    case Employer401kMatch => "employer_401k_match"
    case HealthInsurance => "health_insurance"
    case PayPeriod => "pay_period"
    case PayDate => "pay_date"
  }

  /** The field a dictionary key stands for, if any. */
  function Lookup(name: string): (r: Option<Field>)
    ensures r.Some? ==> Key(r.value) == name
  {
    if name == "gross_amount" then Some(GrossAmount)
    else if name == "net_amount" then Some(NetAmount)
    else if name == "federal_tax" then Some(FederalTax)
    else if name == "state_tax" then Some(StateTax)
    else if name == "social_security" then Some(SocialSecurity)
    else if name == "medicare" then Some(Medicare)
    else if name == "employee_401k" then Some(Employee401k)
    else if name == "employer_401k_match" then Some(Employer401kMatch)
    else if name == "health_insurance" then Some(HealthInsurance)
    else if name == "pay_period" then Some(PayPeriod)
    else if name == "pay_date" then Some(PayDate)
    else None
  }

  /** The keys are distinct: every field is found under its own key. */
  lemma LookupKey(f: Field)
    ensures Lookup(Key(f)) == Some(f)
  {
    match f
    case GrossAmount =>
    case NetAmount =>
    case FederalTax =>
    case StateTax =>
    case SocialSecurity =>
    case Medicare =>
    case Employee401k =>
    case Employer401kMatch =>
    case HealthInsurance =>
    case PayPeriod =>
    case PayDate =>
  }

  /** The patterns of one field, in the order the processor tries them. */
  function Patterns(f: Field): seq<string> {
    match f
    case GrossAmount => [
      @"gross\s+(?:pay|amount|earnings?)\s*:?\s*\$?([0-9,]+\.[0-9]{2})",
      @"total\s+(?:gross|earnings?)\s*:?\s*\$?([0-9,]+\.[0-9]{2})",
      @"gross\s*:?\s*\$?([0-9,]+\.[0-9]{2})",
      @"earnings?\s*:?\s*\$?([0-9,]+\.[0-9]{2})"
    ]
    case NetAmount => [
      @"net\s+(?:pay|amount)\s*:?\s*\$?([0-9,]+\.[0-9]{2})",
      @"take[-\s]?home\s*:?\s*\$?([0-9,]+\.[0-9]{2})",
      @"net\s*:?\s*\$?([0-9,]+\.[0-9]{2})"
    ]
    case FederalTax => [
      @"federal\s+(?:income\s+)?tax\s*:?\s*\$?([0-9,]+\.[0-9]{2})",
      @"fed(?:eral)?\s+tax\s*:?\s*\$?([0-9,]+\.[0-9]{2})"
    ]
    case StateTax => [
      @"state\s+(?:income\s+)?tax\s*:?\s*\$?([0-9,]+\.[0-9]{2})",
      @"state\s+tax\s*:?\s*\$?([0-9,]+\.[0-9]{2})"
    ]
    case SocialSecurity => [
      @"social\s+security\s*:?\s*\$?([0-9,]+\.[0-9]{2})",
      @"FICA\s+SS\s*:?\s*\$?([0-9,]+\.[0-9]{2})",
      @"soc\s+sec\s*:?\s*\$?([0-9,]+\.[0-9]{2})"
    ]
    case Medicare => [
      @"medicare\s*:?\s*\$?([0-9,]+\.[0-9]{2})",
      @"FICA\s+MED\s*:?\s*\$?([0-9,]+\.[0-9]{2})"
    ]
    case Employee401k => [
      @"(?:employee|emp)\s+401[k]\s*:?\s*\$?([0-9,]+\.[0-9]{2})",
      @"401[k]\s+(?:contrib|contribution|deduction)\s*:?\s*\$?([0-9,]+\.[0-9]{2})",
      @"401[k]\s+deferred\s*:?\s*\$?([0-9,]+\.[0-9]{2})"
    ]
    case Employer401kMatch => [
      @"(?:employer|company)\s+401[k]\s+match\s*:?\s*\$?([0-9,]+\.[0-9]{2})",
      @"401[k]\s+match\s*:?\s*\$?([0-9,]+\.[0-9]{2})",
      @"match\s+401[k]\s*:?\s*\$?([0-9,]+\.[0-9]{2})"
    ]
    case HealthInsurance => [
      @"health\s+(?:insurance|ins)\s*:?\s*\$?([0-9,]+\.[0-9]{2})",
      @"medical\s+(?:insurance|ins)\s*:?\s*\$?([0-9,]+\.[0-9]{2})",
      @"health\s+deduction\s*:?\s*\$?([0-9,]+\.[0-9]{2})"
    ]
    case PayPeriod => [
      @"pay\s+period\s*:?\s*([0-9]{1,2}/[0-9]{1,2}/[0-9]{4}\s*-\s*[0-9]{1,2}/[0-9]{1,2}/[0-9]{4})",
      @"period\s*:?\s*([0-9]{1,2}/[0-9]{1,2}/[0-9]{4}\s*-\s*[0-9]{1,2}/[0-9]{1,2}/[0-9]{4})"
    ]
    case PayDate => [
      @"pay\s+date\s*:?\s*([0-9]{1,2}/[0-9]{1,2}/[0-9]{4})",
      @"check\s+date\s*:?\s*([0-9]{1,2}/[0-9]{1,2}/[0-9]{4})",
      @"date\s*:?\s*([0-9]{1,2}/[0-9]{1,2}/[0-9]{4})"
    ]
  }

  /** The dictionary's get(name, []): an unknown name has no patterns. */
  function PatternsFor(name: string): (ps: seq<string>)
    ensures Lookup(name) == None ==> ps == []
  {
    match Lookup(name)
    case None => []
    case Some(f) => Patterns(f)
  }
}
