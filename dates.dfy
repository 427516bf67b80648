/** Calendar dates as the pages handle them: `YYYY-MM-DD` strings from `<input type="date">`,
    compared through `new Date(...)`. */
module Dates {
  import opened Text

  /** The `YYYY-MM-DD` shape: four, two and two decimal digits separated by hyphens. */
  predicate WellFormed(d: string)
  {
    && |d| == 10 && d[4] == '-' && d[7] == '-'
    && AllDigits(d[..4]) && AllDigits(d[5..7]) && AllDigits(d[8..])
  }

  function Year(d: string): nat
    requires WellFormed(d)
  {
    DigitsValue(d[..4])
  }

  function Month(d: string): nat
    requires WellFormed(d)
  {
    DigitsValue(d[5..7])
  }

  function Day(d: string): nat
    requires WellFormed(d)
  {
    DigitsValue(d[8..])
  }

  /** `new Date(a) <= new Date(b)`, taken as the lexicographic order of the strings. */
  predicate NotAfter(a: string, b: string)
  {
    LexLe(a, b)
  }

  /** `new Date(a) < new Date(b)`. */
  predicate Before(a: string, b: string)
  {
    !LexLe(b, a)
  }

  /** Equal digit strings of one length are exactly those with equal values. */
  lemma DigitsEqual(x: string, x': string)
    requires AllDigits(x) && AllDigits(x') && |x| == |x'|
    ensures x == x' <==> DigitsValue(x) == DigitsValue(x')
  {
    LexLeDigits(x, x');
    LexLeDigits(x', x);
    if DigitsValue(x) == DigitsValue(x') {
      LexLeAntisymmetric(x, x');
    }
  }

  /** A leading field of digits decides the comparison unless the two fields are equal. */
  lemma DigitFieldDecides(x: string, y: string, x': string, y': string)
    requires AllDigits(x) && AllDigits(x') && |x| == |x'|
    ensures LexLe(x + y, x' + y') <==>
              DigitsValue(x) < DigitsValue(x') || (DigitsValue(x) == DigitsValue(x') && LexLe(y, y'))
  {
    LexLeConcat(x, y, x', y');
    LexLeDigits(x, x');
    DigitsEqual(x, x');
  }

  /** A shared separator character does not change the comparison. */
  lemma SeparatorSkipped(y: string, y': string)
    ensures LexLe("-" + y, "-" + y') <==> LexLe(y, y')
  {
    assert ("-" + y)[0] == '-' && ("-" + y)[1..] == y;
    assert ("-" + y')[0] == '-' && ("-" + y')[1..] == y';
  }

  /** For well-formed dates the string order used here is the calendar order: by year, then
      month, then day. This is what lets `new Date(a) <= new Date(b)` be modelled on the
      strings themselves. */
  lemma NotAfterIsCalendarOrder(a: string, b: string)
    requires WellFormed(a) && WellFormed(b)
    ensures NotAfter(a, b) <==>
              || Year(a) < Year(b)
              || (Year(a) == Year(b) && Month(a) < Month(b))
              || (Year(a) == Year(b) && Month(a) == Month(b) && Day(a) <= Day(b))
  {
    assert a == a[..4] + ("-" + (a[5..7] + ("-" + a[8..])));
    assert b == b[..4] + ("-" + (b[5..7] + ("-" + b[8..])));
    DigitFieldDecides(a[..4], "-" + (a[5..7] + ("-" + a[8..])), b[..4], "-" + (b[5..7] + ("-" + b[8..])));
    SeparatorSkipped(a[5..7] + ("-" + a[8..]), b[5..7] + ("-" + b[8..]));
    DigitFieldDecides(a[5..7], "-" + a[8..], b[5..7], "-" + b[8..]);
    SeparatorSkipped(a[8..], b[8..]);
    LexLeDigits(a[8..], b[8..]);
  }

  /** `new Date(a) < new Date(b)` is the strict version of `new Date(a) <= new Date(b)`. */
  lemma BeforeIsStrict(a: string, b: string)
    ensures Before(a, b) <==> NotAfter(a, b) && a != b
  {
    LexLeTotal(a, b);
    LexLeReflexive(a);
    if LexLe(a, b) && LexLe(b, a) {
      LexLeAntisymmetric(a, b);
    }
  }
}
