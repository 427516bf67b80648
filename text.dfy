/** Characters and decimal digit strings, as JavaScript's regular expressions and number
    formatting see them. */
module Text {

  /** `\d` in a JavaScript regular expression: an ASCII digit only. */
  predicate IsDigit(c: char)
  {
    '0' <= c <= '9'
  }

  predicate IsAsciiLetter(c: char)
  {
    'a' <= c <= 'z' || 'A' <= c <= 'Z'
  }

  /** `\s` in a JavaScript regular expression, which is also the set `String.prototype.trim`
      strips: the WhiteSpace characters (tab, vertical tab, form feed, space, no-break space,
      byte order mark and the other space separators) and the LineTerminator characters. */
  predicate IsSpace(c: char)
  {
    || c == '\t' || c == '\n' || c == '\U{000B}' || c == '\U{000C}' || c == '\r'
    || c == ' ' || c == '\U{00A0}' || c == '\U{1680}'
    || ('\U{2000}' <= c <= '\U{200A}')
    || c == '\U{2028}' || c == '\U{2029}' || c == '\U{202F}' || c == '\U{205F}'
    || c == '\U{3000}' || c == '\U{FEFF}'
  }

  /** `value.trim() === ""`. */
  predicate IsBlank(s: string)
  {
    forall i :: 0 <= i < |s| ==> IsSpace(s[i])
  }

  predicate AllDigits(s: string)
  {
    forall i :: 0 <= i < |s| ==> IsDigit(s[i])
  }

  function DigitValue(c: char): (d: nat)
    requires IsDigit(c)
    ensures d < 10
  {
    (c as int - '0' as int) as nat
  }

  function DigitChar(d: nat): (c: char)
    requires d < 10
    ensures IsDigit(c) && DigitValue(c) == d
  {
    ('0' as int + d) as char
  }

  /** The number a string of decimal digits denotes, read left to right. */
  function DigitsValue(s: string): nat
    requires AllDigits(s)
  {
    if s == [] then 0 else DigitsValue(s[..|s| - 1]) * 10 + DigitValue(s[|s| - 1])
  }

  /** The decimal rendering of a natural number: no sign, no leading zero. */
  function NatToString(n: nat): (r: string)
    ensures |r| >= 1 && AllDigits(r)
    ensures r[0] == '0' ==> n == 0
  {
    if n < 10 then [DigitChar(n)] else NatToString(n / 10) + [DigitChar(n % 10)]
  }

  lemma {:induction false} NatToStringRoundTrip(n: nat)
    ensures DigitsValue(NatToString(n)) == n
  {
    var r := NatToString(n);
    if n >= 10 {
      NatToStringRoundTrip(n / 10);
      assert r[..|r| - 1] == NatToString(n / 10);
    }
  }

  /** Lexicographic order on strings, by code point. */
  predicate LexLe(a: string, b: string)
  {
    if a == [] then true
    else if b == [] then false
    else if a[0] != b[0] then a[0] < b[0]
    else LexLe(a[1..], b[1..])
  }

  lemma {:induction false} LexLeReflexive(a: string)
    ensures LexLe(a, a)
  {
    if a != [] {
      LexLeReflexive(a[1..]);
    }
  }

  lemma {:induction false} LexLeTotal(a: string, b: string)
    ensures LexLe(a, b) || LexLe(b, a)
  {
    if a != [] && b != [] && a[0] == b[0] {
      LexLeTotal(a[1..], b[1..]);
    }
  }

  lemma {:induction false} LexLeAntisymmetric(a: string, b: string)
    requires LexLe(a, b) && LexLe(b, a)
    ensures a == b
  {
    if a != [] && b != [] {
      LexLeAntisymmetric(a[1..], b[1..]);
      assert a == [a[0]] + a[1..];
      assert b == [b[0]] + b[1..];
    }
  }

  lemma {:induction false} LexLeTransitive(a: string, b: string, c: string)
    requires LexLe(a, b) && LexLe(b, c)
    ensures LexLe(a, c)
  {
    if a != [] && b != [] && c != [] && a[0] == b[0] && b[0] == c[0] {
      LexLeTransitive(a[1..], b[1..], c[1..]);
    }
  }

  /** Comparing two strings that start with prefixes of the same length: the prefixes decide,
      and only when they are equal do the rests. */
  lemma {:induction false} LexLeConcat(x: string, y: string, x': string, y': string)
    requires |x| == |x'|
    ensures LexLe(x + y, x' + y') <==> (x != x' && LexLe(x, x')) || (x == x' && LexLe(y, y'))
  {
    if x != [] {
      assert (x + y)[0] == x[0] && (x' + y')[0] == x'[0];
      assert (x + y)[1..] == x[1..] + y;
      assert (x' + y')[1..] == x'[1..] + y';
      LexLeConcat(x[1..], y, x'[1..], y');
      if x[0] == x'[0] {
        assert x == [x[0]] + x[1..] && x' == [x'[0]] + x'[1..];
        assert x == x' <==> x[1..] == x'[1..];
      }
    } else {
      assert x + y == y && x' + y' == y';
    }
  }

  function Pow10(k: nat): (p: nat)
    ensures p >= 1
  {
    if k == 0 then 1 else 10 * Pow10(k - 1)
  }

  /** A digit string of length k denotes a number below 10^k. */
  lemma {:induction false} DigitsValueBound(s: string)
    requires AllDigits(s)
    ensures DigitsValue(s) < Pow10(|s|)
  {
    if s != [] {
      DigitsValueBound(s[..|s| - 1]);
    }
  }

  /** Reading a digit string from its leading digit. */
  lemma {:induction false} DigitsValueFront(s: string)
    requires AllDigits(s) && s != []
    ensures DigitsValue(s) == DigitValue(s[0]) * Pow10(|s| - 1) + DigitsValue(s[1..])
  {
    if |s| > 1 {
      var init := s[..|s| - 1];
      var d, p, r, x := DigitValue(s[0]), Pow10(|s| - 2), DigitsValue(init[1..]), DigitValue(s[|s| - 1]);
      DigitsValueFront(init);
      assert DigitsValue(init) == d * p + r;
      assert init[1..] == s[1..][..|s[1..]| - 1];
      assert DigitsValue(s[1..]) == r * 10 + x;
      assert DigitsValue(s) == (d * p + r) * 10 + x;
      ShiftDigit(d, p, r, x);
    }
  }

  lemma ShiftDigit(d: nat, p: nat, r: nat, x: nat)
    ensures (d * p + r) * 10 + x == d * (10 * p) + (r * 10 + x)
  {
  }

  /** A smaller leading digit wins whatever follows it. */
  lemma LeadingDigitDecides(da: nat, db: nat, p: nat, va: nat, vb: nat)
    requires da < db && va < p
    ensures da * p + va < db * p + vb
  {
    calc {
      da * p + va;
    <  da * p + p;
    == (da + 1) * p;
    <= { assert da + 1 <= db; } db * p;
    <= db * p + vb;
    }
  }

  /** On digit strings of equal length, lexicographic order is numeric order. */
  lemma {:induction false} LexLeDigits(a: string, b: string)
    requires AllDigits(a) && AllDigits(b) && |a| == |b|
    ensures LexLe(a, b) <==> DigitsValue(a) <= DigitsValue(b)
  {
    if a != [] {
      DigitsValueFront(a);
      DigitsValueFront(b);
      DigitsValueBound(a[1..]);
      DigitsValueBound(b[1..]);
      LexLeDigits(a[1..], b[1..]);
      var p := Pow10(|a| - 1);
      var da, db := DigitValue(a[0]), DigitValue(b[0]);
      if da < db {
        LeadingDigitDecides(da, db, p, DigitsValue(a[1..]), DigitsValue(b[1..]));
      } else if db < da {
        LeadingDigitDecides(db, da, p, DigitsValue(b[1..]), DigitsValue(a[1..]));
      } else {
        assert a[0] == b[0];
      }
    }
  }
}
