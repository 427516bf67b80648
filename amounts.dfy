/** Money amounts as strings: the two patterns the add form checks, the value `parseFloat`
    reads from them (in whole cents) and the two-decimal rendering `toFixed(2)` gives back. */
module Amounts {
  import opened Common
  import opened Text

  /** Index of the first '.' in `s`, if there is one. */
  function DotAt(s: string): (r: Option<nat>)
    ensures r.Some? ==> r.value < |s| && s[r.value] == '.' && forall j :: 0 <= j < r.value ==> s[j] != '.'
    ensures r.None? ==> forall j :: 0 <= j < |s| ==> s[j] != '.'
  {
    if s == [] then None
    else if s[0] == '.' then Some(0)
    else match DotAt(s[1..])
      case None => None
      case Some(k) => Some(k + 1)
  }

  /** The pattern an amount must match on submit, `^\d+(\.\d{1,2})?$`: one or more digits,
      optionally followed by a point and one or two digits. */
  predicate SubmitAmount(s: string)
  {
    match DotAt(s)
    case None => |s| >= 1 && AllDigits(s)
    case Some(k) => k >= 1 && AllDigits(s[..k]) && AllDigits(s[k + 1..]) && 1 <= |s| - k - 1 <= 2
  }

  /** The pattern every keystroke in the amount field must keep, `^\d*\.?\d{0,2}$`: digits,
      then optionally a point followed by at most two digits. */
  predicate KeystrokeAmount(s: string)
  {
    match DotAt(s)
    case None => AllDigits(s)
    case Some(k) => AllDigits(s[..k]) && AllDigits(s[k + 1..]) && |s| - k - 1 <= 2
  }

  /** The cents that one or two digits after the point stand for. */
  function FractionCents(f: string): (c: nat)
    requires AllDigits(f) && |f| <= 2
    ensures c < 100
  {
    if |f| == 0 then 0
    else if |f| == 1 then 10 * DigitValue(f[0])
    else 10 * DigitValue(f[0]) + DigitValue(f[1])
  }

  /** `parseFloat(s)` in cents, `None` standing for NaN. Defined on the strings the amount
      field can hold (the keystroke pattern): a point alone and the empty string are NaN,
      as they are for `parseFloat`; every other string is read as NaN too. */
  function ParseCents(s: string): (r: Option<nat>)
    ensures r.Some? ==> KeystrokeAmount(s)
    ensures SubmitAmount(s) ==> r.Some?
  {
    if !KeystrokeAmount(s) then None
    else match DotAt(s)
      case None => if s == [] then None else Some(DigitsValue(s) * 100)
      case Some(k) =>
        if k == 0 && |s| == 1 then None
        else Some(DigitsValue(s[..k]) * 100 + FractionCents(s[k + 1..]))
  }

  /** A run of digits followed by a point has its first point right there. */
  lemma {:induction false} DotAfterDigits(x: string, y: string)
    requires AllDigits(x)
    ensures DotAt(x + "." + y) == Some(|x|)
  {
    if x != [] {
      assert (x + "." + y)[1..] == x[1..] + "." + y;
      DotAfterDigits(x[1..], y);
    }
  }

  /** `(c / 100).toFixed(2)`: the whole part without leading zeros, a point, two digits. */
  function ToFixed2(c: nat): (r: string)
    ensures SubmitAmount(r)
    ensures |r| >= 4 && r[|r| - 3] == '.'
  {
    var whole := NatToString(c / 100);
    var r := whole + "." + [DigitChar(c % 100 / 10), DigitChar(c % 10)];
    DotAfterDigits(whole, [DigitChar(c % 100 / 10), DigitChar(c % 10)]);
    assert r[..|whole|] == whole;
    r
  }

  /** Reading back a rendered amount gives the cents it was rendered from. */
  lemma ToFixed2RoundTrip(c: nat)
    ensures ParseCents(ToFixed2(c)) == Some(c)
  {
    var whole := NatToString(c / 100);
    var frac := [DigitChar(c % 100 / 10), DigitChar(c % 10)];
    var r := ToFixed2(c);
    DotAfterDigits(whole, frac);
    assert r[..|whole|] == whole;
    assert r[|whole| + 1..] == frac;
    NatToStringRoundTrip(c / 100);
    assert FractionCents(frac) == c % 100;
  }

  /** `parseFloat(amount).toFixed(2)` on an amount that passed the submit check. */
  function Normalize(s: string): (r: string)
    requires SubmitAmount(s)
    ensures SubmitAmount(r) && |r| >= 4 && r[|r| - 3] == '.'
    ensures ParseCents(r) == ParseCents(s)
  {
    var c := ParseCents(s).value;
    ToFixed2RoundTrip(c);
    ToFixed2(c)
  }

  /** Normalising an already normalised amount changes nothing. */
  lemma NormalizeIdempotent(s: string)
    requires SubmitAmount(s)
    ensures Normalize(Normalize(s)) == Normalize(s)
  {
  }

  lemma NormalizeExample1()
    ensures Normalize("3.5") == "3.50"
  {
    DotAfterDigits("3", "5");
    assert "3" + "." + "5" == "3.5";
    assert "3.5"[..1] == "3" && "3.5"[2..] == "5";
    assert ParseCents("3.5") == Some(350);
    assert NatToString(3) == "3";
    assert [DigitChar(5), DigitChar(0)] == "50";
    assert ToFixed2(350) == "3" + "." + "50";
    assert "3" + "." + "50" == "3.50";
  }

  lemma NormalizeExample2()
    ensures Normalize("12") == "12.00"
  {
    assert DotAt("12").None?;
    assert DigitsValue("12") == 12 by { assert "12"[..1] == "1"; }
    assert ParseCents("12") == Some(1200);
    assert NatToString(12) == "12" by { assert NatToString(1) == "1"; }
    assert ToFixed2(1200) == "12" + "." + "00";
  }

  lemma NormalizeExample3()
    ensures Normalize("007") == "7.00"
  {
    assert DotAt("007").None? by {
      assert "007"[1..] == "07" && "07"[1..] == "7" && "7"[1..] == "";
    }
    assert DigitsValue("007") == 7 by {
      assert "007"[..2] == "00" && "00"[..1] == "0" && "0"[..0] == "";
      assert DigitsValue("0") == 0;
      assert DigitsValue("00") == 0;
    }
    assert KeystrokeAmount("007");
    assert ParseCents("007") == Some(700);
    assert NatToString(7) == "7";
    assert ToFixed2(700) == "7" + "." + "00";
  }

  /** Every amount accepted on submit passes the keystroke pattern. */
  lemma SubmitAmountIsKeystrokeAmount(s: string)
    requires SubmitAmount(s)
    ensures KeystrokeAmount(s)
  {
  }

  /** The keystroke pattern admits every prefix of a string it admits. */
  lemma {:induction false} KeystrokeAmountPrefixClosed(s: string, n: nat)
    requires KeystrokeAmount(s) && n <= |s|
    ensures KeystrokeAmount(s[..n])
  {
    var p := s[..n];
    match DotAt(s)
    case None =>
      assert DotAt(p).None?;
    case Some(k) =>
      if n <= k {
        assert forall j :: 0 <= j < n ==> p[j] == s[j] && s[j] != '.';
        assert DotAt(p).None?;
        assert AllDigits(s[..k]);
        assert forall j :: 0 <= j < n ==> p[j] == s[..k][j];
      } else {
        assert p[..k] == s[..k];
        assert DotAt(p) == Some(k) by {
          assert p[k] == '.';
          assert forall j :: 0 <= j < k ==> p[j] == s[j];
        }
        var tail := s[k + 1..];
        assert AllDigits(p[k + 1..]) by {
          assert forall j :: 0 <= j < n - k - 1 ==> p[k + 1..][j] == tail[j];
        }
      }
  }

  /** A valid amount can be typed one character at a time: every intermediate value passes
      the keystroke filter. */
  lemma AmountTypeable(s: string)
    requires SubmitAmount(s)
    ensures forall n :: 0 <= n <= |s| ==> KeystrokeAmount(s[..n])
  {
    SubmitAmountIsKeystrokeAmount(s);
    forall n | 0 <= n <= |s|
      ensures KeystrokeAmount(s[..n])
    {
      KeystrokeAmountPrefixClosed(s, n);
    }
  }

  /** What the two patterns make of the edge cases: a trailing point, a missing whole part
      and a third decimal. */
  lemma AmountPatternExamples()
    ensures !SubmitAmount("3.") && KeystrokeAmount("3.")
    ensures !SubmitAmount(".5") && KeystrokeAmount(".5")
    ensures !SubmitAmount("1.234") && !KeystrokeAmount("1.234")
    ensures !SubmitAmount("") && KeystrokeAmount("")
  {
  }
}
