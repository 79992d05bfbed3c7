/**
  `Number(t)` of JavaScript, for text made only of digits, `.` and `-` (the
  only text the receipt schema ever hands it). On that alphabet the numeric
  string grammar of ECMAScript leaves: the empty text (which is 0), or an
  optional `-` followed by digits with at most one `.` and at least one digit.
  Anything else is NaN, written `None`. Values are exact; binary rounding and
  overflow to Infinity are not modelled.
 */
module JsNumber {
  import opened Wrappers
  import opened Text

  predicate IsNumberChar(c: char) {
    IsDigit(c) || c == '.' || c == '-'
  }

  predicate AllNumberChars(t: string) {
    forall i :: 0 <= i < |t| ==> IsNumberChar(t[i])
  }

  /** How many digits `b` starts with. */
  function LeadingDigits(b: string): (k: nat)
    ensures k <= |b| && AllDigits(b[..k])
    ensures k == |b| || !IsDigit(b[k])
  {
    if b == [] || !IsDigit(b[0]) then 0
    else
      var k := LeadingDigits(b[1..]);
      assert b[..k + 1] == [b[0]] + b[1..][..k];
      k + 1
  }

  /** The value of a fraction's digits: `0.f`. */
  function FractionValue(f: string): real
    requires AllDigits(f)
  {
    DigitsValue(f) as real / Pow10(|f|) as real
  }

  /** Digits, optionally a `.` and more digits, at least one digit in all. */
  function UnsignedDecimal(b: string): Option<real>
    requires AllNumberChars(b)
  {
    var k := LeadingDigits(b);
    var rest := b[k..];
    if rest == [] then
      if k > 0 then Some(DigitsValue(b[..k]) as real) else None
    else if rest[0] != '.' || !AllDigits(rest[1..]) || (k == 0 && |rest| == 1) then None
    else Some(DigitsValue(b[..k]) as real + FractionValue(rest[1..]))
  }

  /** `Number(t)`: `None` stands for NaN. */
  function NumberOf(t: string): Option<real>
    requires AllNumberChars(t)
  {
    if t == [] then Some(0.0)
    else
      var neg := t[0] == '-';
      var body := if neg then t[1..] else t;
      match UnsignedDecimal(body)
      case None => None
      case Some(v) => Some(if neg then -v else v)
  }

  /** The grammar, stated without scanning: an optional leading `-`, then no `-`, at most one `.`, some digit. */
  predicate IsNumericText(t: string) {
    t == [] || IsUnsignedText(if t[0] == '-' then t[1..] else t)
  }

  /** No `-`, at most one `.`, some digit. */
  predicate IsUnsignedText(u: string) {
    && (forall i :: 0 <= i < |u| ==> u[i] != '-')
    && (forall i, j :: 0 <= i < j < |u| && u[i] == '.' ==> u[j] != '.')
    && (exists i :: 0 <= i < |u| && IsDigit(u[i]))
  }

  lemma UnsignedDecimalDefined(b: string)
    requires AllNumberChars(b)
    ensures UnsignedDecimal(b).Some? <==> IsUnsignedText(b)
  {
    var k := LeadingDigits(b);
    var rest := b[k..];
    assert forall i :: 0 <= i < k ==> IsDigit(b[i]) by {
      forall i | 0 <= i < k ensures IsDigit(b[i]) { assert b[..k][i] == b[i]; }
    }
    if rest == [] {
      if k == 0 {
        assert b == [];
      } else {
        assert IsDigit(b[0]);
      }
    } else if rest[0] != '.' {
      assert b[k] == '-';
    } else if !AllDigits(rest[1..]) {
      var i :| 0 <= i < |rest[1..]| && !IsDigit(rest[1..][i]);
      assert b[k + 1 + i] == rest[1..][i];
      assert b[k + 1 + i] == '-' || (b[k] == '.' && b[k + 1 + i] == '.');
    } else if k == 0 && |rest| == 1 {
      assert b == ".";
      assert forall i :: 0 <= i < |b| ==> !IsDigit(b[i]);
    } else {
      assert forall i :: k < i < |b| ==> IsDigit(b[i]) by {
        forall i | k < i < |b| ensures IsDigit(b[i]) { assert b[i] == rest[1..][i - k - 1]; }
      }
      if k > 0 { assert IsDigit(b[0]); } else { assert IsDigit(b[1]); }
    }
  }

  /** `Number` gives a number exactly on the text the grammar admits. */
  lemma NumberOfDefined(t: string)
    requires AllNumberChars(t)
    ensures NumberOf(t).Some? <==> IsNumericText(t)
  {
    if t != [] {
      var u := if t[0] == '-' then t[1..] else t;
      UnsignedDecimalDefined(u);
    }
  }

  /** Digits alone read as their value. */
  lemma {:induction false} NumberOfDigits(a: string)
    requires AllDigits(a) && |a| >= 1
    ensures AllNumberChars(a) && NumberOf(a) == Some(DigitsValue(a) as real)
  {
    var k := LeadingDigits(a);
    assert a[..|a|] == a;
  }

  /** Digits, a point and digits read as integer part plus fraction. */
  lemma {:induction false} NumberOfDecimal(a: string, f: string)
    requires AllDigits(a) && AllDigits(f) && |a| + |f| >= 1
    ensures AllNumberChars(a + "." + f)
    ensures NumberOf(a + "." + f) == Some(DigitsValue(a) as real + FractionValue(f))
  {
    var t := a + "." + f;
    assert t[..|a|] == a && t[|a|] == '.' && t[|a| + 1..] == f;
    var k := LeadingDigits(t);
    assert t[k..][1..] == f;
  }

  /** A leading `-` negates. */
  lemma NumberOfNegated(t: string)
    requires AllNumberChars(t) && t != [] && t[0] != '-'
    ensures AllNumberChars("-" + t)
    ensures NumberOf("-" + t) == (match NumberOf(t) case None => None case Some(v) => Some(-v))
  {
    assert ("-" + t)[1..] == t;
  }
}
