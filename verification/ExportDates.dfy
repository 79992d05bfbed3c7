/**
  The date column of the export (src/lib/exporters.ts:31-55): `pad2` and
  `normalizeDateDmy`. The pattern `(\d{1,4})\D+(\d{1,2})\D+(\d{1,4})` is
  modelled by a scanner that takes the leftmost position where it matches;
  its groups are what a backtracking matcher with greedy quantifiers
  returns there, which `MatchAtSound` and `MatchAtComplete` relate to the
  shape the pattern describes. Every group is a run of decimal digits, so
  `Number` on it is always finite and the guard against non-finite values
  never fires.
 */
module ExportDates {
  import opened Wrappers
  import opened JsonValue
  import opened Text
  import JsNumber

  predicate NoDigits(s: string) {
    forall i :: 0 <= i < |s| ==> !IsDigit(s[i])
  }

  /** The end of the run of digits that starts at `i`. */
  function DigitsEnd(s: string, i: nat): (e: nat)
    requires i <= |s|
    ensures i <= e <= |s|
    decreases |s| - i
  {
    if i == |s| || !IsDigit(s[i]) then i else DigitsEnd(s, i + 1)
  }

  /** Before the end of the run every character is a digit, and the one at the end is not. */
  lemma {:induction false} DigitsRun(s: string, i: nat)
    requires i <= |s|
    ensures forall m :: i <= m < DigitsEnd(s, i) ==> IsDigit(s[m])
    ensures DigitsEnd(s, i) == |s| || !IsDigit(s[DigitsEnd(s, i)])
    decreases |s| - i
  {
    if i < |s| && IsDigit(s[i]) {
      DigitsRun(s, i + 1);
    }
  }

  /** The end of the run of non-digits that starts at `i`. */
  function NonDigitsEnd(s: string, i: nat): (e: nat)
    requires i <= |s|
    ensures i <= e <= |s|
    decreases |s| - i
  {
    if i == |s| || IsDigit(s[i]) then i else NonDigitsEnd(s, i + 1)
  }

  /** Before the end of the run no character is a digit, and the one at the end is. */
  lemma {:induction false} NonDigitsRun(s: string, i: nat)
    requires i <= |s|
    ensures forall m :: i <= m < NonDigitsEnd(s, i) ==> !IsDigit(s[m])
    ensures NonDigitsEnd(s, i) == |s| || IsDigit(s[NonDigitsEnd(s, i)])
    decreases |s| - i
  {
    if i < |s| && !IsDigit(s[i]) {
      NonDigitsRun(s, i + 1);
    }
  }

  function Min(a: nat, b: nat): nat {
    if a <= b then a else b
  }

  /** The three groups of a match. */
  datatype DateParts = DateParts(a: string, b: string, c: string)

  /**
    The match of `(\d{1,4})\D+(\d{1,2})\D+(\d{1,4})` starting exactly at `i`.
    The first two digit groups cannot stop inside a run of digits, since a
    non-digit must follow them, nor can the separators stop inside a run of
    non-digits; the last group takes up to four digits.
   */
  function MatchAt(s: string, i: nat): (r: Option<DateParts>)
    requires i <= |s|
    ensures r.Some? ==> && AllDigits(r.value.a) && 1 <= |r.value.a| <= 4
                        && AllDigits(r.value.b) && 1 <= |r.value.b| <= 2
                        && AllDigits(r.value.c) && 1 <= |r.value.c| <= 4
  {
    var j := DigitsEnd(s, i);
    var p := NonDigitsEnd(s, j);
    var q := DigitsEnd(s, p);
    var r := NonDigitsEnd(s, q);
    var e := DigitsEnd(s, r);
    DigitsRun(s, i);
    DigitsRun(s, p);
    DigitsRun(s, r);
    if 1 <= j - i <= 4 && j < p && 1 <= q - p <= 2 && q < r && r < e then
      Some(DateParts(s[i..j], s[p..q], s[r..r + Min(4, e - r)]))
    else None
  }

  /** `s` holds, from position `i`, a text of the shape the pattern describes. */
  predicate ShapeAt(s: string, i: nat, a: string, sep1: string, b: string, sep2: string, c: string) {
    && i + |a| + |sep1| + |b| + |sep2| + |c| <= |s|
    && s[i..i + |a| + |sep1| + |b| + |sep2| + |c|] == a + sep1 + b + sep2 + c
    && AllDigits(a) && 1 <= |a| <= 4
    && NoDigits(sep1) && 1 <= |sep1|
    && AllDigits(b) && 1 <= |b| <= 2
    && NoDigits(sep2) && 1 <= |sep2|
    && AllDigits(c) && 1 <= |c| <= 4
  }

  /** Five adjacent slices make up the slice that spans them. */
  lemma SlicesJoin(s: string, i: nat, j: nat, p: nat, q: nat, r: nat, e: nat)
    requires i <= j <= p <= q <= r <= e <= |s|
    ensures s[i..e] == s[i..j] + s[j..p] + s[p..q] + s[q..r] + s[r..e]
  {
    assert s[i..p] == s[i..j] + s[j..p];
    assert s[i..q] == s[i..p] + s[p..q];
    assert s[i..r] == s[i..q] + s[q..r];
    assert s[i..e] == s[i..r] + s[r..e];
  }

  /** What the scanner matches has the shape of the pattern. */
  lemma MatchAtSound(s: string, i: nat)
    requires i <= |s| && MatchAt(s, i).Some?
    ensures exists sep1, sep2 :: ShapeAt(s, i, MatchAt(s, i).value.a, sep1, MatchAt(s, i).value.b, sep2, MatchAt(s, i).value.c)
  {
    var j := DigitsEnd(s, i);
    var p := NonDigitsEnd(s, j);
    var q := DigitsEnd(s, p);
    var r := NonDigitsEnd(s, q);
    var e := DigitsEnd(s, r);
    var f := r + Min(4, e - r);
    var m := MatchAt(s, i).value;
    assert m == DateParts(s[i..j], s[p..q], s[r..f]);
    NonDigitsRun(s, j);
    NonDigitsRun(s, q);
    NonDigitSlice(s, j, p);
    NonDigitSlice(s, q, r);
    SlicesJoin(s, i, j, p, q, r, f);
    assert ShapeAt(s, i, m.a, s[j..p], m.b, s[q..r], m.c);
  }

  lemma NonDigitSlice(s: string, lo: nat, hi: nat)
    requires lo <= hi <= |s| && forall m :: lo <= m < hi ==> !IsDigit(s[m])
    ensures NoDigits(s[lo..hi])
  {
    forall k | 0 <= k < hi - lo ensures !IsDigit(s[lo..hi][k]) {
      assert s[lo..hi][k] == s[lo + k];
    }
  }

  /** Where the text has the pattern's shape, its pieces sit at these positions. */
  lemma ShapePositions(s: string, i: nat, a: string, sep1: string, b: string, sep2: string, c: string)
    requires ShapeAt(s, i, a, sep1, b, sep2, c)
    ensures var j := i + |a|; var p := j + |sep1|; var q := p + |b|; var r := q + |sep2|; var e := r + |c|;
      && s[i..j] == a && s[p..q] == b && s[r..e] == c
      && (forall m :: i <= m < j ==> IsDigit(s[m]))
      && (forall m :: j <= m < p ==> !IsDigit(s[m]))
      && (forall m :: p <= m < q ==> IsDigit(s[m]))
      && (forall m :: q <= m < r ==> !IsDigit(s[m]))
      && (forall m :: r <= m < e ==> IsDigit(s[m]))
  {
    var j := i + |a|;
    var p := j + |sep1|;
    var q := p + |b|;
    var r := q + |sep2|;
    var e := r + |c|;
    var w := a + sep1 + b + sep2 + c;
    assert s[i..e] == w;
    forall m | i <= m < e ensures s[m] == w[m - i] {
      assert s[i..e][m - i] == s[m];
    }
    assert s[i..j] == a by {
      forall m | 0 <= m < |a| ensures s[i..j][m] == a[m] { assert w[m] == a[m]; }
    }
    assert s[p..q] == b by {
      forall m | 0 <= m < |b| ensures s[p..q][m] == b[m] { assert w[p - i + m] == b[m]; }
    }
    assert s[r..e] == c by {
      forall m | 0 <= m < |c| ensures s[r..e][m] == c[m] { assert w[r - i + m] == c[m]; }
    }
    forall m | j <= m < p ensures !IsDigit(s[m]) { assert w[m - i] == sep1[m - j]; }
    forall m | q <= m < r ensures !IsDigit(s[m]) { assert w[m - i] == sep2[m - q]; }
  }

  /**
    Wherever the text has the pattern's shape, the scanner matches there,
    with the same first two groups, and a last group that extends the shape's
    as far as four digits allow (all of it when the text ends there).
   */
  lemma MatchAtComplete(s: string, i: nat, a: string, sep1: string, b: string, sep2: string, c: string)
    requires ShapeAt(s, i, a, sep1, b, sep2, c)
    ensures MatchAt(s, i).Some?
    ensures MatchAt(s, i).value.a == a && MatchAt(s, i).value.b == b
    ensures |c| <= |MatchAt(s, i).value.c| && MatchAt(s, i).value.c[..|c|] == c
    ensures i + |a| + |sep1| + |b| + |sep2| + |c| == |s| ==> MatchAt(s, i).value.c == c
  {
    ShapePositions(s, i, a, sep1, b, sep2, c);
    var j := i + |a|;
    var p := j + |sep1|;
    var q := p + |b|;
    var r := q + |sep2|;
    var e := r + |c|;
    assert DigitsEnd(s, i) == j by { DigitsEndAt(s, i, j); }
    assert NonDigitsEnd(s, j) == p by { NonDigitsEndAt(s, j, p); }
    assert DigitsEnd(s, p) == q by { DigitsEndAt(s, p, q); }
    assert NonDigitsEnd(s, q) == r by { NonDigitsEndAt(s, q, r); }
    var f := DigitsEnd(s, r);
    assert f >= e by { DigitsEndPast(s, r, e); }
    assert s[r..r + Min(4, f - r)][..|c|] == s[r..e];
    if e == |s| {
      assert f == e;
    }
  }

  lemma DigitsEndAt(s: string, i: nat, j: nat)
    requires i <= j <= |s| && (forall m :: i <= m < j ==> IsDigit(s[m])) && (j == |s| || !IsDigit(s[j]))
    ensures DigitsEnd(s, i) == j
    decreases j - i
  {
    if i < j {
      DigitsEndAt(s, i + 1, j);
    }
  }

  lemma NonDigitsEndAt(s: string, i: nat, j: nat)
    requires i <= j <= |s| && (forall m :: i <= m < j ==> !IsDigit(s[m])) && (j == |s| || IsDigit(s[j]))
    ensures NonDigitsEnd(s, i) == j
    decreases j - i
  {
    if i < j {
      NonDigitsEndAt(s, i + 1, j);
    }
  }

  lemma DigitsEndPast(s: string, i: nat, j: nat)
    requires i <= j <= |s| && forall m :: i <= m < j ==> IsDigit(s[m])
    ensures DigitsEnd(s, i) >= j
    decreases j - i
  {
    if i < j {
      DigitsEndPast(s, i + 1, j);
    }
  }

  /** The leftmost match, with its position. */
  function Find(s: string): (r: Option<(nat, DateParts)>)
    ensures r.None? ==> forall i :: 0 <= i <= |s| ==> MatchAt(s, i).None?
    ensures r.Some? ==>
              && r.value.0 <= |s| && MatchAt(s, r.value.0) == Some(r.value.1)
              && forall i :: 0 <= i < r.value.0 ==> MatchAt(s, i).None?
  {
    FindFrom(s, 0)
  }

  function FindFrom(s: string, from: nat): (r: Option<(nat, DateParts)>)
    requires from <= |s|
    ensures r.None? ==> forall i :: from <= i <= |s| ==> MatchAt(s, i).None?
    ensures r.Some? ==>
              && from <= r.value.0 <= |s| && MatchAt(s, r.value.0) == Some(r.value.1)
              && forall i :: from <= i < r.value.0 ==> MatchAt(s, i).None?
    decreases |s| - from
  {
    var here := MatchAt(s, from);
    if here.Some? then Some((from, here.value))
    else if from == |s| then None
    else
      var r := FindFrom(s, from + 1);
      assert forall i :: from <= i <= from ==> MatchAt(s, i) == here;
      r
  }

  /** `String(n).padStart(2, "0")`. */
  function Pad2(n: nat): (r: string)
    ensures 2 <= |r| && AllDigits(r) && DigitsValue(r) == n
    ensures n >= 10 ==> r == NatToString(n)
  {
    var t := NatToString(n);
    NatToStringRoundTrip(n);
    if |t| < 2 then
      LeadingZero(t);
      "0" + t
    else t
  }

  lemma {:induction false} LeadingZero(t: string)
    requires AllDigits(t)
    ensures AllDigits("0" + t) && DigitsValue("0" + t) == DigitsValue(t)
  {
    if t != [] {
      var u := t[..|t| - 1];
      assert ("0" + t)[..|"0" + t| - 1] == "0" + u;
      LeadingZero(u);
    }
  }

  /** The text of `n` is no longer than `k` digits when `n` is below `10^k`. */
  lemma {:induction false} NatToStringShort(n: nat, k: nat)
    requires 1 <= k && n < Pow10(k)
    ensures |NatToString(n)| <= k
  {
    if n >= 10 {
      assert Pow10(1) == 10;
      assert k >= 2;
      assert n / 10 < Pow10(k - 1);
      NatToStringShort(n / 10, k - 1);
    }
  }

  /** The year of a day-first date: a value below 100 is read as a year of this century. */
  function FullYear(c: nat): (y: nat)
    ensures c < 100 ==> y == 2000 + c
    ensures c >= 100 ==> y == c
  {
    if c < 100 then 2000 + c else c
  }

  /** The heuristic on the three numbers: year-first when the first is at least 1900, else day-first. */
  function Arrange(a: nat, b: nat, c: nat): string {
    if a >= 1900 then Pad2(c) + "/" + Pad2(b) + "/" + NatToString(a)
    else Pad2(a) + "/" + Pad2(b) + "/" + NatToString(FullYear(c))
  }

  /** `normalizeDateDmy(input)`. */
  function NormalizeDate(input: Json): string {
    if !input.JStr? then "" else NormalizeTrimmed(Trim(input.s))
  }

  /** The normaliser after trimming: blank stays blank, text without a match stays as it is. */
  function NormalizeTrimmed(s: string): string {
    if s == [] then ""
    else
      var found := Find(s);
      if found.None? then s
      else Reformat(found.value.1)
  }

  /** The cell written for the groups of a match. */
  function Reformat(m: DateParts): string
    requires AllDigits(m.a) && AllDigits(m.b) && AllDigits(m.c)
  {
    Arrange(DigitsValue(m.a), DigitsValue(m.b), DigitsValue(m.c))
  }

  // ---------------------------------------------------------------------
  // What the normaliser promises

  /** Anything that is not text, and blank text, give the empty cell. */
  lemma NotTextIsEmpty(input: Json)
    requires !input.JStr? || AllWhitespace(input.s)
    ensures NormalizeDate(input) == ""
  {
    if input.JStr? {
      TrimEmptyIff(input.s);
    }
  }

  /** Text without the pattern is returned trimmed and otherwise unchanged. */
  lemma NoMatchKept(t: string)
    requires forall i :: 0 <= i <= |Trim(t)| ==> MatchAt(Trim(t), i).None?
    ensures NormalizeDate(JStr(t)) == Trim(t)
  {
  }

  /** A whole text of the pattern's shape is read as its three numbers. */
  lemma {:induction false} WholeDate(a: string, sep1: string, b: string, sep2: string, c: string)
    requires AllDigits(a) && 1 <= |a| <= 4 && NoDigits(sep1) && 1 <= |sep1|
    requires AllDigits(b) && 1 <= |b| <= 2 && NoDigits(sep2) && 1 <= |sep2|
    requires AllDigits(c) && 1 <= |c| <= 4
    ensures NormalizeDate(JStr(a + sep1 + b + sep2 + c)) == Arrange(DigitsValue(a), DigitsValue(b), DigitsValue(c))
  {
    WholeMatch(a, sep1, b, sep2, c);
    MatchedDate(a + sep1 + b + sep2 + c, DateParts(a, b, c));
  }

  /** A whole text of the pattern's shape matches at its start, with the pieces as groups. */
  lemma WholeMatch(a: string, sep1: string, b: string, sep2: string, c: string)
    requires AllDigits(a) && 1 <= |a| <= 4 && NoDigits(sep1) && 1 <= |sep1|
    requires AllDigits(b) && 1 <= |b| <= 2 && NoDigits(sep2) && 1 <= |sep2|
    requires AllDigits(c) && 1 <= |c| <= 4
    ensures var s := a + sep1 + b + sep2 + c;
      && MatchAt(s, 0) == Some(DateParts(a, b, c))
      && IsDigit(s[0]) && IsDigit(s[|s| - 1])
  {
    var s := a + sep1 + b + sep2 + c;
    assert s[0..|s|] == s;
    assert s[0] == a[0] && s[|s| - 1] == c[|c| - 1];
    assert ShapeAt(s, 0, a, sep1, b, sep2, c);
    MatchAtComplete(s, 0, a, sep1, b, sep2, c);
  }

  /** A text with a match at its start, beginning and ending with a digit, is normalised as that match. */
  lemma MatchedDate(s: string, m: DateParts)
    requires s != [] && IsDigit(s[0]) && IsDigit(s[|s| - 1])
    requires MatchAt(s, 0) == Some(m)
    ensures NormalizeDate(JStr(s)) == Reformat(m)
  {
    TrimmedText(s);
    FindAtStart(s, m);
  }

  /** Text that neither starts nor ends with whitespace is normalised as it is. */
  lemma TrimmedText(s: string)
    requires s != [] && !IsWhitespace(s[0]) && !IsWhitespace(s[|s| - 1])
    ensures NormalizeDate(JStr(s)) == NormalizeTrimmed(s)
  {
    TrimPadded([], s, []);
    assert [] + s + [] == s;
  }

  /** A match at the start is the leftmost one. */
  lemma FindAtStart(s: string, m: DateParts)
    requires MatchAt(s, 0) == Some(m)
    ensures Find(s) == Some((0, m))
  {
  }

  /** The separators do not matter: `05.03.2024`, `05-03-2024` and `05/03/2024` give the same cell. */
  lemma SeparatorsIrrelevant(a: string, sep1: string, b: string, sep2: string, c: string, sep3: string, sep4: string)
    requires AllDigits(a) && 1 <= |a| <= 4 && AllDigits(b) && 1 <= |b| <= 2 && AllDigits(c) && 1 <= |c| <= 4
    requires NoDigits(sep1) && 1 <= |sep1| && NoDigits(sep2) && 1 <= |sep2|
    requires NoDigits(sep3) && 1 <= |sep3| && NoDigits(sep4) && 1 <= |sep4|
    ensures NormalizeDate(JStr(a + sep1 + b + sep2 + c)) == NormalizeDate(JStr(a + sep3 + b + sep4 + c))
  {
    WholeDate(a, sep1, b, sep2, c);
    WholeDate(a, sep3, b, sep4, c);
  }

  /** Year-first and day-first writings of the same date give the same cell. */
  lemma YearFirstMeetsDayFirst(y: string, m: string, d: string, sep1: string, sep2: string, sep3: string, sep4: string)
    requires AllDigits(y) && |y| == 4 && DigitsValue(y) >= 1900
    requires AllDigits(m) && 1 <= |m| <= 2 && AllDigits(d) && 1 <= |d| <= 2
    requires NoDigits(sep1) && 1 <= |sep1| && NoDigits(sep2) && 1 <= |sep2|
    requires NoDigits(sep3) && 1 <= |sep3| && NoDigits(sep4) && 1 <= |sep4|
    ensures NormalizeDate(JStr(y + sep1 + m + sep2 + d)) == NormalizeDate(JStr(d + sep3 + m + sep4 + y))
  {
    WholeDate(y, sep1, m, sep2, d);
    WholeDate(d, sep3, m, sep4, y);
    assert DigitsValue(d) < Pow10(|d|) <= 100 by {
      if |d| == 2 { assert Pow10(2) == 100; } else { assert Pow10(1) == 10; }
    }
  }

  /** A two-digit year is this century's: `05.03.24` is `05.03.2024`. */
  lemma TwoDigitYear(d: string, m: string, yy: string, sep1: string, sep2: string)
    requires AllDigits(d) && 1 <= |d| <= 2 && AllDigits(m) && 1 <= |m| <= 2 && AllDigits(yy) && |yy| == 2
    requires NoDigits(sep1) && 1 <= |sep1| && NoDigits(sep2) && 1 <= |sep2|
    ensures NormalizeDate(JStr(d + sep1 + m + sep2 + yy)) == NormalizeDate(JStr(d + sep1 + m + sep2 + ("20" + yy)))
  {
    var yyyy := "20" + yy;
    var x, y, z := DigitsValue(d), DigitsValue(m), DigitsValue(yy);
    TwentyPrefix(yy);
    assert x < 100 && z < 100 by {
      Pow10Monotone(|d|, 2);
      assert Pow10(2) == 100;
    }
    calc {
      NormalizeDate(JStr(d + sep1 + m + sep2 + yy));
      { WholeDate(d, sep1, m, sep2, yy); }
      Arrange(x, y, z);
      { ArrangeCentury(x, y, z); }
      Arrange(x, y, 2000 + z);
      { assert DigitsValue(yyyy) == 2000 + z; }
      Arrange(x, y, DigitsValue(yyyy));
      { WholeDate(d, sep1, m, sep2, yyyy); }
      NormalizeDate(JStr(d + sep1 + m + sep2 + yyyy));
    }
  }

  /** A day-first date with a year below 100 is the same date with 2000 added to the year. */
  lemma ArrangeCentury(a: nat, b: nat, c: nat)
    requires a < 1900 && c < 100
    ensures Arrange(a, b, c) == Arrange(a, b, 2000 + c)
  {
  }

  /** Writing `20` before two digits adds 2000 to their value. */
  lemma TwentyPrefix(yy: string)
    requires AllDigits(yy) && |yy| == 2
    ensures AllDigits("20" + yy) && |"20" + yy| == 4
    ensures DigitsValue("20" + yy) == 2000 + DigitsValue(yy)
  {
    assert AllDigits("20" + yy);
    assert DigitsValue("20") == 20 by {
      assert "20"[..1] == "2" && "2"[..0] == "";
    }
    DigitsValueConcat("20", yy);
    assert Pow10(2) == 100;
  }

  lemma {:induction false} Pow10Monotone(k: nat, l: nat)
    requires k <= l
    ensures Pow10(k) <= Pow10(l)
  {
    if k < l {
      Pow10Monotone(k, l - 1);
    }
  }

  /** A number below `10^k`, with `k` at least 2, pads to at most `k` digits. */
  lemma Pad2Short(n: nat, k: nat)
    requires 2 <= k && n < Pow10(k)
    ensures |Pad2(n)| <= k
  {
    NatToStringShort(n, k);
  }

  /** The numbers of a match are below 10000, 100 and 10000. */
  lemma GroupBounds(m: DateParts)
    requires AllDigits(m.a) && 1 <= |m.a| <= 4 && AllDigits(m.b) && 1 <= |m.b| <= 2
    requires AllDigits(m.c) && 1 <= |m.c| <= 4
    ensures DigitsValue(m.a) < 10000 && DigitsValue(m.b) < 100 && DigitsValue(m.c) < 10000
  {
    Pow10Monotone(|m.a|, 4);
    Pow10Monotone(|m.b|, 2);
    Pow10Monotone(|m.c|, 4);
    assert Pow10(2) == 100 && Pow10(4) == 10000;
  }

  /** A written cell, read again, is taken apart into the numbers it was written from. */
  lemma {:induction false} RereadCell(x: nat, y: nat, z: nat)
    requires x < 10000 && y < 100 && 1 <= z < 10000
    ensures NormalizeDate(JStr(Pad2(x) + "/" + Pad2(y) + "/" + NatToString(z))) == Arrange(x, y, z)
  {
    assert Pow10(2) == 100 && Pow10(4) == 10000;
    Pad2Short(x, 4);
    Pad2Short(y, 2);
    NatToStringShort(z, 4);
    NatToStringRoundTrip(z);
    assert NoDigits("/");
    WholeDate(Pad2(x), "/", Pad2(y), "/", NatToString(z));
  }

  /**
    Normalising a cell again leaves it as it is, except when both outer
    numbers of the date are at least 1900: then the second pass reads the
    written day as a year and swaps them back (`YearFirstFlips`).
   */
  lemma ArrangeStable(a: nat, b: nat, c: nat)
    requires a < 10000 && b < 100 && c < 10000
    requires !(a >= 1900 && c >= 1900)
    ensures NormalizeDate(JStr(Arrange(a, b, c))) == Arrange(a, b, c)
  {
    if a >= 1900 {
      RereadCell(c, b, a);
    } else {
      RereadCell(a, b, FullYear(c));
    }
  }

  lemma YearFirstFlips(a: nat, b: nat, c: nat)
    requires 1900 <= a < 10000 && b < 100 && 1900 <= c < 10000
    ensures NormalizeDate(JStr(Arrange(a, b, c))) == Arrange(c, b, a)
  {
    RereadCell(c, b, a);
  }

  /** The date a text is read as is year-first with a last number that is itself a year. */
  predicate ReadsYearFirstTwice(t: string) {
    var s := Trim(t);
    s != [] && Find(s).Some? &&
      var m := Find(s).value.1;
      DigitsValue(m.a) >= 1900 && DigitsValue(m.c) >= 1900
  }

  /** Normalising is idempotent, apart from the case `YearFirstFlips` describes. */
  lemma NormalizeIdempotent(input: Json)
    requires input.JStr? ==> !ReadsYearFirstTwice(input.s)
    ensures NormalizeDate(JStr(NormalizeDate(input))) == NormalizeDate(input)
  {
    if !input.JStr? {
      assert NormalizeDate(JStr("")) == "" by { TrimEmptyIff(""); }
    } else {
      var s := Trim(input.s);
      TrimIdempotent(input.s);
      if s == [] {
        assert NormalizeDate(JStr("")) == "" by { TrimEmptyIff(""); }
      } else if Find(s).None? {
        assert NormalizeDate(JStr(s)) == NormalizeTrimmed(Trim(s));
      } else {
        var m := Find(s).value.1;
        GroupBounds(m);
        ArrangeStable(DigitsValue(m.a), DigitsValue(m.b), DigitsValue(m.c));
      }
    }
  }
}
