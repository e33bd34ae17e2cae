/** Dates written YYYY-MM-DD: the string order is the calendar order. */
module Dates {
  import opened Wire
  import opened Sorting

  predicate Digits(s: string) {
    forall i :: 0 <= i < |s| ==> '0' <= s[i] <= '9'
  }

  function Pow10(n: nat): nat {
    if n == 0 then 1 else 10 * Pow10(n - 1)
  }

  function Digit(c: char): nat
    requires '0' <= c <= '9'
  {
    (c - '0') as nat
  }

  function Value(s: string): nat
    requires Digits(s)
  {
    if s == "" then 0 else Digit(s[0]) * Pow10(|s| - 1) + Value(s[1..])
  }

  lemma DigitBound(d: nat, p: nat, v: nat)
    requires d <= 9 && v < p
    ensures d * p + v < 10 * p
  {
  }

  lemma {:induction false} ValueBound(s: string)
    requires Digits(s)
    ensures Value(s) < Pow10(|s|)
  {
    if s == "" {
    } else {
      ValueBound(s[1..]);
      DigitBound(Digit(s[0]), Pow10(|s| - 1), Value(s[1..]));
    }
  }

  lemma LeadingDigitDecides(d: nat, e: nat, p: nat, v: nat, w: nat)
    requires v < p && w < p
    ensures d < e ==> d * p + v < e * p + w
    ensures e < d ==> e * p + w < d * p + v
  {
    if d < e {
      MoreByOne(d, e, p);
    } else if e < d {
      MoreByOne(e, d, p);
    }
  }

  lemma {:induction false} MoreByOne(d: nat, e: nat, p: nat)
    requires d < e
    ensures d * p + p <= e * p
  {
    OneMore(e - 1, p);
    if d + 1 < e {
      MoreByOne(d, e - 1, p);
    }
  }

  lemma OneMore(n: nat, p: nat)
    ensures (n + 1) * p == n * p + p
  {
  }

  /** Strings of digits of one length compare as the numbers they write. */
  lemma {:induction false} DigitsOrder(a: string, b: string)
    requires Digits(a) && Digits(b) && |a| == |b|
    ensures StrLess(a, b) <==> Value(a) < Value(b)
    ensures a == b <==> Value(a) == Value(b)
  {
    if a == "" {
    } else {
      DigitsOrder(a[1..], b[1..]);
      ValueBound(a[1..]);
      ValueBound(b[1..]);
      LeadingDigitDecides(Digit(a[0]), Digit(b[0]), Pow10(|a| - 1), Value(a[1..]), Value(b[1..]));
      assert a == [a[0]] + a[1..] && b == [b[0]] + b[1..];
    }
  }

  /** String order goes by the first part, and by the rest when it is equal. */
  lemma {:induction false} StrLessSplit(a: string, b: string, n: nat)
    requires n <= |a| && n <= |b|
    ensures StrLess(a, b) <==> StrLess(a[..n], b[..n]) || (a[..n] == b[..n] && StrLess(a[n..], b[n..]))
    decreases n
  {
    if n == 0 {
      assert a[0..] == a && b[0..] == b;
    } else {
      StrLessSplit(a[1..], b[1..], n - 1);
      assert a[..n][1..] == a[1..][..n - 1] && b[..n][1..] == b[1..][..n - 1];
      assert a[1..][n - 1..] == a[n..] && b[1..][n - 1..] == b[n..];
      assert a[..n] == [a[0]] + a[..n][1..] && b[..n] == [b[0]] + b[..n][1..];
    }
  }

  predicate LeapYear(y: nat) {
    y % 4 == 0 && (y % 100 != 0 || y % 400 == 0)
  }

  function DaysIn(month: nat, year: nat): nat {
    match month
    case 2 => if LeapYear(year) then 29 else 28
    case 4 => 30
    case 6 => 30
    case 9 => 30
    case 11 => 30
    case _ => 31
  }

  /** Four digits, two digits, two digits, dashes between, and a day that exists; read as the number YYYYMMDD. */
  function ParseDate(s: string): Option<nat> {
    if |s| == 10 && s[4] == '-' && s[7] == '-' && Digits(s[..4]) && Digits(s[5..7]) && Digits(s[8..]) then
      var y, m, d := Value(s[..4]), Value(s[5..7]), Value(s[8..]);
      if 1 <= m <= 12 && 1 <= d <= DaysIn(m, y) then Some(y * 10000 + m * 100 + d) else None
    else None
  }

  lemma CodeOrder(y: nat, m: nat, d: nat, y': nat, m': nat, d': nat)
    requires m < 100 && m' < 100 && d < 100 && d' < 100
    ensures y * 10000 + m * 100 + d < y' * 10000 + m' * 100 + d' <==>
      y < y' || (y == y' && (m < m' || (m == m' && d < d')))
  {
  }

  /** The calendar order of two well-formed dates is their string order. */
  lemma DateOrderIsStringOrder(a: string, b: string)
    requires ParseDate(a).Some? && ParseDate(b).Some?
    ensures StrLess(a, b) <==> ParseDate(a).value < ParseDate(b).value
    ensures a == b <==> ParseDate(a).value == ParseDate(b).value
  {
    DigitsOrder(a[..4], b[..4]);
    DigitsOrder(a[5..7], b[5..7]);
    DigitsOrder(a[8..], b[8..]);
    StrLessSplit(a, b, 4);
    DashThen(a[4..], b[4..]);
    assert a[4..][1..] == a[5..] && b[4..][1..] == b[5..];
    StrLessSplit(a[5..], b[5..], 2);
    assert a[5..][..2] == a[5..7] && b[5..][..2] == b[5..7] && a[5..][2..] == a[7..] && b[5..][2..] == b[7..];
    DashThen(a[7..], b[7..]);
    assert a[7..][1..] == a[8..] && b[7..][1..] == b[8..];
    Rejoin(a);
    Rejoin(b);
    CodeOrder(Value(a[..4]), Value(a[5..7]), Value(a[8..]), Value(b[..4]), Value(b[5..7]), Value(b[8..]));
  }

  lemma Rejoin(a: string)
    requires |a| == 10 && a[4] == a[7] == '-'
    ensures a == a[..4] + "-" + a[5..7] + "-" + a[8..]
  {
  }

  lemma DashThen(a: string, b: string)
    requires a != "" && b != "" && a[0] == b[0] == '-'
    ensures StrLess(a, b) <==> StrLess(a[1..], b[1..])
  {
  }

  // ---------------------------------------------------------------- reading back what was written

  /** n in w digits, with leading zeros. */
  function Write(n: nat, w: nat): string {
    if w == 0 then "" else Write(n / 10, w - 1) + ['0' + (n % 10) as char]
  }

  function WriteDate(y: nat, m: nat, d: nat): string {
    Write(y, 4) + "-" + Write(m, 2) + "-" + Write(d, 2)
  }

  lemma {:induction false} ValueSnoc(s: string, c: char)
    requires Digits(s) && '0' <= c <= '9'
    ensures Digits(s + [c]) && Value(s + [c]) == 10 * Value(s) + Digit(c)
  {
    if s == "" {
      assert s + [c] == [c] && [c][1..] == "";
    } else {
      ValueSnoc(s[1..], c);
      assert (s + [c])[1..] == s[1..] + [c];
      TenTimes(Digit(s[0]), Pow10(|s| - 1));
    }
  }

  lemma TenTimes(d: nat, p: nat)
    ensures d * (10 * p) == 10 * (d * p)
  {
  }

  lemma {:induction false} WriteValue(n: nat, w: nat)
    requires n < Pow10(w)
    ensures |Write(n, w)| == w && Digits(Write(n, w)) && Value(Write(n, w)) == n
  {
    if w == 0 {
    } else {
      WriteValue(n / 10, w - 1);
      ValueSnoc(Write(n / 10, w - 1), '0' + (n % 10) as char);
    }
  }

  /** Every day of the calendar, written out, reads as itself. */
  lemma ReadsBack(y: nat, m: nat, d: nat)
    requires y < 10000 && 1 <= m <= 12 && 1 <= d <= DaysIn(m, y)
    ensures ParseDate(WriteDate(y, m, d)) == Some(y * 10000 + m * 100 + d)
  {
    assert Pow10(2) == 100 && Pow10(4) == 10000;
    WriteValue(y, 4);
    WriteValue(m, 2);
    WriteValue(d, 2);
    Parts(Write(y, 4), Write(m, 2), Write(d, 2));
  }

  lemma Parts(y: string, m: string, d: string)
    requires |y| == 4 && |m| == |d| == 2
    ensures var s := y + "-" + m + "-" + d;
      |s| == 10 && s[4] == s[7] == '-' && s[..4] == y && s[5..7] == m && s[8..] == d
  {
  }

  /** And nothing else reads as a date. */
  lemma OnlyDatesRead(s: string) returns (y: nat, m: nat, d: nat)
    requires ParseDate(s).Some?
    ensures y < 10000 && 1 <= m <= 12 && 1 <= d <= DaysIn(m, y) && s == WriteDate(y, m, d)
  {
    y, m, d := Value(s[..4]), Value(s[5..7]), Value(s[8..]);
    assert Pow10(2) == 100 && Pow10(4) == 10000;
    WrittenAs(s[..4]);
    WrittenAs(s[5..7]);
    WrittenAs(s[8..]);
    Rejoin(s);
  }

  lemma WrittenAs(s: string)
    requires Digits(s)
    ensures Value(s) < Pow10(|s|) && s == Write(Value(s), |s|)
  {
    ValueBound(s);
    WriteValue(Value(s), |s|);
    DigitsOrder(s, Write(Value(s), |s|));
  }

  /** The calendar: 97 leap years in 400, thirty days in April, June, September and November, February as it falls. */
  lemma Calendar(y: nat)
    ensures LeapYear(2000) && LeapYear(2024) && !LeapYear(1900) && !LeapYear(2023) && LeapYear(y + 400) == LeapYear(y)
    ensures DaysIn(2, y) == if LeapYear(y) then 29 else 28
    ensures forall m :: 1 <= m <= 12 && m != 2 ==> DaysIn(m, y) == if m in {4, 6, 9, 11} then 30 else 31
  {
  }
}
