/** The store keeps times as RFC 3339 strings with trimmed fractions and compares
    the strings (daemon/state/store.go). When does that agree with time order? */
module Timestamps {

  /** A UTC instant in calendar fields, years 0000 to 9999. */
  datatype Instant = Instant(year: nat, month: nat, day: nat, hour: nat, minute: nat, second: nat, nanos: nat)

  predicate Leap(y: nat) {
    y % 4 == 0 && (y % 100 != 0 || y % 400 == 0)
  }

  function DaysIn(y: nat, m: nat): nat {
    if m == 2 then (if Leap(y) then 29 else 28)
    else if m == 4 || m == 6 || m == 9 || m == 11 then 30
    else 31
  }

  predicate Valid(t: Instant) {
    && t.year < 10000 && 1 <= t.month <= 12 && 1 <= t.day <= DaysIn(t.year, t.month)
    && t.hour < 24 && t.minute < 60 && t.second < 60 && t.nanos < 1000000000
  }

  // ---- time order ----

  function DaysBeforeYear(y: nat): nat {
    if y == 0 then 0 else DaysBeforeYear(y - 1) + if Leap(y - 1) then 366 else 365
  }

  function DaysBeforeMonth(y: nat, m: nat): nat {
    if m <= 1 then 0 else DaysBeforeMonth(y, m - 1) + DaysIn(y, m - 1)
  }

  function Day(t: Instant): nat
    requires t.day >= 1
  {
    DaysBeforeYear(t.year) + DaysBeforeMonth(t.year, t.month) + t.day - 1
  }

  /** Whole seconds since the start of year 0. */
  function Seconds(t: Instant): nat
    requires t.day >= 1
  {
    Day(t) * 86400 + t.hour * 3600 + t.minute * 60 + t.second
  }

  lemma {:induction false} YearsGrow(y: nat, z: nat)
    requires y < z
    ensures DaysBeforeYear(y) + (if Leap(y) then 366 else 365) <= DaysBeforeYear(z)
  {
    if y < z - 1 {
      YearsGrow(y, z - 1);
    }
  }

  lemma {:induction false} MonthsGrow(y: nat, m: nat, n: nat)
    requires 1 <= m < n
    ensures DaysBeforeMonth(y, m) + DaysIn(y, m) <= DaysBeforeMonth(y, n)
  {
    if m < n - 1 {
      MonthsGrow(y, m, n - 1);
    }
  }

  lemma YearLength(y: nat)
    ensures DaysBeforeMonth(y, 13) == if Leap(y) then 366 else 365
  {
    assert DaysBeforeMonth(y, 1) == 0 && DaysBeforeMonth(y, 2) == 31;
    var toMarch := DaysBeforeMonth(y, 3);
    assert DaysBeforeMonth(y, 4) == toMarch + 31;
    assert DaysBeforeMonth(y, 5) == toMarch + 61;
    assert DaysBeforeMonth(y, 6) == toMarch + 92;
    assert DaysBeforeMonth(y, 7) == toMarch + 122;
    assert DaysBeforeMonth(y, 8) == toMarch + 153;
    assert DaysBeforeMonth(y, 9) == toMarch + 184;
    assert DaysBeforeMonth(y, 10) == toMarch + 214;
    assert DaysBeforeMonth(y, 11) == toMarch + 245;
    assert DaysBeforeMonth(y, 12) == toMarch + 275;
  }

  /** Calendar order, field by field. */
  predicate DateBefore(a: Instant, b: Instant) {
    a.year < b.year || (a.year == b.year && (a.month < b.month || (a.month == b.month && a.day < b.day)))
  }

  lemma DayOrder(a: Instant, b: Instant)
    requires Valid(a) && Valid(b) && DateBefore(a, b)
    ensures Day(a) < Day(b)
  {
    if a.year < b.year {
      YearsGrow(a.year, b.year);
      YearLength(a.year);
      MonthsGrow(a.year, a.month, 13);
    } else if a.month < b.month {
      MonthsGrow(a.year, a.month, b.month);
    }
  }

  // ---- string order ----

  /** Byte-wise string order. */
  predicate Less(a: string, b: string) {
    b != [] && (a == [] || a[0] < b[0] || (a[0] == b[0] && Less(a[1..], b[1..])))
  }

  /** a and b first differ at k. */
  predicate DifferAt(a: string, b: string, k: nat) {
    k < |a| && k < |b| && a[..k] == b[..k] && a[k] != b[k]
  }

  lemma {:induction false} LessAt(a: string, b: string, k: nat)
    requires DifferAt(a, b, k)
    ensures Less(a, b) <==> a[k] < b[k]
  {
    if k > 0 {
      assert a[0] == a[..k][0] == b[..k][0] == b[0];
      assert a[1..][..k - 1] == a[..k][1..] && b[1..][..k - 1] == b[..k][1..];
      LessAt(a[1..], b[1..], k - 1);
    }
  }

  lemma {:induction false} LessAfter(p: string, a: string, b: string)
    ensures Less(p + a, p + b) <==> Less(a, b)
  {
    if p == [] {
      assert p + a == a && p + b == b;
    } else {
      LessAfter(p[1..], a, b);
      assert (p + a)[1..] == p[1..] + a && (p + b)[1..] == p[1..] + b;
    }
  }

  /** Strings that are not prefixes of each other differ somewhere. */
  lemma {:induction false} Differ(a: string, b: string) returns (k: nat)
    requires !(a <= b) && !(b <= a)
    ensures DifferAt(a, b, k)
  {
    k := 0;
    assert a[..|a|] == a && b[..|b|] == b;
    while a[k] == b[k]
      invariant k < |a| && k < |b| && a[..k] == b[..k]
      decreases |a| - k
    {
      assert a[..k + 1] == a[..k] + [a[k]] && b[..k + 1] == b[..k] + [b[k]];
      k := k + 1;
    }
  }

  /** A first difference decides, whatever follows. */
  lemma LessDecided(a: string, b: string, x: string, y: string)
    requires |a| == |b| && a != b
    ensures Less(a + x, b + y) <==> Less(a, b)
  {
    assert a <= b ==> a == b;
    assert b <= a ==> a == b;
    var k := Differ(a, b);
    assert (a + x)[..k] == a[..k] && (b + y)[..k] == b[..k];
    LessAt(a, b, k);
    LessAt(a + x, b + y, k);
  }

  // ---- digits ----

  function Digit(n: nat): char
    requires n < 10
  {
    '0' + n as char
  }

  function Pow10(w: nat): nat {
    if w == 0 then 1 else 10 * Pow10(w - 1)
  }

  /** The last w decimal digits of n, zero-padded. */
  function Digits(n: nat, w: nat): (s: string)
    ensures |s| == w
    ensures forall c :: c in s ==> '0' <= c <= '9'
  {
    if w == 0 then [] else Digits(n / 10, w - 1) + [Digit(n % 10)]
  }

  lemma {:induction false} DigitsOrder(m: nat, n: nat, w: nat)
    requires m < Pow10(w) && n < Pow10(w)
    ensures Less(Digits(m, w), Digits(n, w)) <==> m < n
    ensures Digits(m, w) == Digits(n, w) <==> m == n
  {
    if w > 0 {
      DigitsOrder(m / 10, n / 10, w - 1);
      var a, b := Digits(m / 10, w - 1), Digits(n / 10, w - 1);
      var x, y := [Digit(m % 10)], [Digit(n % 10)];
      if m / 10 == n / 10 {
        LessAfter(a, x, y);
        assert (a + x)[w - 1] == x[0] && (b + y)[w - 1] == y[0];
      } else {
        LessDecided(a, b, x, y);
        assert (a + x)[..w - 1] == a && (b + y)[..w - 1] == b;
      }
    }
  }

  // ---- the format ----

  /** Three numbers with a separator between them, and what follows. */
  function Three(p: nat, w: nat, q: nat, r: nat, sep: string, rest: string): string {
    Digits(p, w) + (sep + (Digits(q, 2) + (sep + (Digits(r, 2) + rest))))
  }

  function TrimZeros(s: string): string {
    if s != [] && s[|s| - 1] == '0' then TrimZeros(s[..|s| - 1]) else s
  }

  /** The fraction's digits, without trailing zeros. */
  function Fraction(t: Instant): string {
    TrimZeros(Digits(t.nanos, 9))
  }

  function Suffix(t: Instant): string {
    if Fraction(t) == "" then "Z" else "." + (Fraction(t) + "Z")
  }

  /** time.Format(time.RFC3339Nano) in UTC. */
  function Timestamp(t: Instant): string {
    Three(t.year, 4, t.month, t.day, "-", "T" + Clock(t))
  }

  function Clock(t: Instant): string {
    Three(t.hour, 2, t.minute, t.second, ":", Suffix(t))
  }

  /** Two strings that start with fixed-width numbers compare by the numbers first. */
  lemma FieldOrder(m: nat, n: nat, w: nat, x: string, y: string)
    requires m < Pow10(w) && n < Pow10(w)
    ensures Less(Digits(m, w) + x, Digits(n, w) + y) <==> m < n || (m == n && Less(x, y))
  {
    DigitsOrder(m, n, w);
    if m == n {
      LessAfter(Digits(m, w), x, y);
    } else {
      LessDecided(Digits(m, w), Digits(n, w), x, y);
    }
  }

  lemma ThreeOrder(p: nat, q: nat, r: nat, x: string, p': nat, q': nat, r': nat, y: string, w: nat, sep: string)
    requires p < Pow10(w) && p' < Pow10(w) && q < 100 && q' < 100 && r < 100 && r' < 100
    ensures Less(Three(p, w, q, r, sep, x), Three(p', w, q', r', sep, y))
       <==> p < p' || (p == p' && (q < q' || (q == q' && (r < r' || (r == r' && Less(x, y))))))
  {
    assert Pow10(2) == 100;
    var d, d' := Digits(r, 2) + x, Digits(r', 2) + y;
    var m, m' := Digits(q, 2) + (sep + d), Digits(q', 2) + (sep + d');
    FieldOrder(p, p', w, sep + m, sep + m');
    LessAfter(sep, m, m');
    FieldOrder(q, q', 2, sep + d, sep + d');
    LessAfter(sep, d, d');
    FieldOrder(r, r', 2, x, y);
  }

  predicate ClockBefore(a: Instant, b: Instant) {
    a.hour < b.hour || (a.hour == b.hour && (a.minute < b.minute || (a.minute == b.minute && a.second < b.second)))
  }

  predicate SameSecond(a: Instant, b: Instant) {
    a.(nanos := 0) == b.(nanos := 0)
  }

  /** The string order, spelt out on the calendar fields. */
  lemma StringOrder(a: Instant, b: Instant)
    requires Valid(a) && Valid(b)
    ensures Less(Timestamp(a), Timestamp(b)) <==>
              || DateBefore(a, b)
              || (!DateBefore(b, a) && (ClockBefore(a, b) || (SameSecond(a, b) && Less(Suffix(a), Suffix(b)))))
  {
    assert Pow10(2) == 100 && Pow10(4) == 10000;
    ThreeOrder(a.year, a.month, a.day, "T" + Clock(a), b.year, b.month, b.day, "T" + Clock(b), 4, "-");
    LessAfter("T", Clock(a), Clock(b));
    ThreeOrder(a.hour, a.minute, a.second, Suffix(a), b.hour, b.minute, b.second, Suffix(b), 2, ":");
  }

  /** Instants in different whole seconds compare as strings exactly as in time. */
  lemma StringOrderIsTimeOrder(a: Instant, b: Instant)
    requires Valid(a) && Valid(b) && Seconds(a) != Seconds(b)
    ensures Less(Timestamp(a), Timestamp(b)) <==> Seconds(a) < Seconds(b)
  {
    StringOrder(a, b);
    if DateBefore(a, b) {
      DayOrder(a, b);
    } else if DateBefore(b, a) {
      DayOrder(b, a);
    }
  }

  // ---- within one second ----

  lemma {:induction false} TrimZerosResult(s: string)
    ensures TrimZeros(s) <= s
    ensures forall i :: |TrimZeros(s)| <= i < |s| ==> s[i] == '0'
  {
    if s != [] && s[|s| - 1] == '0' {
      TrimZerosResult(s[..|s| - 1]);
    }
  }

  lemma {:induction false} PointwiseNotLess(a: string, b: string)
    requires |a| == |b| && forall i :: 0 <= i < |a| ==> b[i] <= a[i]
    ensures !Less(a, b)
  {
    if a != [] {
      PointwiseNotLess(a[1..], b[1..]);
    }
  }

  /** Trimmed digits of a smaller number never start with those of a larger one. */
  lemma LaterIsNoPrefix(m: nat, n: nat)
    requires m < n < 1000000000
    ensures !(TrimZeros(Digits(n, 9)) <= TrimZeros(Digits(m, 9)))
    ensures Less(Digits(m, 9), Digits(n, 9))
  {
    var dm, dn := Digits(m, 9), Digits(n, 9);
    assert Pow10(9) == 1000000000;
    DigitsOrder(m, n, 9);
    TrimZerosResult(dm);
    TrimZerosResult(dn);
    if TrimZeros(dn) <= TrimZeros(dm) {
      forall i | 0 <= i < 9
        ensures dn[i] <= dm[i]
      {
        assert dm[i] in dm;
        if i < |TrimZeros(dn)| {
          assert dn[i] == TrimZeros(dn)[i] == TrimZeros(dm)[i];
        }
      }
      PointwiseNotLess(dm, dn);
    }
  }

  /** Fractions with their closing Z compare as numbers unless the smaller one is a prefix. */
  lemma FractionOrder(m: nat, n: nat)
    requires m < n < 1000000000
    ensures var f, g := TrimZeros(Digits(m, 9)), TrimZeros(Digits(n, 9));
            Less(f + "Z", g + "Z") <==> !(f <= g)
  {
    var dm, dn := Digits(m, 9), Digits(n, 9);
    var f, g := TrimZeros(dm), TrimZeros(dn);
    LaterIsNoPrefix(m, n);
    TrimZerosResult(dm);
    TrimZerosResult(dn);
    if f <= g {
      assert f != g && dn[|f|] in dn;
      assert g == dn[..|g|];
      assert g[|f|] == dn[|f|] <= '9';
      PrefixSortsLast(f, g);
    } else {
      var k := Differ(f, g);
      SameDifference(f, g, dm, dn, k);
      SameDifference(f, g, f + "Z", g + "Z", k);
    }
  }

  /** Within a second the string order is right exactly when the earlier
      fraction's digits are not a prefix of the later one's. */
  lemma WithinOneSecond(a: Instant, b: Instant)
    requires Valid(a) && Valid(b) && SameSecond(a, b) && a.nanos < b.nanos
    ensures Less(Timestamp(a), Timestamp(b)) <==> !(Fraction(a) <= Fraction(b))
  {
    StringOrder(a, b);
    LaterIsNoPrefix(a.nanos, b.nanos);
    if Fraction(a) != "" {
      LessAfter(".", Fraction(a) + "Z", Fraction(b) + "Z");
      FractionOrder(a.nanos, b.nanos);
    }
  }

  lemma PrefixSortsLast(f: string, g: string)
    requires f < g && g[|f|] <= '9'
    ensures !Less(f + "Z", g + "Z")
  {
    var tail := g[|f|..] + "Z";
    assert g + "Z" == f + tail;
    assert tail[0] == g[|f|];
    LessAfter(f, "Z", tail);
  }

  lemma SameDifference(a: string, b: string, a': string, b': string, k: nat)
    requires DifferAt(a, b, k) && a <= a' && b <= b'
    ensures Less(a', b') <==> Less(a, b)
  {
    assert a'[..k] == a[..k] && b'[..k] == b[..k];
    LessAt(a, b, k);
    LessAt(a', b', k);
  }

  /** So an exact second sorts after every later moment of that second. */
  lemma WholeSecondSortsLast(a: Instant, b: Instant)
    requires Valid(a) && Valid(b) && SameSecond(a, b) && a.nanos == 0 < b.nanos
    ensures Less(Timestamp(b), Timestamp(a)) && !Less(Timestamp(a), Timestamp(b))
  {
    ZerosVanish();
    LaterIsNoPrefix(0, b.nanos);
    WithinOneSecond(a, b);
    StringOrder(b, a);
  }

  lemma ZerosVanish()
    ensures TrimZeros(Digits(0, 9)) == ""
  {
    assert Digits(0, 9) == "000000000";
    assert "000000000"[..8] == "00000000";
    assert "00000000"[..7] == "0000000";
    assert "0000000"[..6] == "000000";
    assert "000000"[..5] == "00000";
    assert "00000"[..4] == "0000";
    assert "0000"[..3] == "000";
    assert "000"[..2] == "00";
    assert "00"[..1] == "0";
    assert "0"[..0] == "";
  }
}
