/** Decimal numbers as Go's strconv.Atoi and strconv.ParseInt read them when the
    caller drops the error: 0 for text that is not a number, the nearest 64-bit
    value for one out of range. (Text after a number too large for 64 bits is not
    even looked at.) */
module Decimal {
  import opened Timestamps

  const MAX_INT64: int := 0x7FFF_FFFF_FFFF_FFFF
  const MIN_INT64: int := -0x8000_0000_0000_0000
  const MAX_UINT64: int := 0xFFFF_FFFF_FFFF_FFFF

  predicate InRange(n: int) {
    MIN_INT64 <= n <= MAX_INT64
  }

  function Clamp(n: int): int {
    if n < MIN_INT64 then MIN_INT64 else if n > MAX_INT64 then MAX_INT64 else n
  }

  /** The result of int64 arithmetic, which wraps around. */
  function Wrap(n: int): (w: int)
    ensures InRange(w)
    ensures InRange(n) ==> w == n
  {
    (n - MIN_INT64) % 0x1_0000_0000_0000_0000 + MIN_INT64
  }

  predicate IsDigit(c: char) {
    '0' <= c <= '9'
  }

  predicate AllDigits(s: string) {
    forall i :: 0 <= i < |s| ==> IsDigit(s[i])
  }

  function Value(s: string): nat
    requires AllDigits(s)
  {
    if s == [] then 0 else 10 * Value(s[..|s| - 1]) + (s[|s| - 1] - '0') as nat
  }

  function LeadingDigits(s: string): (d: string)
    ensures d <= s && AllDigits(d)
    ensures AllDigits(s) ==> d == s
    ensures |d| < |s| ==> !IsDigit(s[|d|])
  {
    if s == [] || !IsDigit(s[0]) then [] else [s[0]] + LeadingDigits(s[1..])
  }

  /** Digits are read only until they exceed 64 bits: text that follows such a
      number is not seen, and any other text makes the whole 0. */
  function Magnitude(s: string): int {
    var d := LeadingDigits(s);
    if d == s || Value(d) > MAX_UINT64 then Value(d) else 0
  }

  /** The value an unchecked Atoi or ParseInt(_, 10, 64) yields. */
  function Atoi(s: string): (n: int)
    ensures InRange(n)
  {
    if s != [] && s[0] == '-' then Clamp(-Magnitude(s[1..]))
    else if s != [] && s[0] == '+' then Clamp(Magnitude(s[1..]))
    else Clamp(Magnitude(s))
  }

  lemma AtoiSign(s: string)
    ensures Atoi("-" + s) == Clamp(-Magnitude(s)) && Atoi("+" + s) == Clamp(Magnitude(s))
    ensures s == "" || IsDigit(s[0]) ==> Atoi(s) == Clamp(Magnitude(s))
  {
    assert ("-" + s)[1..] == s && ("+" + s)[1..] == s;
  }

  /** Digits with an optional sign are their value, or the nearest one in range. */
  lemma AtoiOfDigits(d: string)
    requires d != "" && AllDigits(d)
    ensures Value(d) <= 0x7FFF_FFFF_FFFF_FFFF ==> Atoi(d) == Atoi("+" + d) == Value(d)
    ensures Value(d) > 0x7FFF_FFFF_FFFF_FFFF ==> Atoi(d) == Atoi("+" + d) == 0x7FFF_FFFF_FFFF_FFFF
    ensures Value(d) <= 0x8000_0000_0000_0000 ==> Atoi("-" + d) + Value(d) == 0
    ensures Value(d) > 0x8000_0000_0000_0000 ==> Atoi("-" + d) == -0x8000_0000_0000_0000
  {
    AtoiSign(d);
    assert Magnitude(d) == Value(d);
  }

  lemma LeadingOf(d: string, rest: string)
    requires AllDigits(d) && rest != "" && !IsDigit(rest[0])
    ensures LeadingDigits(d + rest) == d
  {
    var t, lead := d + rest, LeadingDigits(d + rest);
    assert t[|d|] == rest[0] && forall i :: 0 <= i < |d| ==> t[i] == d[i];
    assert forall i :: 0 <= i < |lead| ==> lead[i] == t[i];
    assert |lead| == |d|;
  }

  /** Digits followed by anything else are 0, unless they are already too large. */
  lemma AtoiOfOther(d: string, rest: string)
    requires AllDigits(d) && rest != "" && !IsDigit(rest[0])
    ensures Value(d) <= 0xFFFF_FFFF_FFFF_FFFF ==> Atoi("+" + (d + rest)) == Atoi("-" + (d + rest)) == 0
    ensures d != "" && Value(d) <= 0xFFFF_FFFF_FFFF_FFFF ==> Atoi(d + rest) == 0
    ensures d != "" && Value(d) > 0xFFFF_FFFF_FFFF_FFFF ==> Atoi(d + rest) == 0x7FFF_FFFF_FFFF_FFFF
  {
    LeadingOf(d, rest);
    AtoiSign(d + rest);
    assert d != "" ==> (d + rest)[0] == d[0];
  }

  /** Text that starts with neither a digit nor a sign is 0. */
  lemma AtoiOfText(s: string)
    ensures s == "" || (!IsDigit(s[0]) && s[0] != '-' && s[0] != '+') ==> Atoi(s) == 0
    ensures Atoi("-") == Atoi("+") == 0
  {
    AtoiSign("");
    assert "-" + "" == "-" && "+" + "" == "+";
  }

  function Natural(n: nat): (s: string)
    ensures s != [] && AllDigits(s)
  {
    if n < 10 then [Digit(n)] else Natural(n / 10) + [Digit(n % 10)]
  }

  /** strconv.Itoa */
  function Itoa(n: int): (s: string)
    ensures s != [] && forall c :: c in s ==> IsDigit(c) || c == '-'
  {
    if n < 0 then "-" + Natural(-n) else Natural(n)
  }

  lemma ValueOfLast(s: string, c: char)
    requires AllDigits(s) && IsDigit(c)
    ensures AllDigits(s + [c]) && Value(s + [c]) == 10 * Value(s) + (c - '0') as nat
  {
    assert (s + [c])[..|s|] == s;
  }

  lemma {:induction false} ValueOfNatural(n: nat)
    ensures Value(Natural(n)) == n
  {
    if n < 10 {
      assert Natural(n)[..0] == [];
    } else {
      ValueOfNatural(n / 10);
      ValueOfLast(Natural(n / 10), Digit(n % 10));
    }
  }

  /** Atoi undoes Itoa on the whole int64 range. */
  lemma AtoiOfItoa(n: int)
    requires InRange(n)
    ensures Atoi(Itoa(n)) == n
  {
    if n < 0 {
      AtoiOfMinus(-n);
    } else {
      ValueOfNatural(n);
      assert IsDigit(Natural(n)[0]);
    }
  }

  lemma AtoiOfMinus(n: int)
    requires 0 <= n <= -MIN_INT64
    ensures Atoi("-" + Natural(n)) == -n
  {
    ValueOfNatural(n);
    var s := "-" + Natural(n);
    assert s[0] == '-' && s[1..] == Natural(n);
  }

  /** Zero-padding does not matter. */
  lemma AtoiOfTwoDigits(n: nat)
    requires n < 100
    ensures Atoi(Digits(n, 2)) == n
  {
    var tens, ones := Digit(n / 10), Digit(n % 10);
    assert Digits(n / 10, 1) == Digits(n / 10 / 10, 0) + [Digit(n / 10 % 10)];
    assert Digits(n, 2) == [tens] + [ones];
    ValueOfLast([], tens);
    assert [] + [tens] == [tens];
    ValueOfLast([tens], ones);
    assert IsDigit(tens) && Digits(n, 2)[0] == tens;
  }
}
