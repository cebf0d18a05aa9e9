/** String operations the components use: `toLowerCase`, `includes`, and the
    digit extraction of `replace(/\D/g, '')`. */
module Text {
  import opened Seqs

  /** Lower-case form of one character; only the letters A to Z are mapped. */
  function LowerChar(c: char): char {
    if 'A' <= c <= 'Z' then (c as int + 32) as char else c
  }

  /** `toLowerCase`. */
  function Lower(s: string): (r: string)
    ensures |r| == |s|
    ensures forall i :: 0 <= i < |s| ==> r[i] == LowerChar(s[i])
  {
    if s == [] then [] else [LowerChar(s[0])] + Lower(s[1..])
  }

  /** Lowering twice is lowering once, so comparisons on lowered strings ignore case. */
  lemma LowerIdempotent(s: string)
    ensures Lower(Lower(s)) == Lower(s)
  {
    assert forall i :: 0 <= i < |s| ==> LowerChar(LowerChar(s[i])) == LowerChar(s[i]);
  }

  /** `s.includes(t)`: `t` occurs in `s` as a contiguous block. */
  predicate Contains(s: string, t: string)
    decreases |s|
  {
    |t| <= |s| && (s[..|t|] == t || Contains(s[1..], t))
  }

  predicate IsDigit(c: char) {
    '0' <= c <= '9'
  }

  /** `replace(/\D/g, '')`: the digits of `s`, in order. */
  function Digits(s: string): (r: string)
    ensures |r| <= |s|
    ensures forall i :: 0 <= i < |r| ==> IsDigit(r[i])
    ensures forall c :: c in r <==> c in s && IsDigit(c)
    ensures IsSubseq(r, s)
  {
    if s == [] then []
    else if IsDigit(s[0]) then
      var rest := Digits(s[1..]);
      assert ([s[0]] + rest)[1..] == rest;
      [s[0]] + rest
    else Digits(s[1..])
  }

  /** Digit extraction distributes over concatenation. */
  lemma {:induction false} DigitsAppend(a: string, b: string)
    ensures Digits(a + b) == Digits(a) + Digits(b)
  {
    if a != [] {
      assert (a + b)[0] == a[0];
      assert (a + b)[1..] == a[1..] + b;
      DigitsAppend(a[1..], b);
      if IsDigit(a[0]) {
        assert Digits(a + b) == [a[0]] + Digits(a[1..] + b);
      } else {
        assert Digits(a + b) == Digits(a[1..] + b);
      }
    } else {
      assert a + b == b;
    }
  }

  /** A string made of digits only is its own digit extraction. */
  lemma {:induction false} DigitsOfDigits(s: string)
    requires forall i :: 0 <= i < |s| ==> IsDigit(s[i])
    ensures Digits(s) == s
  {
    if s != [] {
      DigitsOfDigits(s[1..]);
    }
  }
}

/** `Math.round(p / t * 100)` and the other roundings, in exact integer arithmetic. */
module Rounding {
  /** `Math.round(a / b)` for non-negative `a` and positive `b`: the nearest
      integer, halves rounded up. */
  function RoundDiv(a: nat, b: nat): (r: nat)
    requires b > 0
    ensures b * (2 * r - 1) <= 2 * a < b * (2 * r + 1)
  {
    var q := (2 * a + b) / (2 * b);
    assert 2 * a + b == 2 * b * q + (2 * a + b) % (2 * b);
    q
  }

  /** Rounding respects the order of numerators. */
  lemma RoundDivMonotone(a: nat, c: nat, b: nat)
    requires b > 0 && a <= c
    ensures RoundDiv(a, b) <= RoundDiv(c, b)
  {
    var r: int, s: int := RoundDiv(a, b), RoundDiv(c, b);
    MulCancel(b, 2 * r - 1, 2 * s + 1);
  }

  /** A positive factor can be cancelled from a strict inequality. */
  lemma MulCancel(b: nat, x: int, y: int)
    requires b > 0 && b * x < b * y
    ensures x < y
  {
  }

  /** A rounded quotient of a numerator at most `m * b` is at most `m`. */
  lemma RoundDivAtMost(a: nat, b: nat, m: nat)
    requires b > 0 && a <= m * b
    ensures RoundDiv(a, b) <= m
  {
    var r: int := RoundDiv(a, b);
    assert b * (2 * m + 1) == 2 * (m * b) + b;
    MulCancel(b, 2 * r - 1, 2 * m + 1);
  }

  /** A percentage `round(part / total * 100)`, 0 when `total` is 0. */
  function Percent(part: nat, total: nat): (r: nat)
    ensures total == 0 ==> r == 0
    ensures total > 0 ==> total * (2 * r - 1) <= 200 * part < total * (2 * r + 1)
    ensures part <= total ==> r <= 100
  {
    if total == 0 then 0
    else
      var r := RoundDiv(100 * part, total);
      if part <= total then RoundDivAtMost(100 * part, total, 100); r else r
  }
}

/** Calendar dates as (year, month, day) and the completed-years age rule. */
module Dates {
  datatype Date = Date(year: int, month: int, day: int)

  /** Calendar order: by year, then month, then day. */
  predicate DateLe(a: Date, b: Date) {
    a.year < b.year || (a.year == b.year && (a.month < b.month || (a.month == b.month && a.day <= b.day)))
  }

  /** Within a year, `today`'s (month, day) comes strictly before the birthday's. */
  predicate BeforeBirthday(birth: Date, today: Date) {
    var monthDiff := today.month - birth.month;
    monthDiff < 0 || (monthDiff == 0 && today.day < birth.day)
  }

  /** The `n`-th birthday. */
  function Anniversary(birth: Date, n: int): Date {
    Date(birth.year + n, birth.month, birth.day)
  }

  /** `calculateAge`: completed years. The result is the number of the last
      birthday reached on or before `today`. */
  function Age(birth: Date, today: Date): (age: int)
    ensures DateLe(Anniversary(birth, age), today)
    ensures !DateLe(Anniversary(birth, age + 1), today)
  {
    var age := today.year - birth.year;
    if BeforeBirthday(birth, today) then age - 1 else age
  }

  /** The completed-years characterisation determines the age. */
  lemma AgeUnique(birth: Date, today: Date, n: int)
    requires DateLe(Anniversary(birth, n), today)
    requires !DateLe(Anniversary(birth, n + 1), today)
    ensures n == Age(birth, today)
  {
  }

  /** Age never decreases as the reference date moves forward. */
  lemma AgeMonotone(birth: Date, t1: Date, t2: Date)
    requires DateLe(t1, t2)
    ensures Age(birth, t1) <= Age(birth, t2)
  {
  }

  /** On the `n`-th birthday the age is exactly `n`. */
  lemma AgeOnAnniversary(birth: Date, n: int)
    ensures Age(birth, Anniversary(birth, n)) == n
  {
  }

  /** A 29 February birthday is completed on 1 March in a non-leap year, not on 28 February. */
  lemma LeapDayBirthday()
    ensures Age(Date(2012, 2, 29), Date(2025, 2, 28)) == 12
    ensures Age(Date(2012, 2, 29), Date(2025, 3, 1)) == 13
  {
  }

  /** The year-only age shown on the attendance cards: the difference of the years. */
  function YearDifference(birth: Date, today: Date): (r: int)
    ensures r == Age(birth, today) || r == Age(birth, today) + 1
    ensures r == Age(birth, today) <==> !BeforeBirthday(birth, today)
  {
    today.year - birth.year
  }
}
