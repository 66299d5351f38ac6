/** UTC instants as calendar fields, and the RFC 3339 text the commit encoding writes for them. */
module Timestamps {
  datatype Timestamp = Timestamp(year: nat, month: nat, day: nat, hour: nat, minute: nat, second: nat, nanos: nat)
  {
    ghost predicate Valid() {
      && year < 10000 && month < 100 && day < 100
      && hour < 100 && minute < 100 && second < 100 && nanos < 1000000000
    }

    /** Calendar order, which is the order of the instants. */
    predicate Before(that: Timestamp) {
      if year != that.year then year < that.year
      else if month != that.month then month < that.month
      else if day != that.day then day < that.day
      else if hour != that.hour then hour < that.hour
      else if minute != that.minute then minute < that.minute
      else if second != that.second then second < that.second
      else nanos < that.nanos
    }
  }

  function DigitChar(d: nat): (c: char)
    requires d < 10
  {
    ['0', '1', '2', '3', '4', '5', '6', '7', '8', '9'][d]
  }

  /** The number a text of decimal digits stands for. */
  function Numeral(s: string): int {
    if s == "" then 0 else 10 * Numeral(s[..|s| - 1]) + (s[|s| - 1] as int - '0' as int)
  }

  lemma DigitValue(d: nat)
    requires d < 10
    ensures '0' <= DigitChar(d) <= '9' && DigitChar(d) as int - '0' as int == d
  {
  }

  function Pow10(w: nat): (r: nat)
    ensures r >= 1
  {
    if w == 0 then 1 else 10 * Pow10(w - 1)
  }

  /** n in exactly w decimal digits. */
  function Fixed(n: nat, w: nat): (s: string)
    ensures |s| == w
    ensures forall c :: c in s ==> '0' <= c <= '9'
  {
    if w == 0 then "" else Fixed(n / 10, w - 1) + [DigitChar(n % 10)]
  }

  lemma {:induction false} FixedInjective(a: nat, b: nat, w: nat)
    requires a < Pow10(w) && b < Pow10(w)
    requires Fixed(a, w) == Fixed(b, w)
    ensures a == b
  {
    if w > 0 {
      var s, t := Fixed(a, w), Fixed(b, w);
      assert s[..w - 1] == Fixed(a / 10, w - 1) && s[w - 1] == DigitChar(a % 10);
      assert t[..w - 1] == Fixed(b / 10, w - 1) && t[w - 1] == DigitChar(b % 10);
      FixedInjective(a / 10, b / 10, w - 1);
    }
  }

  lemma {:induction false} FixedValue(n: nat, w: nat)
    requires n < Pow10(w)
    ensures Numeral(Fixed(n, w)) == n
  {
    if w > 0 {
      DigitValue(n % 10);
      assert Fixed(n, w)[..w - 1] == Fixed(n / 10, w - 1);
      FixedValue(n / 10, w - 1);
    }
  }

  /** Drops the trailing zeros, as the ".999999999" layout does. */
  function TrimZeros(s: string): (t: string)
    ensures t <= s
    ensures forall c :: c in t ==> c in s
  {
    if s != "" && s[|s| - 1] == '0' then TrimZeros(s[..|s| - 1]) else s
  }

  lemma {:induction false} TrimZerosInjective(a: string, b: string)
    requires |a| == |b| && TrimZeros(a) == TrimZeros(b)
    ensures a == b
  {
    if a == "" {
    } else {
      var n := |a| - 1;
      if a[n] == '0' && b[n] == '0' {
        TrimZerosInjective(a[..n], b[..n]);
      }
      assert a == a[..n] + [a[n]] && b == b[..n] + [b[n]];
    }
  }

  lemma TimesTen(x: int, y: int)
    ensures 10 * (x * y) == x * (10 * y)
  {
  }

  lemma {:induction false} TrimZerosValue(s: string)
    ensures var t := TrimZeros(s);
      && Numeral(s) == Numeral(t) * Pow10(|s| - |t|) && (t != "" ==> t[|t| - 1] != '0')
  {
    if s != "" && s[|s| - 1] == '0' {
      TrimZerosValue(s[..|s| - 1]);
      var t := TrimZeros(s);
      TimesTen(Numeral(t), Pow10(|s| - 1 - |t|));
    }
  }

  function Fraction(nanos: nat): (s: string)
    ensures forall c :: c in s ==> c == '.' || '0' <= c <= '9'
  {
    if nanos == 0 then "" else "." + TrimZeros(Fixed(nanos, 9))
  }

  function DateTime(t: Timestamp): (s: string)
    ensures |s| == 19
    ensures '\n' !in s
  {
    Fixed(t.year, 4) + "-" + Fixed(t.month, 2) + "-" + Fixed(t.day, 2) + "T" +
    Fixed(t.hour, 2) + ":" + Fixed(t.minute, 2) + ":" + Fixed(t.second, 2)
  }

  /** The text of section 5.6 of RFC 3339 for a UTC instant, with nanoseconds. */
  function Format(t: Timestamp): (s: string)
    ensures '\n' !in s
    ensures s != "" && s[|s| - 1] == 'Z'
  {
    DateTime(t) + Fraction(t.nanos) + "Z"
  }

  lemma FractionInjective(a: nat, b: nat)
    requires a < 1000000000 && b < 1000000000 && Fraction(a) == Fraction(b)
    ensures a == b
  {
    if a != 0 && b != 0 {
      assert Fraction(a)[1..] == TrimZeros(Fixed(a, 9)) && Fraction(b)[1..] == TrimZeros(Fixed(b, 9));
      TrimZerosInjective(Fixed(a, 9), Fixed(b, 9));
      assert Pow10(9) == 1000000000;
      FixedInjective(a, b, 9);
    }
  }

  lemma DateTimeFields(t: Timestamp)
    ensures DateTime(t)[0..4] == Fixed(t.year, 4) && DateTime(t)[5..7] == Fixed(t.month, 2)
    ensures DateTime(t)[8..10] == Fixed(t.day, 2) && DateTime(t)[11..13] == Fixed(t.hour, 2)
    ensures DateTime(t)[14..16] == Fixed(t.minute, 2) && DateTime(t)[17..19] == Fixed(t.second, 2)
  {
  }

  lemma SameText(a: Timestamp, b: Timestamp)
    requires a.Valid() && b.Valid() && Format(a) == Format(b)
    ensures a == b
  {
    var s, t := Format(a), Format(b);
    assert s[..19] == DateTime(a) && t[..19] == DateTime(b);
    assert s[19..|s| - 1] == Fraction(a.nanos) && t[19..|t| - 1] == Fraction(b.nanos);
    FractionInjective(a.nanos, b.nanos);
    DateTimeFields(a);
    DateTimeFields(b);
    assert Pow10(2) == 100 && Pow10(4) == 10000;
    FixedInjective(a.year, b.year, 4);
    FixedInjective(a.month, b.month, 2);
    FixedInjective(a.day, b.day, 2);
    FixedInjective(a.hour, b.hour, 2);
    FixedInjective(a.minute, b.minute, 2);
    FixedInjective(a.second, b.second, 2);
  }

  /** Two valid instants with the same text are the same instant. */
  lemma FormatInjective(a: Timestamp, b: Timestamp)
    requires a.Valid() && b.Valid()
    ensures Format(a) == Format(b) ==> a == b
  {
    if Format(a) == Format(b) {
      SameText(a, b);
    }
  }

  lemma DateTimeReads(t: Timestamp)
    ensures var s := DateTime(t);
      && s[4] == '-' && s[7] == '-' && s[10] == 'T' && s[13] == ':' && s[16] == ':'
  {
    hide Fixed;
  }

  lemma FieldsRead(t: Timestamp)
    requires t.Valid()
    ensures Numeral(Fixed(t.year, 4)) == t.year && Numeral(Fixed(t.month, 2)) == t.month
    ensures Numeral(Fixed(t.day, 2)) == t.day && Numeral(Fixed(t.hour, 2)) == t.hour
    ensures Numeral(Fixed(t.minute, 2)) == t.minute && Numeral(Fixed(t.second, 2)) == t.second
  {
    hide Numeral, Fixed;
    assert Pow10(2) == 100 && Pow10(4) == 10000;
    FixedValue(t.year, 4);
    FixedValue(t.month, 2);
    FixedValue(t.day, 2);
    FixedValue(t.hour, 2);
    FixedValue(t.minute, 2);
    FixedValue(t.second, 2);
  }

  predicate Digits(s: string) { forall c :: c in s ==> '0' <= c <= '9' }

  lemma EmptyNumeral()
    ensures Numeral("") == 0
  {
  }

  /**
   * The text reads back, field by field: YYYY-MM-DDThh:mm:ss, then for a fraction a point and its
   * digits without trailing zeros, then Z.
   */
  lemma FormatReads(t: Timestamp)
    requires t.Valid()
    ensures var s := Format(t);
      && |s| >= 20 && s[|s| - 1] == 'Z'
      && s[4] == '-' && s[7] == '-' && s[10] == 'T' && s[13] == ':' && s[16] == ':'
      && Digits(s[0..4]) && Digits(s[5..7]) && Digits(s[8..10])
      && Digits(s[11..13]) && Digits(s[14..16]) && Digits(s[17..19])
      && Numeral(s[0..4]) == t.year && Numeral(s[5..7]) == t.month && Numeral(s[8..10]) == t.day
      && Numeral(s[11..13]) == t.hour && Numeral(s[14..16]) == t.minute && Numeral(s[17..19]) == t.second
    ensures var s := Format(t); t.nanos == 0 ==> |s| == 20
    ensures var s := Format(t); t.nanos != 0 ==>
      && 22 <= |s| <= 30 && s[19] == '.' && s[|s| - 2] != '0' && Digits(s[20..|s| - 1])
      && Numeral(s[20..|s| - 1]) * Pow10(30 - |s|) == t.nanos
  {
    hide Fixed, Numeral, TrimZeros, DateTime;
    var s, d := Format(t), DateTime(t);
    DateTimeReads(t);
    FieldsRead(t);
    DateTimeFields(t);
    assert s[..19] == d;
    assert s[0..4] == d[0..4] && s[5..7] == d[5..7] && s[8..10] == d[8..10];
    assert s[11..13] == d[11..13] && s[14..16] == d[14..16] && s[17..19] == d[17..19];
    if t.nanos != 0 {
      var f := TrimZeros(Fixed(t.nanos, 9));
      assert Pow10(9) == 1000000000;
      FixedValue(t.nanos, 9);
      TrimZerosValue(Fixed(t.nanos, 9));
      assert Numeral("") == 0 by { EmptyNumeral(); }
      assert s[20..|s| - 1] == f && s[|s| - 2] == f[|f| - 1];
    }
  }

  /** A valid time as one number, a field to a group of digits. */
  function Instant(t: Timestamp): nat {
    var date, time := (t.year * 100 + t.month) * 100 + t.day, (t.hour * 100 + t.minute) * 100 + t.second;
    (date * 1000000 + time) * 1000000000 + t.nanos
  }

  /** Before is the order of the instants. */
  lemma BeforeIff(t: Timestamp, u: Timestamp)
    requires t.Valid() && u.Valid()
    ensures t.Before(u) <==> Instant(t) < Instant(u)
  {
  }
}
