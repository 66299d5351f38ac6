/**
 * Byte strings: the order of strings.Compare, decimal numerals, and newline-terminated lines.
 * A Go string is modelled as the sequence of its bytes, each one a char.
 */
module Strings {
  import opened Timestamps

  /** strings.Compare(a, b) < 0. */
  predicate LexLess(a: string, b: string) {
    b != "" && (a == "" || a[0] < b[0] || (a[0] == b[0] && LexLess(a[1..], b[1..])))
  }

  lemma {:induction false} LexIrreflexive(a: string)
    ensures !LexLess(a, a)
  {
    if a != "" {
      LexIrreflexive(a[1..]);
    }
  }

  lemma {:induction false} LexTotal(a: string, b: string)
    ensures LexLess(a, b) || LexLess(b, a) || a == b
    ensures !(LexLess(a, b) && LexLess(b, a))
  {
    if a != "" && b != "" && a[0] == b[0] {
      LexTotal(a[1..], b[1..]);
      assert a == [a[0]] + a[1..] && b == [b[0]] + b[1..];
    }
  }

  lemma {:induction false} LexTransitive(a: string, b: string, c: string)
    requires LexLess(a, b) && LexLess(b, c)
    ensures LexLess(a, c)
    decreases |a|
  {
    if a != "" && a[0] == b[0] == c[0] {
      LexTransitive(a[1..], b[1..], c[1..]);
    }
  }

  lemma LexShift(a: string, b: string)
    requires a != "" && b != "" && a[0] == b[0]
    ensures |a| < |b| ==> (a == b[..|a|] <==> a[1..] == b[1..][..|a| - 1])
    ensures (exists k :: 0 <= k < |a| && k < |b| && a[..k] == b[..k] && a[k] < b[k]) <==>
      exists k :: 0 <= k < |a[1..]| && k < |b[1..]| && a[1..][..k] == b[1..][..k] && a[1..][k] < b[1..][k]
  {
    if |a| < |b| {
      assert a == [a[0]] + a[1..] && b[..|a|][1..] == b[1..][..|a| - 1];
      assert b[..|a|] == [b[0]] + b[..|a|][1..];
    }
    if k :| 0 <= k < |a| && k < |b| && a[..k] == b[..k] && a[k] < b[k] {
      assert k > 0 && a[1..][..k - 1] == a[..k][1..] && b[1..][..k - 1] == b[..k][1..];
      assert a[1..][k - 1] < b[1..][k - 1];
    }
    if k :| 0 <= k < |a[1..]| && k < |b[1..]| && a[1..][..k] == b[1..][..k] && a[1..][k] < b[1..][k] {
      assert a[..k + 1] == [a[0]] + a[1..][..k] && b[..k + 1] == [b[0]] + b[1..][..k];
      assert a[k + 1] < b[k + 1];
    }
  }

  /** Strict byte order: a ends inside b, or has the smaller byte where the two first differ. */
  lemma {:induction false} LexLessIff(a: string, b: string)
    ensures LexLess(a, b) <==>
      || (|a| < |b| && a == b[..|a|])
      || exists k :: 0 <= k < |a| && k < |b| && a[..k] == b[..k] && a[k] < b[k]
  {
    if a != "" && b != "" {
      if a[0] == b[0] {
        LexLessIff(a[1..], b[1..]);
        LexShift(a, b);
      } else {
        assert a[..0] == b[..0];
        forall k | 0 < k < |a| && k < |b| ensures a[..k] != b[..k] {
          assert a[..k][0] == a[0] && b[..k][0] == b[0];
        }
        assert |a| < |b| ==> b[..|a|][0] == b[0];
      }
    }
  }

  /** strconv.FormatInt(n, 10). */
  function Decimal(n: nat): (s: string)
    ensures s != ""
    ensures forall c :: c in s ==> '0' <= c <= '9'
  {
    if n < 10 then [DigitChar(n)] else Decimal(n / 10) + [DigitChar(n % 10)]
  }

  /** The numeral reads back, and has no leading zero. */
  lemma {:induction false} DecimalReads(n: nat)
    ensures Numeral(Decimal(n)) == n && (n > 0 ==> Decimal(n)[0] != '0')
  {
    DigitValue(n % 10);
    if n >= 10 {
      assert Decimal(n)[..|Decimal(n)| - 1] == Decimal(n / 10);
      DecimalReads(n / 10);
    } else {
      assert Decimal(n)[..0] == "";
    }
  }

  lemma {:induction false} DecimalInjective(a: nat, b: nat)
    requires Decimal(a) == Decimal(b)
    ensures a == b
  {
    var s, t := Decimal(a), Decimal(b);
    assert s[|s| - 1] == DigitChar(a % 10) && t[|t| - 1] == DigitChar(b % 10);
    if a >= 10 && b >= 10 {
      assert s[..|s| - 1] == Decimal(a / 10) && t[..|t| - 1] == Decimal(b / 10);
      DecimalInjective(a / 10, b / 10);
    }
  }

  predicate NoNewline(s: string) { '\n' !in s }

  /** Each line followed by a newline. */
  function Cat(lines: seq<string>): string {
    if lines == [] then "" else lines[0] + "\n" + Cat(lines[1..])
  }

  lemma {:induction false} CatAppend(a: seq<string>, b: seq<string>)
    ensures Cat(a + b) == Cat(a) + Cat(b)
  {
    if a == [] {
      assert a + b == b;
    } else {
      CatAppend(a[1..], b);
      assert (a + b)[0] == a[0] && (a + b)[1..] == a[1..] + b;
    }
  }

  lemma FirstLine(a: string, x: string, b: string, y: string)
    requires NoNewline(a) && NoNewline(b)
    requires a + "\n" + x == b + "\n" + y
    ensures a == b && x == y
  {
    var s := a + "\n" + x;
    var t := b + "\n" + y;
    assert s[|a|] == '\n' && t[|b|] == '\n';
    assert forall k :: 0 <= k < |a| ==> s[k] == a[k];
    assert forall k :: 0 <= k < |b| ==> t[k] == b[k];
    assert |a| == |b|;
    assert a == s[..|a|] && b == t[..|b|];
    assert x == s[|a| + 1..] && y == t[|b| + 1..];
  }

  /** Newline-free lines are recovered from their concatenation. */
  lemma {:induction false} CatInjective(a: seq<string>, b: seq<string>)
    requires forall l :: l in a ==> NoNewline(l)
    requires forall l :: l in b ==> NoNewline(l)
    requires Cat(a) == Cat(b)
    ensures a == b
  {
    if a != [] && b != [] {
      FirstLine(a[0], Cat(a[1..]), b[0], Cat(b[1..]));
      CatInjective(a[1..], b[1..]);
      assert a == [a[0]] + a[1..] && b == [b[0]] + b[1..];
    }
  }

  /** The lines of an arbitrary text, cut at its newlines. */
  function Split(m: string): (lines: seq<string>)
    ensures lines != []
    ensures forall l :: l in lines ==> NoNewline(l)
  {
    if m == "" then [""]
    else
      var rest := Split(m[1..]);
      assert forall k :: 0 <= k < |rest| ==> NoNewline(rest[k]);
      if m[0] == '\n' then [""] + rest
      else [[m[0]] + rest[0]] + rest[1..]
  }

  lemma CatCons(l: string, ls: seq<string>)
    ensures Cat([l] + ls) == l + "\n" + Cat(ls)
  {
    assert ([l] + ls)[1..] == ls;
  }

  lemma {:induction false} CatSplit(m: string)
    ensures Cat(Split(m)) == m + "\n"
  {
    if m == "" {
      assert Split(m) == [""] + [];
      CatCons("", []);
    } else {
      var c, rest := m[0], Split(m[1..]);
      CatSplit(m[1..]);
      assert rest == [rest[0]] + rest[1..];
      CatCons(rest[0], rest[1..]);
      CatCons([c] + rest[0], rest[1..]);
      CatCons("", rest);
      assert [c] + rest[0] + "\n" + Cat(rest[1..]) == [c] + (rest[0] + "\n" + Cat(rest[1..]));
      assert m + "\n" == [c] + (m[1..] + "\n");
    }
  }

  lemma SplitInjective(m: string, n: string)
    requires Split(m) == Split(n)
    ensures m == n
  {
    CatSplit(m);
    CatSplit(n);
    assert m == (m + "\n")[..|m|] && n == (n + "\n")[..|n|];
  }

  predicate EndsIn(s: string, c: char) { s != "" && s[|s| - 1] == c }

  /** A line ending in c marks its place when no later line ends in c. */
  lemma LastMarker(x: seq<string>, m: string, f: seq<string>, y: seq<string>, n: string, g: seq<string>, c: char)
    requires EndsIn(m, c) && EndsIn(n, c)
    requires forall l :: l in f ==> !EndsIn(l, c)
    requires forall l :: l in g ==> !EndsIn(l, c)
    requires x + [m] + f == y + [n] + g
    ensures x == y && m == n && f == g
  {
    var s := x + [m] + f;
    var t := y + [n] + g;
    assert s[|x|] == m && t[|y|] == n;
    assert forall k :: |x| < k < |s| ==> s[k] == f[k - |x| - 1];
    assert forall k :: |y| < k < |t| ==> t[k] == g[k - |y| - 1];
    assert |x| == |y|;
    assert x == s[..|x|] && y == t[..|y|];
    assert f == s[|x| + 1..] && g == t[|y| + 1..];
  }
}
