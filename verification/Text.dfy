/** Decimal printing and parsing, the byte order on strings, and substring search:
    what the operator relies on in fmt.Sprintf, strconv.Atoi, `<` on strings,
    strings.Contains and strings.LastIndex. */
module Text {

  datatype Option<+T> = None | Some(value: T)

  /** A point in time, in milliseconds since the epoch. */
  type Instant = int

  // ---------- decimal notation ----------

  function Digit(d: nat): char
    requires d < 10
  {
    '0' + d as char
  }

  /** What `%d` prints for a non-negative number. */
  function Decimal(n: nat): string {
    if n < 10 then [Digit(n)] else Decimal(n / 10) + [Digit(n % 10)]
  }

  /** What `%d` prints. */
  function PrintInt(n: int): string {
    if n < 0 then "-" + Decimal(-n) else Decimal(n)
  }

  predicate IsDigit(c: char) { '0' <= c <= '9' }

  /** The number that a text of digits denotes. */
  function DigitsValue(s: string): nat
    requires forall i :: 0 <= i < |s| ==> IsDigit(s[i])
  {
    if s == [] then 0
    else
      var last := s[|s| - 1];
      assert IsDigit(last);
      10 * DigitsValue(s[..|s| - 1]) + (last as int - '0' as int)
  }

  /** strconv.Atoi with the error dropped: anything that is not an optional sign
      followed by digits reads as zero. */
  function Atoi(s: string): int {
    var body := if s != [] && s[0] in "+-" then s[1..] else s;
    if body == [] || exists i :: 0 <= i < |body| && !IsDigit(body[i]) then 0
    else var value: int := DigitsValue(body); if s[0] == '-' then -value else value
  }

  lemma {:induction false} DecimalIsDigits(n: nat)
    ensures Decimal(n) != []
    ensures forall i :: 0 <= i < |Decimal(n)| ==> IsDigit(Decimal(n)[i])
  {
    if n >= 10 { DecimalIsDigits(n / 10); }
  }

  lemma {:induction false} DecimalValue(n: nat)
    ensures (forall i :: 0 <= i < |Decimal(n)| ==> IsDigit(Decimal(n)[i])) && DigitsValue(Decimal(n)) == n
  {
    DecimalIsDigits(n);
    if n >= 10 {
      DecimalValue(n / 10);
      assert Decimal(n)[..|Decimal(n)| - 1] == Decimal(n / 10);
    }
  }

  /** Printing and then parsing a number is the identity. */
  lemma AtoiOfDecimal(n: nat)
    ensures Atoi(Decimal(n)) == n
  {
    DecimalValue(n);
    DecimalIsDigits(n);
  }

  /** A sign is taken. */
  lemma AtoiOfSigned(n: nat)
    ensures Atoi("-" + Decimal(n)) == 0 - n && Atoi("+" + Decimal(n)) == n
  {
    DecimalValue(n);
    DecimalIsDigits(n);
    assert ("-" + Decimal(n))[1..] == Decimal(n) && ("+" + Decimal(n))[1..] == Decimal(n);
  }

  lemma DecimalInjective(m: nat, n: nat)
    requires Decimal(m) == Decimal(n)
    ensures m == n
  {
    DecimalValue(m);
    DecimalValue(n);
  }

  // ---------- the order on strings ----------

  /** `a < b` on Go strings. */
  predicate StringLess(a: string, b: string) {
    b != [] && (a == [] || a[0] < b[0] || (a[0] == b[0] && StringLess(a[1..], b[1..])))
  }

  lemma {:induction false} StringLessAsymmetric(a: string, b: string)
    ensures !(StringLess(a, b) && StringLess(b, a))
  {
    if a != [] && b != [] { StringLessAsymmetric(a[1..], b[1..]); }
  }

  lemma {:induction false} StringLessTotal(a: string, b: string)
    ensures a == b || StringLess(a, b) || StringLess(b, a)
  {
    if a != [] && b != [] {
      StringLessTotal(a[1..], b[1..]);
      if a[0] == b[0] && a[1..] == b[1..] {
        assert a == [a[0]] + a[1..] == [b[0]] + b[1..] == b;
      }
    }
  }

  lemma {:induction false} StringLessTransitive(a: string, b: string, c: string)
    requires StringLess(a, b) && StringLess(b, c)
    ensures StringLess(a, c)
  {
    if a != [] && a[0] == b[0] == c[0] { StringLessTransitive(a[1..], b[1..], c[1..]); }
  }

  /** One string comes before another exactly when it is cut off where the other goes on, or has the
      smaller character where they first differ. */
  lemma {:induction false} StringLessMeaning(a: string, b: string)
    ensures StringLess(a, b) <==>
            exists k :: 0 <= k <= |a| && k < |b| && a[..k] == b[..k] && (k == |a| || a[k] < b[k])
  {
    if a != [] && b != [] && a[0] == b[0] {
      StringLessMeaning(a[1..], b[1..]);
      if k :| 0 <= k <= |a| && k < |b| && a[..k] == b[..k] && (k == |a| || a[k] < b[k]) {
        assert k > 0 && a[1..][..k - 1] == a[..k][1..] == b[..k][1..] == b[1..][..k - 1];
      }
      var u, v := a[1..], b[1..];
      if k :| 0 <= k <= |u| && k < |v| && u[..k] == v[..k] && (k == |u| || u[k] < v[k]) {
        assert a[..k + 1] == [a[0]] + a[1..][..k] && b[..k + 1] == [b[0]] + b[1..][..k];
        assert k + 1 == |a| || a[k + 1] < b[k + 1];
      }
    } else if b != [] {
      assert a[..0] == b[..0];
      forall k | 0 < k <= |a| && k < |b| ensures a[..k] != b[..k] {
        assert a[..k][0] == a[0] && b[..k][0] == b[0];
      }
    }
  }

  /** Comparing two strings that start with equally long blocks compares the blocks first. */
  lemma {:induction false} StringLessBlocks(x: string, u: string, y: string, v: string)
    requires |x| == |y|
    ensures StringLess(x + u, y + v) <==> StringLess(x, y) || (x == y && StringLess(u, v))
  {
    if x == [] {
      assert x + u == u && y + v == v;
    } else {
      StringLessBlocks(x[1..], u, y[1..], v);
      assert (x + u)[1..] == x[1..] + u && (y + v)[1..] == y[1..] + v;
      assert x == [x[0]] + x[1..] && y == [y[0]] + y[1..];
    }
  }

  /** On numbers with as many digits, the string order is the number order. */
  lemma {:induction false} DecimalOrder(m: nat, n: nat)
    requires |Decimal(m)| == |Decimal(n)|
    ensures StringLess(Decimal(m), Decimal(n)) <==> m < n
  {
    if m < 10 || n < 10 {
      DecimalIsDigits(m / 10);
      DecimalIsDigits(n / 10);
    } else {
      DecimalOrder(m / 10, n / 10);
      StringLessBlocks(Decimal(m / 10), [Digit(m % 10)], Decimal(n / 10), [Digit(n % 10)]);
      if Decimal(m / 10) == Decimal(n / 10) {
        DecimalInjective(m / 10, n / 10);
      }
    }
  }

  /** n without its last e digits. */
  function DropDigits(n: nat, e: nat): nat {
    if e == 0 then n else DropDigits(n / 10, e - 1)
  }

  lemma {:induction false} DecimalPrefix(n: nat, e: nat)
    requires e < |Decimal(n)|
    ensures Decimal(n)[..|Decimal(n)| - e] == Decimal(DropDigits(n, e))
  {
    if e > 0 {
      assert n >= 10;
      DecimalPrefix(n / 10, e - 1);
      var d := Decimal(n / 10);
      assert (d + [Digit(n % 10)])[..|d| + 1 - e] == d[..|d| - (e - 1)];
    }
  }

  lemma {:induction false} DecimalLengthMonotone(m: nat, n: nat)
    requires m <= n
    ensures |Decimal(m)| <= |Decimal(n)|
  {
    if m >= 10 { DecimalLengthMonotone(m / 10, n / 10); }
    else { DecimalIsDigits(n); }
  }

  /** Exactly when the string order on `<number>-<text>` agrees with the number order: the
      smaller number must not exceed the larger one cut to as many digits.  In particular
      always when both have as many digits. */
  lemma NumberedOrderExact(m: nat, s: string, n: nat, t: string)
    requires m < n
    ensures |Decimal(m)| <= |Decimal(n)|
    ensures StringLess(Decimal(m) + "-" + s, Decimal(n) + "-" + t)
       <==> m <= DropDigits(n, |Decimal(n)| - |Decimal(m)|)
  {
    DecimalLengthMonotone(m, n);
    var x, y := Decimal(m), Decimal(n);
    DecimalIsDigits(m);
    var e := |y| - |x|;
    DecimalPrefix(n, e);
    var head, rest := y[..|x|], y[|x|..];
    var cut := DropDigits(n, e);
    assert head == Decimal(cut) && y == head + rest;
    assert x + "-" + s == x + ("-" + s);
    assert y + "-" + t == head + (rest + "-" + t);
    StringLessBlocks(x, "-" + s, head, rest + "-" + t);
    DecimalOrder(m, cut);
    if m == cut {
      assert e > 0;
      DecimalIsDigits(n);
      assert rest[0] in y;
    } else if x == head {
      DecimalInjective(m, cut);
    }
  }

  /** With as many digits, `<number>-<text>` is ordered by number and then by text. */
  lemma NumberedOrder(m: nat, s: string, n: nat, t: string)
    requires |Decimal(m)| == |Decimal(n)|
    ensures StringLess(Decimal(m) + "-" + s, Decimal(n) + "-" + t)
       <==> m < n || (m == n && StringLess(s, t))
  {
    assert Decimal(m) + "-" + s == Decimal(m) + ("-" + s);
    assert Decimal(n) + "-" + t == Decimal(n) + ("-" + t);
    StringLessBlocks(Decimal(m), "-" + s, Decimal(n), "-" + t);
    StringLessBlocks("-", s, "-", t);
    DecimalOrder(m, n);
    if Decimal(m) == Decimal(n) { DecimalInjective(m, n); }
  }

  // ---------- cutting text at a separator ----------

  /** The first separator decides how a text splits, so the split is unique. */
  lemma {:induction false} SplitAtFirst(a: string, u: string, b: string, v: string, sep: char)
    requires sep !in a && sep !in b
    requires a + [sep] + u == b + [sep] + v
    ensures a == b && u == v
  {
    var w := a + [sep] + u;
    assert w[|a|] == sep && w == b + [sep] + v;
    assert w[|b|] == sep;
    assert a == w[..|a|] == b && u == w[|a| + 1..] == v;
  }

  /** The last separator decides as well. */
  lemma SplitAtLast(a: string, u: string, b: string, v: string, sep: char)
    requires sep !in u && sep !in v
    requires a + [sep] + u == b + [sep] + v
    ensures a == b && u == v
  {
    var w := a + [sep] + u;
    assert |w| == |a| + 1 + |u| == |b| + 1 + |v|;
    assert w == b + [sep] + v && w[|a|] == sep && w[|b|] == sep;
    assert a == w[..|a|] == b && u == w[|a| + 1..] == v;
  }

  /** alias[strings.LastIndex(alias, "-")+1:] : all of it when there is no dash. */
  function AfterLastDash(s: string): string {
    if s == [] then []
    else if s[|s| - 1] == '-' then []
    else AfterLastDash(s[..|s| - 1]) + [s[|s| - 1]]
  }

  lemma {:induction false} AfterLastDashOf(a: string, u: string)
    requires '-' !in u
    ensures AfterLastDash(a + "-" + u) == u
  {
    var w := a + "-" + u;
    if u == [] {
      assert w[|w| - 1] == '-';
    } else {
      var u' := u[..|u| - 1];
      assert w[..|w| - 1] == a + "-" + u' && w[|w| - 1] == u[|u| - 1];
      AfterLastDashOf(a, u');
      assert u' + [u[|u| - 1]] == u;
    }
  }

  lemma DecimalHasNoDash(n: nat)
    ensures '-' !in Decimal(n)
  {
    DecimalIsDigits(n);
  }

  // ---------- substrings ----------

  /** p occurs in s starting at i. */
  ghost predicate OccursAt(s: string, p: string, i: nat) {
    i + |p| <= |s| && s[i..i + |p|] == p
  }

  /** strings.Contains. */
  predicate Contains(s: string, p: string) {
    p <= s || (s != [] && Contains(s[1..], p))
  }

  lemma {:induction false} ContainsOccurs(s: string, p: string) returns (i: nat)
    requires Contains(s, p)
    ensures OccursAt(s, p, i)
  {
    if p <= s {
      i := 0;
    } else {
      var j := ContainsOccurs(s[1..], p);
      i := j + 1;
      assert s[i..i + |p|] == s[1..][j..j + |p|];
    }
  }

  lemma {:induction false} OccursContains(s: string, p: string, i: nat)
    requires OccursAt(s, p, i)
    ensures Contains(s, p)
  {
    if i == 0 {
      assert s[0..|p|] == s[..|p|];
    } else {
      assert s[1..][i - 1..i - 1 + |p|] == s[i..i + |p|];
      OccursContains(s[1..], p, i - 1);
    }
  }

  /** Occurrences beyond a text are the occurrences in what follows it. */
  lemma OccursInTail(x: string, y: string, p: string, i: nat)
    ensures OccursAt(x + y, p, |x| + i) <==> OccursAt(y, p, i)
  {
    if i + |p| <= |y| {
      assert (x + y)[|x| + i..|x| + i + |p|] == y[i..i + |p|];
    }
  }

  predicate IsSuffix(u: string, s: string) {
    |u| <= |s| && s[|s| - |u|..] == u
  }
}
