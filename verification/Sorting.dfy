/** What a call to sort.Sort or sort.Slice may assume and promises. */
module Sorting {

  /** What Go demands of a Less function. */
  ghost predicate StrictWeakOrder<T(!new)>(before: (T, T) -> bool) {
    && (forall a, b :: before(a, b) ==> !before(b, a))
    && (forall a, b, c :: before(a, c) ==> before(a, b) || before(b, c))
  }

  /** No element comes before an earlier one. */
  ghost predicate Sorted<T>(before: (T, T) -> bool, s: seq<T>) {
    forall i, j :: 0 <= i < j < |s| ==> !before(s[j], s[i])
  }

  ghost predicate StrictlySorted<T>(before: (T, T) -> bool, s: seq<T>) {
    forall i, j :: 0 <= i < j < |s| ==> before(s[i], s[j])
  }

  /** No two elements are tied. */
  ghost predicate Apart<T>(before: (T, T) -> bool, s: seq<T>) {
    forall i, j :: 0 <= i < j < |s| ==> before(s[i], s[j]) || before(s[j], s[i])
  }

  ghost predicate SameElements<T(!new)>(a: seq<T>, b: seq<T>) {
    forall x :: x in a <==> x in b
  }

  function Insert<T>(before: (T, T) -> bool, x: T, s: seq<T>): seq<T> {
    if s == [] || before(x, s[0]) then [x] + s else [s[0]] + Insert(before, x, s[1..])
  }

  /** A reference sort.  SortOutcome shows that on untied elements every sorted
      permutation is this one, so that it stands for Go's unstable sort there. */
  function Sort<T>(before: (T, T) -> bool, s: seq<T>): seq<T> {
    if s == [] then [] else Insert(before, s[0], Sort(before, s[1..]))
  }

  lemma {:induction false} InsertElements<T>(before: (T, T) -> bool, x: T, s: seq<T>)
    ensures multiset(Insert(before, x, s)) == multiset(s) + multiset{x}
  {
    if s != [] && !before(x, s[0]) {
      InsertElements(before, x, s[1..]);
      assert s == [s[0]] + s[1..];
    }
  }

  lemma {:induction false} SortElements<T>(before: (T, T) -> bool, s: seq<T>)
    ensures multiset(Sort(before, s)) == multiset(s)
    ensures forall x :: x in Sort(before, s) <==> x in s
    ensures |Sort(before, s)| == |s|
  {
    if s != [] {
      SortElements(before, s[1..]);
      InsertElements(before, s[0], Sort(before, s[1..]));
      assert s == [s[0]] + s[1..];
    }
    assert |multiset(Sort(before, s))| == |Sort(before, s)|;
    forall x ensures x in Sort(before, s) <==> x in s {
      assert x in Sort(before, s) <==> x in multiset(Sort(before, s));
    }
  }

  lemma {:induction false} InsertStrict<T(!new)>(before: (T, T) -> bool, x: T, s: seq<T>)
    requires StrictWeakOrder(before) && StrictlySorted(before, s)
    requires forall y <- s :: before(x, y) || before(y, x)
    ensures StrictlySorted(before, Insert(before, x, s))
  {
    var r := Insert(before, x, s);
    if s != [] && !before(x, s[0]) {
      var t := Insert(before, x, s[1..]);
      InsertStrict(before, x, s[1..]);
      InsertElements(before, x, s[1..]);
      forall j | 0 < j < |r| ensures before(r[0], r[j]) {
        assert r[j] == t[j - 1] && t[j - 1] in multiset(t);
      }
    } else if s != [] {
      forall j | 0 < j < |r| ensures before(r[0], r[j]) {
        assert r[j] == s[j - 1];
      }
    }
  }

  /** Sorting elements of which no two are tied gives a strict order. */
  lemma {:induction false} SortStrict<T(!new)>(before: (T, T) -> bool, s: seq<T>)
    requires StrictWeakOrder(before) && Apart(before, s)
    ensures StrictlySorted(before, Sort(before, s))
  {
    if s != [] {
      SortStrict(before, s[1..]);
      SortElements(before, s[1..]);
      forall y | y in Sort(before, s[1..]) ensures before(s[0], y) || before(y, s[0]) {
        var j :| 0 <= j < |s[1..]| && s[1..][j] == y;
        assert s[j + 1] == y;
      }
      InsertStrict(before, s[0], Sort(before, s[1..]));
    }
  }

  /** A strictly sorted sequence is determined by its elements. */
  lemma {:induction false} StrictUnique<T(!new)>(before: (T, T) -> bool, a: seq<T>, b: seq<T>)
    requires StrictWeakOrder(before) && StrictlySorted(before, a) && StrictlySorted(before, b)
    requires SameElements(a, b)
    ensures a == b
  {
    assert b != [] ==> b[0] in b && b[0] in a;
    if a != [] {
      assert a[0] in a;
      assert b != [] && b[0] in b;
      var i :| 0 <= i < |b| && b[i] == a[0];
      var j :| 0 <= j < |a| && a[j] == b[0];
      assert a[0] == b[0];
      forall x ensures x in a[1..] <==> x in b[1..] {
        assert x in a <==> x in b;
        assert !before(a[0], a[0]);
        assert a == [a[0]] + a[1..] && b == [b[0]] + b[1..];
      }
      StrictUnique(before, a[1..], b[1..]);
      assert a == [a[0]] + a[1..] && b == [b[0]] + b[1..];
    }
  }

  /** The order in which untied elements come in does not matter. */
  lemma SortSame<T(!new)>(before: (T, T) -> bool, s: seq<T>, t: seq<T>)
    requires StrictWeakOrder(before) && Apart(before, s) && Apart(before, t) && SameElements(s, t)
    ensures Sort(before, s) == Sort(before, t)
  {
    SortStrict(before, s);
    SortStrict(before, t);
    SortElements(before, s);
    SortElements(before, t);
    StrictUnique(before, Sort(before, s), Sort(before, t));
  }

  /** Removing an element keeps the order and the other elements. */
  lemma RemoveStrict<T(!new)>(before: (T, T) -> bool, s: seq<T>, pos: nat)
    requires StrictWeakOrder(before) && StrictlySorted(before, s) && pos < |s|
    ensures StrictlySorted(before, s[..pos] + s[pos + 1..])
    ensures forall x :: x in s[..pos] + s[pos + 1..] <==> x in s && x != s[pos]
  {
    var r := s[..pos] + s[pos + 1..];
    forall x | x in s && x != s[pos] ensures x in r {
      var i :| 0 <= i < |s| && s[i] == x;
      assert r[if i < pos then i else i - 1] == x;
    }
    forall x | x in r ensures x in s && x != s[pos] {
      var i :| 0 <= i < |r| && r[i] == x;
      assert s[if i < pos then i else i + 1] == x;
    }
  }

  /** Untied elements occur once. */
  lemma {:induction false} ApartOnce<T(!new)>(before: (T, T) -> bool, s: seq<T>, x: T)
    requires StrictWeakOrder(before) && Apart(before, s)
    ensures multiset(s)[x] <= 1
  {
    if s != [] {
      ApartOnce(before, s[1..], x);
      assert s == [s[0]] + s[1..];
      forall y | y in s[1..] ensures before(s[0], y) || before(y, s[0]) {
        var j :| 0 <= j < |s[1..]| && s[1..][j] == y;
        assert s[j + 1] == y;
      }
      assert s[0] !in s[1..];
    }
  }

  /** Whatever permutation sort.Sort leaves, on untied elements it is the reference one:
      neither the algorithm nor the order in which the elements came in matters. */
  lemma SortOutcome<T(!new)>(before: (T, T) -> bool, s: seq<T>, r: seq<T>)
    requires StrictWeakOrder(before) && Apart(before, s)
    requires Sorted(before, r) && multiset(r) == multiset(s)
    ensures r == Sort(before, s)
  {
    forall i, j | 0 <= i < j < |r| ensures before(r[i], r[j]) {
      ApartOnce(before, s, r[i]);
      assert r == r[..j] + r[j..];
      assert r[i] in r[..j] && r[j] in r[j..];
      assert r[i] in multiset(r) && r[j] in multiset(r);
      var a :| 0 <= a < |s| && s[a] == r[i];
      var b :| 0 <= b < |s| && s[b] == r[j];
      assert a != b;
    }
    forall x ensures x in r <==> x in s {
      assert x in r <==> x in multiset(r);
      assert x in s <==> x in multiset(s);
    }
    SortStrict(before, s);
    SortElements(before, s);
    StrictUnique(before, r, Sort(before, s));
  }
}
