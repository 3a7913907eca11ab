/** Trimming, strings in code-point order, and sorting by a text key. */
module Texts {
  import opened Basics

  /** The characters that `str.strip` removes. */
  predicate Blank(c: char) {
    var n := c as int;
    || 9 <= n <= 13 || 28 <= n <= 32 || n == 0x85 || n == 0xa0 || n == 0x1680 || 0x2000 <= n <= 0x200a
    || n == 0x2028 || n == 0x2029 || n == 0x202f || n == 0x205f || n == 0x3000
  }

  function Strip(s: string): (r: string)
    ensures r == "" || (!Blank(r[0]) && !Blank(r[|r| - 1]))
  {
    if s == "" then ""
    else if Blank(s[0]) then Strip(s[1..])
    else if Blank(s[|s| - 1]) then Strip(s[..|s| - 1])
    else s
  }

  lemma StripTwice(s: string)
    ensures Strip(Strip(s)) == Strip(s)
  {}

  /** What is taken away are blanks at the two ends, and all of them are. */
  lemma {:induction false} StripTakesBlanks(s: string) returns (a: string, b: string)
    ensures s == a + Strip(s) + b && (forall c | c in a :: Blank(c)) && forall c | c in b :: Blank(c)
    ensures Strip(s) == "" || (!Blank(Strip(s)[0]) && !Blank(Strip(s)[|Strip(s)| - 1]))
    decreases |s|
  {
    if s == "" {
      a, b := "", "";
    } else if Blank(s[0]) {
      a, b := StripTakesBlanks(s[1..]);
      a := [s[0]] + a;
      assert s == [s[0]] + s[1..];
    } else if Blank(s[|s| - 1]) {
      a, b := StripTakesBlanks(s[..|s| - 1]);
      b := b + [s[|s| - 1]];
      assert s == s[..|s| - 1] + [s[|s| - 1]];
    } else {
      a, b := "", "";
      assert s == a + s + b;
    }
  }

  predicate Tidy(n: Name) {
    n.text != "" && Strip(n.text) == n.text
  }

  function Trimmed(raw: string): Name {
    Name(Strip(raw))
  }

  /** The identifier an optional argument carries: blank counts as missing. */
  function Given(raw: Option<string>): Option<Name> {
    if raw.Some? && Trimmed(raw.value) != Name("") then Some(Trimmed(raw.value)) else None
  }

  lemma GivenIsTidy(raw: Option<string>)
    ensures Given(raw).Some? ==> Tidy(Given(raw).value)
  {
    if raw.Some? {
      StripTwice(raw.value);
    }
  }

  /** The order Python's `<=` gives on strings. */
  predicate AtMost(a: string, b: string) {
    if a == "" then true
    else if b == "" then false
    else if a[0] == b[0] then AtMost(a[1..], b[1..])
    else a[0] < b[0]
  }

  /** a and b agree before k, and a has the smaller character there. */
  ghost predicate SmallerAt(a: string, b: string, k: nat) {
    k < |a| && k < |b| && a[..k] == b[..k] && a[k] < b[k]
  }

  ghost predicate Smaller(a: string, b: string) {
    exists k: nat :: SmallerAt(a, b, k)
  }

  /** a comes first or is b exactly if it is a prefix of b or has the smaller character where they first differ. */
  lemma {:induction false} AtMostIff(a: string, b: string)
    ensures AtMost(a, b) <==> a <= b || Smaller(a, b)
  {
    if a != "" && b != "" && a[0] == b[0] {
      AtMostIff(a[1..], b[1..]);
      assert a == [a[0]] + a[1..] && b == [b[0]] + b[1..];
      assert a <= b <==> a[1..] <= b[1..];
      if Smaller(a[1..], b[1..]) {
        var k: nat :| SmallerAt(a[1..], b[1..], k);
        assert a[..k + 1] == [a[0]] + a[1..][..k] && b[..k + 1] == [b[0]] + b[1..][..k];
        assert SmallerAt(a, b, k + 1);
      }
      if Smaller(a, b) {
        var k: nat :| SmallerAt(a, b, k);
        assert a[1..][..k - 1] == a[..k][1..] && b[1..][..k - 1] == b[..k][1..];
        assert SmallerAt(a[1..], b[1..], k - 1);
      }
    } else if a != "" && b != "" {
      assert a[0] < b[0] ==> SmallerAt(a, b, 0);
      if Smaller(a, b) {
        var k: nat :| SmallerAt(a, b, k);
        SameStart(a, b, k);
      }
    }
  }

  lemma SameStart(a: string, b: string, k: nat)
    requires SmallerAt(a, b, k)
    ensures k > 0 ==> a[0] == b[0]
  {
    if k > 0 {
      assert a[..k][0] == a[0] && b[..k][0] == b[0];
    }
  }

  lemma {:induction false} Total(a: string, b: string)
    ensures AtMost(a, b) || AtMost(b, a)
    ensures AtMost(a, b) && AtMost(b, a) ==> a == b
  {
    if a != "" && b != "" && a[0] == b[0] {
      Total(a[1..], b[1..]);
      assert a == [a[0]] + a[1..] && b == [b[0]] + b[1..];
    }
  }

  lemma {:induction false} Transitive(a: string, b: string, c: string)
    requires AtMost(a, b) && AtMost(b, c)
    ensures AtMost(a, c)
  {
    if a != "" && b != "" && c != "" && a[0] == b[0] == c[0] {
      Transitive(a[1..], b[1..], c[1..]);
    }
  }

  /** A row with the text it is sorted by. */
  datatype Keyed<+T> = Keyed(key: string, row: T)

  /** In increasing key order, or in decreasing one. */
  ghost predicate Sorted<T>(s: seq<Keyed<T>>, descending: bool) {
    forall i, j | 0 <= i < j < |s| :: InOrder(s[i].key, s[j].key, descending)
  }

  predicate InOrder(a: string, b: string, descending: bool) {
    if descending then AtMost(b, a) else AtMost(a, b)
  }

  /** Puts x before the first row it may precede, so equal keys keep their order of arrival. */
  function Insert<T>(x: Keyed<T>, s: seq<Keyed<T>>, descending: bool): seq<Keyed<T>> {
    if s == [] then [x]
    else if InOrder(x.key, s[0].key, descending) then [x] + s
    else [s[0]] + Insert(x, s[1..], descending)
  }

  /** The stable sort behind `sorted` and `list.sort`. */
  function Sort<T>(s: seq<Keyed<T>>, descending: bool): seq<Keyed<T>> {
    if s == [] then [] else Insert(s[0], Sort(s[1..], descending), descending)
  }

  lemma InOrderBefore(a: string, b: string, c: string, descending: bool)
    requires InOrder(a, b, descending) && InOrder(b, c, descending)
    ensures InOrder(a, c, descending)
  {
    if descending {
      Transitive(c, b, a);
    } else {
      Transitive(a, b, c);
    }
  }

  lemma PrependSorted<T>(x: Keyed<T>, s: seq<Keyed<T>>, descending: bool)
    requires Sorted(s, descending) && forall r | r in s :: InOrder(x.key, r.key, descending)
    ensures Sorted([x] + s, descending) && multiset([x] + s) == multiset(s) + multiset{x}
  {}

  lemma InsertFirst<T>(x: Keyed<T>, s: seq<Keyed<T>>, descending: bool)
    requires Sorted(s, descending) && s != [] && InOrder(x.key, s[0].key, descending)
    ensures Sorted([x] + s, descending) && multiset([x] + s) == multiset(s) + multiset{x}
  {
    forall j | 0 < j < |s| ensures InOrder(x.key, s[j].key, descending) {
      InOrderBefore(x.key, s[0].key, s[j].key, descending);
    }
    PrependSorted(x, s, descending);
  }

  lemma InsertLater<T>(x: Keyed<T>, s: seq<Keyed<T>>, rest: seq<Keyed<T>>, descending: bool)
    requires Sorted(s, descending) && s != [] && InOrder(s[0].key, x.key, descending)
    requires Sorted(rest, descending) && multiset(rest) == multiset(s[1..]) + multiset{x}
    ensures Sorted([s[0]] + rest, descending) && multiset([s[0]] + rest) == multiset(s) + multiset{x}
  {
    forall r | r in rest ensures InOrder(s[0].key, r.key, descending) {
      assert r in multiset(rest);
      assert r == x || r in multiset(s[1..]);
    }
    PrependSorted(s[0], rest, descending);
    assert s == [s[0]] + s[1..];
  }

  lemma {:induction false} InsertSorts<T>(x: Keyed<T>, s: seq<Keyed<T>>, descending: bool)
    requires Sorted(s, descending)
    ensures Sorted(Insert(x, s, descending), descending)
    ensures multiset(Insert(x, s, descending)) == multiset(s) + multiset{x}
  {
    if s != [] {
      if InOrder(x.key, s[0].key, descending) {
        InsertFirst(x, s, descending);
      } else {
        Total(x.key, s[0].key);
        InsertSorts(x, s[1..], descending);
        InsertLater(x, s, Insert(x, s[1..], descending), descending);
      }
    }
  }

  /** Sorting orders the rows and keeps exactly the rows there were. */
  lemma {:induction false} SortSorts<T>(s: seq<Keyed<T>>, descending: bool)
    ensures Sorted(Sort(s, descending), descending)
    ensures multiset(Sort(s, descending)) == multiset(s)
  {
    if s != [] {
      SortSorts(s[1..], descending);
      InsertSorts(s[0], Sort(s[1..], descending), descending);
      assert s == [s[0]] + s[1..];
    }
  }

  /** The rows of one key, in order. */
  ghost function WithKey<T>(s: seq<Keyed<T>>, key: string): seq<Keyed<T>> {
    if s == [] then [] else (if s[0].key == key then [s[0]] else []) + WithKey(s[1..], key)
  }

  lemma {:induction false} InsertIsStable<T>(x: Keyed<T>, s: seq<Keyed<T>>, descending: bool, key: string)
    ensures WithKey(Insert(x, s, descending), key) == WithKey([x] + s, key)
  {
    assert ([x] + s)[1..] == s;
    if s != [] && !InOrder(x.key, s[0].key, descending) {
      var later := Insert(x, s[1..], descending);
      InsertIsStable(x, s[1..], descending, key);
      assert ([s[0]] + later)[1..] == later && ([x] + s[1..])[1..] == s[1..];
      Reflexive(x.key);
    }
  }

  lemma {:induction false} Reflexive(a: string)
    ensures AtMost(a, a)
  {
    if a != "" {
      Reflexive(a[1..]);
    }
  }

  /** Rows of equal keys keep the order in which they came, in either direction of the sort. */
  lemma {:induction false} SortIsStable<T>(s: seq<Keyed<T>>, descending: bool, key: string)
    ensures WithKey(Sort(s, descending), key) == WithKey(s, key)
  {
    if s != [] {
      SortIsStable(s[1..], descending, key);
      var rest := Sort(s[1..], descending);
      InsertIsStable(s[0], rest, descending, key);
      assert ([s[0]] + rest)[1..] == rest;
    }
  }
}
