/** Small vocabulary shared by the models. */
module Basics {
  datatype Option<+T> = None | Some(value: T) {
    function GetOr(default: T): T {
      if Some? then value else default
    }
  }

  /** An identifier that is only ever compared as a whole. */
  datatype Name = Name(text: string)

  /** Taking one element out of a sequence takes one occurrence out of its multiset. */
  lemma RemoveOne<T>(a: seq<T>, i: nat)
    requires i < |a|
    ensures multiset(a[..i] + a[i + 1..]) == multiset(a) - multiset{a[i]}
  {
    assert a == a[..i] + ([a[i]] + a[i + 1..]);
    assert multiset(a) == multiset(a[..i]) + (multiset{a[i]} + multiset(a[i + 1..]));
  }

  /** Two sequences with the same elements, both without the first element of a. */
  lemma TakeFirst<T>(a: seq<T>, b: seq<T>) returns (k: nat, restA: seq<T>, restB: seq<T>)
    requires a != [] && multiset(a) == multiset(b)
    ensures k < |b| && b[k] == a[0] && restA == a[..0] + a[0 + 1..] && restB == b[..k] + b[k + 1..]
    ensures |restA| < |a| && multiset(restA) == multiset(restB)
  {
    assert a[0] in multiset(b);
    k :| k < |b| && b[k] == a[0];
    RemoveOne(a, 0);
    RemoveOne(b, k);
    restA, restB := a[..0] + a[0 + 1..], b[..k] + b[k + 1..];
  }

  predicate Distinct<T(==)>(s: seq<T>) {
    forall i, j | 0 <= i < j < |s| :: s[i] != s[j]
  }

  /** All occurrences of x taken out. */
  function Without<T(==)>(s: seq<T>, x: T): seq<T> {
    if s == [] then []
    else if s[0] == x then Without(s[1..], x)
    else [s[0]] + Without(s[1..], x)
  }

  lemma {:induction false} WithoutExactly<T>(s: seq<T>, x: T)
    ensures forall y :: y in Without(s, x) <==> y in s && y != x
    ensures Distinct(s) ==> Distinct(Without(s, x))
  {
    if s != [] {
      WithoutExactly(s[1..], x);
      assert s == [s[0]] + s[1..];
      if s[0] != x && Distinct(s) {
        assert s[0] !in s[1..];
        assert s[0] !in Without(s[1..], x);
      }
    }
  }

  lemma {:induction false} WithoutLast<T>(s: seq<T>, x: T)
    requires x !in s
    ensures Without(s + [x], x) == s
  {
    if s == [] {
      assert s + [x] == [x];
    } else {
      assert (s + [x])[1..] == s[1..] + [x];
      WithoutLast(s[1..], x);
    }
  }

  /** The others keep their order. */
  lemma {:induction false} WithoutMiddle<T>(a: seq<T>, x: T, b: seq<T>)
    requires x !in a && x !in b
    ensures Without(a + [x] + b, x) == a + b
  {
    if a != [] {
      WithoutMiddle(a[1..], x, b);
      assert (a + [x] + b)[1..] == a[1..] + [x] + b;
    } else {
      assert ([] + [x] + b)[1..] == b;
      WithoutNothing(b, x);
    }
  }

  lemma DistinctAround<T>(a: seq<T>, x: T, b: seq<T>)
    requires Distinct(a + [x] + b)
    ensures x !in a && x !in b
  {
    var all := a + [x] + b;
    forall k | 0 <= k < |a| ensures a[k] != x {
      assert all[k] == a[k] && all[|a|] == x;
    }
    forall k | 0 <= k < |b| ensures b[k] != x {
      assert all[|a| + 1 + k] == b[k] && all[|a|] == x;
    }
  }

  lemma {:induction false} WithoutNothing<T>(s: seq<T>, x: T)
    requires x !in s
    ensures Without(s, x) == s
  {
    if s != [] {
      WithoutNothing(s[1..], x);
    }
  }

  /** The first occurrence of x taken out, as `list.remove` does. */
  function RemoveFirst<T(==)>(s: seq<T>, x: T): seq<T> {
    if s == [] then [] else if s[0] == x then s[1..] else [s[0]] + RemoveFirst(s[1..], x)
  }

  /** Among distinct elements one occurrence is all there is. */
  lemma {:induction false} RemoveFirstIsWithout<T>(s: seq<T>, x: T)
    ensures x !in s ==> RemoveFirst(s, x) == s && Without(s, x) == s
    ensures Distinct(s) ==> RemoveFirst(s, x) == Without(s, x)
  {
    if s != [] {
      assert s == [s[0]] + s[1..];
      RemoveFirstIsWithout(s[1..], x);
    }
  }

  lemma {:induction false} CountedOnce<T>(s: seq<T>)
    requires Distinct(s)
    ensures forall x :: multiset(s)[x] <= 1
  {
    if s != [] {
      assert s == [s[0]] + s[1..];
      CountedOnce(s[1..]);
      assert s[0] !in s[1..];
    }
  }

  lemma CountedTwice<T>(s: seq<T>, i: int, j: int)
    requires 0 <= i < j < |s| && s[i] == s[j]
    ensures multiset(s)[s[i]] >= 2
  {
    assert s == s[..i + 1] + s[i + 1..];
    assert s[i] in s[..i + 1] && s[i + 1..][j - i - 1] == s[j];
  }

  lemma EmptyIf<T>(s: seq<T>)
    ensures (forall x :: x !in s) ==> s == []
  {
    if s != [] {
      assert s[0] in s;
    }
  }
}
