/** Sorting with a comparison, and the total order on identifiers. The order stands for
    `localeCompare` and for Rust's `Ord` on strings: only that it is total is ever used. */
module Ordering {
  ghost predicate Preorder<T(!new)>(le: (T, T) -> bool) {
    && (forall x :: le(x, x))
    && (forall x, y :: le(x, y) || le(y, x))
    && (forall x, y, z :: le(x, y) && le(y, z) ==> le(x, z))
  }

  ghost predicate SortedBy<T>(s: seq<T>, le: (T, T) -> bool) {
    forall i, j | 0 <= i < j < |s| :: le(s[i], s[j])
  }

  predicate NoRepeats<T(==)>(s: seq<T>) {
    forall i, j | 0 <= i < j < |s| :: s[i] != s[j]
  }

  ghost predicate SameElements<T(!new)>(a: seq<T>, b: seq<T>) {
    forall x :: x in a <==> x in b
  }

  lemma NoRepeatsCons<T>(x: T, rest: seq<T>)
    ensures NoRepeats([x] + rest) <==> x !in rest && NoRepeats(rest)
  {
    var s := [x] + rest;
    assert forall i | 0 <= i < |rest| :: s[i + 1] == rest[i];
    if x !in rest && NoRepeats(rest) {
      forall i, j | 0 <= i < j < |s|
        ensures s[i] != s[j]
      {
        assert s[j] == rest[j - 1];
      }
    } else if NoRepeats(s) {
      assert forall i | 0 <= i < |rest| :: rest[i] == s[i + 1] != s[0];
    }
  }

  /** Whether a sequence repeats an element, and which elements it has, depends only on how
      often each occurs. */
  lemma {:induction false} NoRepeatsCounts<T(!new)>(s: seq<T>)
    ensures NoRepeats(s) <==> forall x :: multiset(s)[x] <= 1
  {
    if s != [] {
      var first, rest := s[0], s[1..];
      assert s == [first] + rest;
      NoRepeatsCons(first, rest);
      NoRepeatsCounts(rest);
      assert forall x :: multiset(s)[x] == multiset(rest)[x] + if x == first then 1 else 0;
      assert first in rest <==> multiset(rest)[first] >= 1;
      if exists x :: multiset(rest)[x] > 1 {
        var x :| multiset(rest)[x] > 1;
        assert multiset(s)[x] > 1;
      }
    }
  }

  lemma Permutation<T(!new)>(a: seq<T>, b: seq<T>)
    requires multiset(a) == multiset(b)
    ensures |a| == |b| && SameElements(a, b) && (NoRepeats(a) <==> NoRepeats(b))
  {
    assert |a| == |multiset(a)| && |b| == |multiset(b)|;
    forall x
      ensures x in a <==> x in b
    {
      assert x in a <==> x in multiset(a);
      assert x in b <==> x in multiset(b);
    }
    NoRepeatsCounts(a);
    NoRepeatsCounts(b);
  }

  lemma PartsCommute<T>(front: seq<T>, middle: seq<T>, back: seq<T>)
    ensures multiset(front + (middle + back)) == multiset(middle) + multiset(front + back)
  {
  }

  lemma Cancel<T(!new)>(x: T, p: multiset<T>, q: multiset<T>)
    requires multiset{x} + p == multiset{x} + q
    ensures p == q
  {
    forall y
      ensures p[y] == q[y]
    {
      assert (multiset{x} + p)[y] == (multiset{x} + q)[y];
    }
  }

  /** The first element of a sequence has a place in every permutation of it, and the rest is a
      permutation of the rest. */
  lemma TakeOut<T(!new)>(a: seq<T>, b: seq<T>) returns (front: seq<T>, back: seq<T>)
    requires multiset(a) == multiset(b) && a != []
    ensures b == front + ([a[0]] + back)
    ensures multiset(a[1..]) == multiset(front + back)
  {
    assert a[0] in multiset(b);
    var j :| 0 <= j < |b| && b[j] == a[0];
    front, back := b[..j], b[j + 1..];
    assert b == front + ([a[0]] + back);
    PartsCommute(front, [a[0]], back);
    assert multiset(a) == multiset{a[0]} + multiset(a[1..]) by {
      assert a == [a[0]] + a[1..];
    }
    Cancel(a[0], multiset(a[1..]), multiset(front + back));
  }

  lemma SortedCons<T>(x: T, s: seq<T>, le: (T, T) -> bool)
    requires SortedBy(s, le) && forall y | y in multiset(s) :: le(x, y)
    ensures SortedBy([x] + s, le)
  {
    assert forall i | 0 <= i < |s| :: s[i] in multiset(s);
  }

  lemma SortedTail<T>(s: seq<T>, le: (T, T) -> bool)
    requires s != [] && SortedBy(s, le)
    ensures SortedBy(s[1..], le) && forall y | y in multiset(s[1..]) :: le(s[0], y)
  {
    forall y | y in multiset(s[1..])
      ensures le(s[0], y)
    {
      var i :| 0 <= i < |s| - 1 && s[1..][i] == y;
      assert s[i + 1] == y;
    }
  }

  function Insert<T(!new)>(x: T, s: seq<T>, le: (T, T) -> bool): (r: seq<T>)
    requires Preorder(le) && SortedBy(s, le)
    ensures SortedBy(r, le)
    ensures multiset(r) == multiset(s) + multiset{x}
  {
    if s == [] then [x]
    else
      assert s == [s[0]] + s[1..];
      SortedTail(s, le);
      if le(x, s[0]) then
        SortedCons(x, s, le);
        [x] + s
      else
        SortedCons(s[0], Insert(x, s[1..], le), le);
        [s[0]] + Insert(x, s[1..], le)
  }

  /** A stable sort. */
  function Sort<T(!new)>(s: seq<T>, le: (T, T) -> bool): (r: seq<T>)
    requires Preorder(le)
    ensures SortedBy(r, le)
    ensures multiset(r) == multiset(s)
  {
    if s == [] then []
    else
      assert s == [s[0]] + s[1..];
      Insert(s[0], Sort(s[1..], le), le)
  }

  /** Two sorted sequences of the same distinct elements are equal when the comparison tells
      those elements apart. */
  lemma {:induction false} SortedUniquely<T(!new)>(a: seq<T>, b: seq<T>, le: (T, T) -> bool)
    requires SortedBy(a, le) && SortedBy(b, le)
    requires NoRepeats(a) && NoRepeats(b)
    requires SameElements(a, b)
    requires forall x, y | x in a && y in a :: le(x, y) && le(y, x) ==> x == y
    ensures a == b
  {
    if b != [] {
      assert b[0] in b && b[0] in a;
    }
    if a != [] {
      assert a[0] in a && a[0] in b;
      assert b[0] in b && b[0] in a;
      var i :| 0 <= i < |b| && b[i] == a[0];
      var j :| 0 <= j < |a| && a[j] == b[0];
      assert i == 0;
      forall x
        ensures x in a[1..] <==> x in b[1..]
      {
        assert x in a[1..] <==> x in a && x != a[0];
        assert x in b[1..] <==> x in b && x != b[0];
      }
      SortedUniquely(a[1..], b[1..], le);
    }
  }

  // ----- identifiers -----

  predicate StringLe(a: string, b: string) {
    a == "" || (b != "" && (a[0] < b[0] || (a[0] == b[0] && StringLe(a[1..], b[1..]))))
  }

  lemma StringLeRefl(a: string)
    ensures StringLe(a, a)
  {
  }

  lemma StringLeTotal(a: string, b: string)
    ensures StringLe(a, b) || StringLe(b, a)
  {
  }

  lemma StringLeTrans(a: string, b: string, c: string)
    requires StringLe(a, b) && StringLe(b, c)
    ensures StringLe(a, c)
  {
  }

  lemma StringLeAntisymmetric(a: string, b: string)
    requires StringLe(a, b) && StringLe(b, a)
    ensures a == b
  {
    if a != "" {
      StringLeAntisymmetric(a[1..], b[1..]);
      assert a == [a[0]] + a[1..] && b == [b[0]] + b[1..];
    }
  }

  lemma StringLeIsATotalOrder()
    ensures Preorder(StringLe)
    ensures forall a, b :: StringLe(a, b) && StringLe(b, a) ==> a == b
  {
    forall a
      ensures StringLe(a, a)
    {
      StringLeRefl(a);
    }
    forall a, b
      ensures StringLe(a, b) || StringLe(b, a)
    {
      StringLeTotal(a, b);
    }
    forall a, b, c | StringLe(a, b) && StringLe(b, c)
      ensures StringLe(a, c)
    {
      StringLeTrans(a, b, c);
    }
    forall a, b | StringLe(a, b) && StringLe(b, a)
      ensures a == b
    {
      StringLeAntisymmetric(a, b);
    }
  }

  function SortStrings(s: seq<string>): (r: seq<string>)
    ensures SortedBy(r, StringLe) && multiset(r) == multiset(s)
  {
    StringLeIsATotalOrder();
    Sort(s, StringLe)
  }

  /** Distinct strings have one sorted arrangement. */
  lemma StringsSortOneWay(s: seq<string>, sorted: seq<string>)
    requires NoRepeats(s) && SortedBy(sorted, StringLe) && multiset(s) == multiset(sorted)
    ensures SortStrings(s) == sorted
  {
    Permutation(s, sorted);
    Permutation(SortStrings(s), sorted);
    StringLeIsATotalOrder();
    SortedUniquely(SortStrings(s), sorted, StringLe);
  }
}
