/** Stable sorting under a total preorder, and the uniqueness of sorted arrangements. */
module Sorting {

  ghost predicate TotalPreorder<T(!new)>(leq: (T, T) -> bool) {
    && (forall a, b :: leq(a, b) || leq(b, a))
    && (forall a, b, c :: leq(a, b) && leq(b, c) ==> leq(a, c))
  }

  ghost predicate Ascending<T>(leq: (T, T) -> bool, s: seq<T>) {
    forall i, j :: 0 <= i < j < |s| ==> leq(s[i], s[j])
  }

  function Insert<T>(leq: (T, T) -> bool, x: T, s: seq<T>): seq<T> {
    if s == [] || leq(x, s[0]) then [x] + s else [s[0]] + Insert(leq, x, s[1..])
  }

  /** Equal elements keep their order: each is placed before every element it is not greater than. */
  function Sort<T>(leq: (T, T) -> bool, s: seq<T>): seq<T> {
    if s == [] then [] else Insert(leq, s[0], Sort(leq, s[1..]))
  }

  lemma {:induction false} InsertPermutes<T>(leq: (T, T) -> bool, x: T, s: seq<T>)
    ensures multiset(Insert(leq, x, s)) == multiset{x} + multiset(s)
  {
    if s != [] && !leq(x, s[0]) {
      InsertPermutes(leq, x, s[1..]);
      assert s == [s[0]] + s[1..];
    }
  }

  lemma {:induction false} SortPermutes<T>(leq: (T, T) -> bool, s: seq<T>)
    ensures multiset(Sort(leq, s)) == multiset(s)
  {
    if s != [] {
      SortPermutes(leq, s[1..]);
      InsertPermutes(leq, s[0], Sort(leq, s[1..]));
      assert s == [s[0]] + s[1..];
    }
  }

  lemma SameElements<T>(a: seq<T>, b: seq<T>)
    requires multiset(a) == multiset(b)
    ensures |a| == |b| && forall x :: x in a <==> x in b
  {
    assert |multiset(a)| == |a| && |multiset(b)| == |b|;
    forall x ensures x in a <==> x in b {
      assert x in a <==> x in multiset(a);
      assert x in b <==> x in multiset(b);
    }
  }

  lemma AscendingCons<T>(leq: (T, T) -> bool, x: T, s: seq<T>)
    requires Ascending(leq, s) && forall y :: y in s ==> leq(x, y)
    ensures Ascending(leq, [x] + s)
  {
  }

  lemma {:induction false} InsertAscends<T(!new)>(leq: (T, T) -> bool, x: T, s: seq<T>)
    requires TotalPreorder(leq) && Ascending(leq, s)
    ensures Ascending(leq, Insert(leq, x, s))
  {
    if s == [] {
    } else if leq(x, s[0]) {
      forall y | y in s ensures leq(x, y) {
        var k :| 0 <= k < |s| && s[k] == y;
        assert k == 0 || leq(s[0], s[k]);
      }
      AscendingCons(leq, x, s);
    } else {
      assert Ascending(leq, s[1..]);
      InsertAscends(leq, x, s[1..]);
      InsertPermutes(leq, x, s[1..]);
      var rest := Insert(leq, x, s[1..]);
      assert multiset([x] + s[1..]) == multiset(rest);
      SameElements([x] + s[1..], rest);
      AscendingCons(leq, s[0], rest);
    }
  }

  lemma {:induction false} SortAscends<T(!new)>(leq: (T, T) -> bool, s: seq<T>)
    requires TotalPreorder(leq)
    ensures Ascending(leq, Sort(leq, s))
  {
    if s != [] {
      SortAscends(leq, s[1..]);
      InsertAscends(leq, s[0], Sort(leq, s[1..]));
    }
  }

  /** An ascending sequence is its own sorting. */
  lemma {:induction false} SortIsStable<T>(leq: (T, T) -> bool, s: seq<T>)
    requires Ascending(leq, s)
    ensures Sort(leq, s) == s
  {
    if s != [] {
      SortIsStable(leq, s[1..]);
      assert s == [s[0]] + s[1..];
    }
  }

  lemma LeastFirst<T>(leq: (T, T) -> bool, s: seq<T>, x: T)
    requires Ascending(leq, s) && x in s
    ensures x == s[0] || leq(s[0], x)
  {
    var k :| 0 <= k < |s| && s[k] == x;
    assert k == 0 || leq(s[0], s[k]);
  }

  lemma TailElements<T>(s: seq<T>)
    requires s != []
    ensures multiset(s[1..]) == multiset(s) - multiset{s[0]}
  {
    assert s == [s[0]] + s[1..];
  }

  /** Ties are only between equal elements. */
  ghost predicate Antisymmetric<T(!new)>(leq: (T, T) -> bool, m: multiset<T>) {
    forall x, y :: x in m && y in m && leq(x, y) && leq(y, x) ==> x == y
  }

  lemma SameHead<T(!new)>(leq: (T, T) -> bool, a: seq<T>, b: seq<T>)
    requires multiset(a) == multiset(b) && a != [] && b != [] && Ascending(leq, a) && Ascending(leq, b)
    requires Antisymmetric(leq, multiset(a))
    ensures a[0] == b[0]
  {
    assert a[0] in multiset(a) && b[0] in multiset(b);
    LeastFirst(leq, b, a[0]);
    LeastFirst(leq, a, b[0]);
  }

  lemma AntisymmetricTail<T(!new)>(leq: (T, T) -> bool, s: seq<T>)
    requires s != [] && Antisymmetric(leq, multiset(s))
    ensures Antisymmetric(leq, multiset(s[1..]))
  {
    TailElements(s);
  }

  /** The elements alone then determine the sorted sequence. */
  lemma {:induction false} AscendingIsUnique<T(!new)>(leq: (T, T) -> bool, a: seq<T>, b: seq<T>)
    requires multiset(a) == multiset(b) && Ascending(leq, a) && Ascending(leq, b)
    requires Antisymmetric(leq, multiset(a))
    ensures a == b
  {
    SameElements(a, b);
    if a != [] {
      SameHead(leq, a, b);
      AscendingTail(leq, a);
      AscendingTail(leq, b);
      AntisymmetricTail(leq, a);
      SameTails(a, b);
      AscendingIsUnique(leq, a[1..], b[1..]);
      assert a == [a[0]] + a[1..] && b == [b[0]] + b[1..];
    }
  }

  lemma SameTails<T>(a: seq<T>, b: seq<T>)
    requires multiset(a) == multiset(b) && a != [] && b != [] && a[0] == b[0]
    ensures multiset(a[1..]) == multiset(b[1..])
  {
    TailElements(a);
    TailElements(b);
  }

  lemma AscendingTail<T>(leq: (T, T) -> bool, s: seq<T>)
    requires s != [] && Ascending(leq, s)
    ensures Ascending(leq, s[1..])
  {
  }
}
