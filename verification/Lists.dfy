/** Lists whose elements occur once each. */
module Lists {

  predicate Distinct<T(==)>(q: seq<T>) {
    q != [] ==> q[0] !in q[1..] && Distinct(q[1..])
  }

  lemma {:induction false} DistinctIff<T>(q: seq<T>)
    ensures Distinct(q) <==> forall i, j :: 0 <= i < j < |q| ==> q[i] != q[j]
  {
    if q != [] {
      var t := q[1..];
      DistinctIff(t);
      assert forall i :: 1 <= i < |q| ==> q[i] == t[i - 1];
      if forall i, j :: 0 <= i < j < |q| ==> q[i] != q[j] {
        forall i, j | 0 <= i < j < |t| ensures t[i] != t[j] {
          assert t[i] == q[i + 1] && t[j] == q[j + 1];
        }
      }
    }
  }

  /** Once each, counted. */
  lemma {:induction false} OnceEach<T(!new)>(q: seq<T>)
    ensures Distinct(q) <==> forall x :: multiset(q)[x] <= 1
  {
    if q != [] {
      var t := q[1..];
      OnceEach(t);
      assert q == [q[0]] + t;
      assert multiset(q) == multiset{q[0]} + multiset(t);
      assert q[0] in t <==> multiset(t)[q[0]] >= 1;
      if forall x :: multiset(q)[x] <= 1 {
        assert multiset(q)[q[0]] <= 1;
        forall x ensures multiset(t)[x] <= 1 {
          assert multiset(q)[x] <= 1;
        }
      }
    }
  }

  lemma {:induction false} DistinctSnoc<T>(q: seq<T>, x: T)
    requires Distinct(q) && x !in q
    ensures Distinct(q + [x])
  {
    if q != [] {
      DistinctSnoc(q[1..], x);
      assert (q + [x])[1..] == q[1..] + [x];
    }
  }

  /** The parts of a list without repetitions share nothing. */
  lemma {:induction false} DistinctParts<T>(p: seq<T>, q: seq<T>)
    requires Distinct(p + q)
    ensures forall x :: x in p ==> x !in q
  {
    if p != [] {
      assert (p + q)[1..] == p[1..] + q;
      DistinctParts(p[1..], q);
    }
  }

  lemma {:induction false} DistinctPrefix<T>(p: seq<T>, q: seq<T>)
    requires Distinct(q) && p <= q
    ensures Distinct(p)
  {
    if p != [] {
      DistinctPrefix(p[1..], q[1..]);
    }
  }
}
