/** The segmented LRU of the residency cache: two recency lists over one key map, with byte accounting. */
module Slru {
  import opened Wrappers
  import opened Lists

  type Key = string

  datatype Entry<V> = Entry(value: V, weight: int, lastAccess: int, isProtected: bool)

  /** Budgets after `New` has applied the defaults. */
  datatype Config = Config(maxEntries: int, maxBytes: int) {
    predicate Valid() { maxEntries >= 1 && maxBytes >= 1 }

    /** A heavier value is handed out but never inserted. */
    function OversizeBytes(): int { maxBytes / 8 }

    function ProtectedMaxEntries(): int {
      if maxEntries * 4 / 5 < 1 then 1 else maxEntries * 4 / 5
    }

    function ProtectedMaxBytes(): int { maxBytes * 4 / 5 }
  }

  /** Lists run from the most to the least recently used key. */
  datatype Segments<V> = Segments(
    entries: map<Key, Entry<V>>, probation: seq<Key>, protected: seq<Key>, bytes: int, protectedBytes: int)
  {
    /** Both lists as one: eviction always takes the last key. */
    function Order(): seq<Key> { protected + probation }
  }

  function NoSegments<V>(): Segments<V> { Segments(map[], [], [], 0, 0) }

  function Without(q: seq<Key>, k: Key): seq<Key> {
    if q == [] then [] else if q[0] == k then q[1..] else [q[0]] + Without(q[1..], k)
  }

  function Sum<V>(entries: map<Key, Entry<V>>, q: seq<Key>): int {
    if q == [] then 0 else (if q[0] in entries then entries[q[0]].weight else 0) + Sum(entries, q[1..])
  }

  // ---- Operations ----

  function Remove<V>(s: Segments<V>, k: Key): Segments<V>
    requires k in s.entries
  {
    var e := s.entries[k];
    if e.isProtected then
      s.(protected := Without(s.protected, k), protectedBytes := s.protectedBytes - e.weight,
         entries := s.entries - {k}, bytes := s.bytes - e.weight)
    else
      s.(probation := Without(s.probation, k), entries := s.entries - {k}, bytes := s.bytes - e.weight)
  }

  function Victim<V>(s: Segments<V>): Option<Key> {
    if s.probation != [] then Some(s.probation[|s.probation| - 1])
    else if s.protected != [] then Some(s.protected[|s.protected| - 1])
    else None
  }

  /** What an eviction loop runs for: both budgets after an insertion, or the target of a trim. */
  datatype Goal = Budgets(maxEntries: int, maxBytes: int) | Target(bytes: int)

  predicate Met<V>(goal: Goal, s: Segments<V>) {
    match goal
    case Budgets(maxEntries, maxBytes) => |s.entries| <= maxEntries && s.bytes <= maxBytes
    case Target(bytes) => s.bytes <= bytes && (bytes == 0 ==> |s.entries| == 0)
  }

  function EvictUntil<V>(goal: Goal, s: Segments<V>): Segments<V>
    requires Linked(s)
    decreases |s.entries|
  {
    if Met(goal, s) then s else
    match Victim(s)
    case None => s
    case Some(k) =>
      RemoveKeepsLinked(s, k);
      EvictUntil(goal, Remove(s, k))
  }

  function Insert<V>(c: Config, s: Segments<V>, k: Key, value: V, weight: int, now: int): Segments<V>
    requires Linked(s)
  {
    if k in s.entries then RemoveKeepsLinked(s, k); PutKeepsLinked(Remove(s, k), k, value, weight, now);
      EvictUntil(Budgets(c.maxEntries, c.maxBytes), Put(Remove(s, k), k, value, weight, now))
    else
      PutKeepsLinked(s, k, value, weight, now);
      EvictUntil(Budgets(c.maxEntries, c.maxBytes), Put(s, k, value, weight, now))
  }

  function Put<V>(s: Segments<V>, k: Key, value: V, weight: int, now: int): Segments<V> {
    s.(entries := s.entries[k := Entry(value, weight, now, false)],
       probation := [k] + s.probation, bytes := s.bytes + weight)
  }

  /** Move the least recently used protected entries back to the front of probation, never the last one left. */
  function Demote<V>(c: Config, s: Segments<V>): Segments<V>
    requires Linked(s)
    decreases |s.protected|
  {
    if (|s.protected| > c.ProtectedMaxEntries() || s.protectedBytes > c.ProtectedMaxBytes()) && |s.protected| > 1 then
      DemoteOneKeepsLinked(s);
      Demote(c, DemoteOne(s))
    else s
  }

  function DemoteOne<V>(s: Segments<V>): Segments<V>
    requires s.protected != [] && s.protected[|s.protected| - 1] in s.entries
  {
    var back := s.protected[|s.protected| - 1];
    s.(protected := s.protected[..|s.protected| - 1],
       probation := [back] + s.probation,
       entries := s.entries[back := s.entries[back].(isProtected := false)],
       protectedBytes := s.protectedBytes - s.entries[back].weight)
  }

  function Touch<V>(c: Config, s: Segments<V>, k: Key, now: int): Segments<V>
    requires Linked(s) && k in s.entries
  {
    var e := s.entries[k].(lastAccess := now);
    if e.isProtected then
      s.(entries := s.entries[k := e], protected := [k] + Without(s.protected, k))
    else
      PromoteKeepsLinked(s, k, e);
      Demote(c, Promote(s, k, e))
  }

  function Promote<V>(s: Segments<V>, k: Key, e: Entry<V>): Segments<V> {
    s.(entries := s.entries[k := e.(isProtected := true)],
       probation := Without(s.probation, k), protected := [k] + s.protected,
       protectedBytes := s.protectedBytes + e.weight)
  }

  // ---- The representation invariant ----

  /** Map and lists in bijection; every entry sits in the one segment its flag names. */
  ghost predicate Linked<V>(s: Segments<V>) {
    && Distinct(s.protected) && Distinct(s.probation)
    && (forall k :: k in s.entries <==> k in s.protected || k in s.probation)
    && (forall k :: k in s.protected ==> s.entries[k].isProtected)
    && (forall k :: k in s.probation ==> !s.entries[k].isProtected)
  }

  ghost predicate Accounted<V>(s: Segments<V>) {
    s.bytes == Sum(s.entries, s.Order()) && s.protectedBytes == Sum(s.entries, s.protected)
  }

  ghost predicate Weighted<V>(c: Config, s: Segments<V>) {
    forall k :: k in s.entries ==> 0 <= s.entries[k].weight <= c.OversizeBytes()
  }

  /** Everything but the total budgets, which an insertion may exceed for a moment. */
  ghost predicate Sound<V>(c: Config, s: Segments<V>) {
    && c.Valid() && Linked(s) && Accounted(s) && Weighted(c, s)
    && |s.protected| <= c.ProtectedMaxEntries() && s.protectedBytes <= c.ProtectedMaxBytes()
  }

  ghost predicate Inv<V>(c: Config, s: Segments<V>) {
    Sound(c, s) && Met(Budgets(c.maxEntries, c.maxBytes), s)
  }

  // ---- Lists and sums ----

  lemma {:induction false} WithoutFacts(q: seq<Key>, k: Key)
    requires Distinct(q)
    ensures Distinct(Without(q, k))
    ensures forall x :: x in Without(q, k) <==> x in q && x != k
    ensures |Without(q, k)| == if k in q then |q| - 1 else |q|
  {
    if q != [] {
      WithoutFacts(q[1..], k);
      assert q == [q[0]] + q[1..];
      assert q[0] != k ==> Without(q, k)[1..] == Without(q[1..], k);
    }
  }

  lemma {:induction false} WithoutLast(q: seq<Key>)
    requires q != [] && Distinct(q)
    ensures Without(q, q[|q| - 1]) == q[..|q| - 1]
  {
    if |q| > 1 {
      WithoutLast(q[1..]);
      assert q[1..][|q[1..]| - 1] == q[|q| - 1];
      assert [q[0]] + q[1..][..|q| - 2] == q[..|q| - 1];
    }
  }

  lemma {:induction false} SumAppend<V>(entries: map<Key, Entry<V>>, p: seq<Key>, q: seq<Key>)
    ensures Sum(entries, p + q) == Sum(entries, p) + Sum(entries, q)
  {
    if p == [] {
      assert p + q == q;
    } else {
      assert (p + q)[1..] == p[1..] + q;
      SumAppend(entries, p[1..], q);
    }
  }

  lemma {:induction false} SumAgrees<V>(a: map<Key, Entry<V>>, b: map<Key, Entry<V>>, q: seq<Key>)
    requires forall k :: k in q ==> k in a && k in b && a[k].weight == b[k].weight
    ensures Sum(a, q) == Sum(b, q)
  {
    if q != [] {
      SumAgrees(a, b, q[1..]);
    }
  }

  lemma {:induction false} SumWithout<V>(entries: map<Key, Entry<V>>, q: seq<Key>, k: Key)
    requires Distinct(q) && k in q && k in entries
    ensures Sum(entries, Without(q, k)) == Sum(entries, q) - entries[k].weight
  {
    if q[0] != k {
      SumWithout(entries, q[1..], k);
      assert ([q[0]] + Without(q[1..], k))[1..] == Without(q[1..], k);
    }
  }

  lemma {:induction false} SumNonNegative<V>(entries: map<Key, Entry<V>>, q: seq<Key>)
    requires forall k :: k in entries ==> 0 <= entries[k].weight
    ensures 0 <= Sum(entries, q)
  {
    if q != [] {
      SumNonNegative(entries, q[1..]);
    }
  }

  lemma {:induction false} KeysCount(q: seq<Key>, keys: set<Key>)
    requires Distinct(q) && forall k :: k in keys <==> k in q
    ensures |keys| == |q|
  {
    if q != [] {
      assert q[0] in keys;
      var rest := keys - {q[0]};
      assert q == [q[0]] + q[1..];
      KeysCount(q[1..], rest);
      assert keys == rest + {q[0]};
    } else {
      assert keys == {};
    }
  }

  lemma {:induction false} DistinctAppend(p: seq<Key>, q: seq<Key>)
    requires Distinct(p) && Distinct(q) && forall k :: k in p ==> k !in q
    ensures Distinct(p + q)
  {
    if p == [] {
      assert p + q == q;
    } else {
      DistinctAppend(p[1..], q);
      assert (p + q)[1..] == p[1..] + q;
    }
  }

  lemma LinkedCount<V>(s: Segments<V>)
    requires Linked(s)
    ensures |s.entries| == |s.Order()| && Distinct(s.Order())
  {
    DistinctAppend(s.protected, s.probation);
    KeysCount(s.Order(), s.entries.Keys);
  }

  // ---- Removal and insertion ----

  lemma {:induction false} WithoutAbsent(q: seq<Key>, k: Key)
    requires k !in q
    ensures Without(q, k) == q
  {
    if q != [] {
      WithoutAbsent(q[1..], k);
    }
  }

  lemma RemoveFromBoth<V>(s: Segments<V>, k: Key)
    requires Linked(s) && k in s.entries
    ensures
      var r := Remove(s, k);
      && r.protected == Without(s.protected, k) && r.probation == Without(s.probation, k)
      && r.entries == s.entries - {k}
  {
    if s.entries[k].isProtected { WithoutAbsent(s.probation, k); } else { WithoutAbsent(s.protected, k); }
  }

  lemma OneKeyLess<V>(entries: map<Key, Entry<V>>, k: Key)
    requires k in entries
    ensures |entries - {k}| == |entries| - 1
  {
    assert entries.Keys == (entries - {k}).Keys + {k};
  }

  lemma RemoveKeepsLinked<V>(s: Segments<V>, k: Key)
    requires Linked(s) && k in s.entries
    ensures Linked(Remove(s, k)) && |Remove(s, k).entries| == |s.entries| - 1
    ensures k !in Remove(s, k).entries && Remove(s, k).entries == s.entries - {k}
    ensures Remove(s, k).protected == Without(s.protected, k) && Remove(s, k).probation == Without(s.probation, k)
  {
    RemoveFromBoth(s, k);
    OneKeyLess(s.entries, k);
    WithoutFacts(s.protected, k);
    WithoutFacts(s.probation, k);
  }

  /** One removal changes one segment's sum. */
  lemma SumsAfterRemove<V>(s: Segments<V>, k: Key)
    requires Linked(s) && k in s.entries
    ensures
      var r := Remove(s, k);
      && Sum(r.entries, r.protected) ==
         Sum(s.entries, s.protected) - (if s.entries[k].isProtected then s.entries[k].weight else 0)
      && Sum(r.entries, r.probation) ==
         Sum(s.entries, s.probation) - (if s.entries[k].isProtected then 0 else s.entries[k].weight)
  {
    var r := Remove(s, k);
    RemoveKeepsLinked(s, k);
    SumAgrees(s.entries, r.entries, r.protected);
    SumAgrees(s.entries, r.entries, r.probation);
    SumWithout(s.entries, if s.entries[k].isProtected then s.protected else s.probation, k);
  }

  lemma RemoveKeepsSound<V>(c: Config, s: Segments<V>, k: Key)
    requires Sound(c, s) && k in s.entries
    ensures Sound(c, Remove(s, k))
  {
    RemoveKeepsLinked(s, k);
    RemoveKeepsAccounts(c, s, k);
    WithoutFacts(s.protected, k);
  }

  lemma RemoveKeepsAccounts<V>(c: Config, s: Segments<V>, k: Key)
    requires Linked(s) && Accounted(s) && Weighted(c, s) && k in s.entries
    ensures Accounted(Remove(s, k)) && Weighted(c, Remove(s, k)) && Remove(s, k).protectedBytes <= s.protectedBytes
  {
    var r := Remove(s, k);
    SumsAfterRemove(s, k);
    SumAppend(s.entries, s.protected, s.probation);
    SumAppend(r.entries, r.protected, r.probation);
  }

  lemma PutKeepsLinked<V>(s: Segments<V>, k: Key, value: V, weight: int, now: int)
    requires Linked(s) && k !in s.entries
    ensures Linked(Put(s, k, value, weight, now))
  {
  }

  lemma PutKeepsSound<V>(c: Config, s: Segments<V>, k: Key, value: V, weight: int, now: int)
    requires Sound(c, s) && k !in s.entries && 0 <= weight <= c.OversizeBytes()
    ensures Sound(c, Put(s, k, value, weight, now))
  {
    var r := Put(s, k, value, weight, now);
    PutKeepsLinked(s, k, value, weight, now);
    SumAppend(s.entries, s.protected, s.probation);
    SumAppend(r.entries, r.protected, r.probation);
    SumAgrees(s.entries, r.entries, s.protected);
    SumAgrees(s.entries, r.entries, s.probation);
  }

  // ---- Eviction ----

  lemma VictimResident<V>(s: Segments<V>)
    requires Linked(s)
    ensures Victim(s).Some? ==> Victim(s).value in s.entries
    ensures Victim(s).None? ==> s.entries == map[] && s.Order() == []
  {
    if Victim(s).None? {
      assert forall k :: k !in s.entries;
    }
  }

  lemma OrderWithoutLast(p: seq<Key>, q: seq<Key>)
    requires p + q != []
    ensures (p + q)[..|p + q| - 1] == if q == [] then p[..|p| - 1] else p + q[..|q| - 1]
  {
  }

  /** Evicting removes the last key of the order and nothing else. */
  lemma EvictTakesLast<V>(s: Segments<V>)
    requires Linked(s) && Victim(s).Some?
    ensures Victim(s).value in s.entries
    ensures
      var r := Remove(s, Victim(s).value);
      var q := s.Order();
      && q != [] && Victim(s).value == q[|q| - 1]
      && r.Order() == q[..|q| - 1]
      && r.protected == (if s.probation == [] then s.protected[..|s.protected| - 1] else s.protected)
  {
    VictimResident(s);
    OrderWithoutLast(s.protected, s.probation);
    if s.probation != [] { EvictFromProbation(s); } else { EvictFromProtected(s); }
  }

  lemma EvictFromProbation<V>(s: Segments<V>)
    requires Linked(s) && s.probation != []
    ensures
      var k := s.probation[|s.probation| - 1];
      && k in s.entries && Remove(s, k).protected == s.protected
      && Remove(s, k).probation == s.probation[..|s.probation| - 1]
  {
    assert s.probation[|s.probation| - 1] in s.probation;
    WithoutLast(s.probation);
  }

  lemma EvictFromProtected<V>(s: Segments<V>)
    requires Linked(s) && s.probation == [] && s.protected != []
    ensures
      var k := s.protected[|s.protected| - 1];
      && k in s.entries && Remove(s, k).protected == s.protected[..|s.protected| - 1] && Remove(s, k).probation == []
  {
    assert s.protected[|s.protected| - 1] in s.protected;
    WithoutLast(s.protected);
  }

  /** `r` is `s` after its last keys were evicted: the first `n` keys of the order remain, unchanged. */
  ghost predicate Kept<V>(s: Segments<V>, n: nat, r: Segments<V>) {
    && Linked(r)
    && n <= |s.Order()|
    && r.Order() == s.Order()[..n]
    && r.protected == s.protected[..if n < |s.protected| then n else |s.protected|]
    && forall k :: k in r.entries ==> k in s.entries && r.entries[k] == s.entries[k]
  }

  /** Sum of the weights of the first `n` keys in recency order. */
  function PrefixBytes<V>(s: Segments<V>, n: nat): int
    requires n <= |s.Order()|
  {
    Sum(s.entries, s.Order()[..n])
  }

  predicate PrefixMeets<V>(goal: Goal, s: Segments<V>, n: nat)
    requires n <= |s.Order()|
  {
    match goal
    case Budgets(maxEntries, maxBytes) => n <= maxEntries && PrefixBytes(s, n) <= maxBytes
    case Target(bytes) => PrefixBytes(s, n) <= bytes && (bytes == 0 ==> n == 0)
  }

  lemma MetIsWholePrefix<V>(goal: Goal, s: Segments<V>)
    requires Linked(s) && Accounted(s)
    ensures Met(goal, s) <==> PrefixMeets(goal, s, |s.Order()|)
  {
    LinkedCount(s);
    assert s.Order()[..|s.Order()|] == s.Order();
  }

  lemma PrefixOfRemoved<V>(goal: Goal, s: Segments<V>, n: nat)
    requires Linked(s) && Victim(s).Some? && Victim(s).value in s.entries && n < |s.Order()|
    ensures
      var r := Remove(s, Victim(s).value);
      n <= |r.Order()| && PrefixMeets(goal, r, n) == PrefixMeets(goal, s, n)
  {
    var k := Victim(s).value;
    var r := Remove(s, k);
    EvictTakesLast(s);
    RemoveKeepsLinked(s, k);
    assert r.Order()[..n] == s.Order()[..n];
    forall x | x in r.Order()[..n] ensures x in r.entries && x in s.entries && r.entries[x] == s.entries[x] {
      assert x in r.Order();
    }
    SumAgrees(s.entries, r.entries, r.Order()[..n]);
  }

  lemma TakeTwice(q: seq<Key>, m: nat, n: nat)
    requires n <= m <= |q|
    ensures q[..m][..n] == q[..n]
  {
  }

  lemma KeptAfterOne<V>(s: Segments<V>, n: nat, r: Segments<V>)
    requires Linked(s) && Victim(s).Some? && Victim(s).value in s.entries
    requires Kept(Remove(s, Victim(s).value), n, r)
    ensures Kept(s, n, r)
  {
    var k := Victim(s).value;
    EvictTakesLast(s);
    RemoveFromBoth(s, k);
    TakeTwice(s.Order(), |s.Order()| - 1, n);
    if s.probation == [] { TakeTwice(s.protected, |s.protected| - 1, n); }
  }

  lemma LongestAfterOne<V>(goal: Goal, s: Segments<V>, n: nat)
    requires Linked(s) && Accounted(s) && !Met(goal, s) && Victim(s).Some? && Victim(s).value in s.entries
    requires
      var r := Remove(s, Victim(s).value);
      && n <= |r.Order()| && PrefixMeets(goal, r, n)
      && forall m :: n < m <= |r.Order()| ==> !PrefixMeets(goal, r, m)
    ensures n <= |s.Order()| && PrefixMeets(goal, s, n)
    ensures forall m :: n < m <= |s.Order()| ==> !PrefixMeets(goal, s, m)
  {
    var r := Remove(s, Victim(s).value);
    EvictTakesLast(s);
    MetIsWholePrefix(goal, s);
    PrefixOfRemoved(goal, s, n);
    forall m | n < m <= |s.Order()| ensures !PrefixMeets(goal, s, m) {
      if m < |s.Order()| {
        PrefixOfRemoved(goal, s, m);
        assert !PrefixMeets(goal, r, m);
      }
    }
  }

  /** An eviction loop keeps the longest prefix of the recency order that meets its goal: it evicts exactly the
      shortest run of least recently used keys, probation before protected, after which the goal holds. */
  lemma {:induction false} EvictionKeepsLongestPrefix<V>(c: Config, goal: Goal, s: Segments<V>) returns (n: nat)
    requires Sound(c, s) && (goal.Target? ==> goal.bytes >= 0)
    requires goal.Budgets? ==> goal.maxEntries >= 0 && goal.maxBytes >= 0
    ensures Sound(c, EvictUntil(goal, s)) && Met(goal, EvictUntil(goal, s))
    ensures Kept(s, n, EvictUntil(goal, s)) && PrefixMeets(goal, s, n)
    ensures forall m :: n < m <= |s.Order()| ==> !PrefixMeets(goal, s, m)
    decreases |s.entries|
  {
    MetIsWholePrefix(goal, s);
    if Met(goal, s) {
      n := |s.Order()|;
      assert s.Order()[..n] == s.Order();
    } else {
      VictimResident(s);
      var k := Victim(s).value;
      RemoveKeepsSound(c, s, k);
      RemoveKeepsLinked(s, k);
      EvictTakesLast(s);
      var r := Remove(s, k);
      n := EvictionKeepsLongestPrefix(c, goal, r);
      KeptAfterOne(s, n, EvictUntil(goal, r));
      LongestAfterOne(goal, s, n);
    }
  }

  /** `Trim(target)`: the recency order keeps its longest prefix within the target, and nothing at all for target 0. */
  lemma TrimIsShortest<V>(c: Config, s: Segments<V>, target: int) returns (n: nat)
    requires Inv(c, s) && target >= 0
    ensures
      var r := EvictUntil(Target(target), s);
      && Inv(c, r) && Kept(s, n, r)
      && PrefixBytes(s, n) <= target && (target == 0 ==> n == 0)
      && forall m :: n < m <= |s.Order()| && target > 0 ==> PrefixBytes(s, m) > target
  {
    n := EvictionKeepsLongestPrefix(c, Target(target), s);
    var r := EvictUntil(Target(target), s);
    LinkedCount(s);
    LinkedCount(r);
    forall m | n < m <= |s.Order()| && target > 0 ensures PrefixBytes(s, m) > target {
      assert !PrefixMeets(Target(target), s, m);
    }
    PrefixMonotone(c, s, n, |s.Order()|);
    MetIsWholePrefix(Target(target), r);
    MetIsWholePrefix(Budgets(c.maxEntries, c.maxBytes), s);
    SumAgrees(s.entries, r.entries, r.Order());
  }

  lemma PrefixMonotone<V>(c: Config, s: Segments<V>, m: nat, n: nat)
    requires Weighted(c, s) && m <= n <= |s.Order()|
    ensures PrefixBytes(s, m) <= PrefixBytes(s, n)
  {
    var q := s.Order();
    assert q[..n] == q[..m] + q[m..n];
    SumAppend(s.entries, q[..m], q[m..n]);
    SumNonNegative(s.entries, q[m..n]);
  }

  // ---- Touching ----

  lemma DemoteOneKeepsLinked<V>(s: Segments<V>)
    requires Linked(s) && s.protected != []
    ensures s.protected[|s.protected| - 1] in s.entries && Linked(DemoteOne(s))
  {
    var back := s.protected[|s.protected| - 1];
    assert back in s.protected;
    WithoutLast(s.protected);
    WithoutFacts(s.protected, back);
  }

  lemma PromoteKeepsLinked<V>(s: Segments<V>, k: Key, e: Entry<V>)
    requires Linked(s) && k in s.entries && !s.entries[k].isProtected
    ensures Linked(Promote(s, k, e))
  {
    WithoutFacts(s.probation, k);
  }

  /** Same keys with the same values, weights and access times; only the segment may differ. */
  ghost predicate SameEntries<V>(a: map<Key, Entry<V>>, b: map<Key, Entry<V>>) {
    && a.Keys == b.Keys
    && forall k :: k in a ==> a[k] == b[k].(isProtected := a[k].isProtected)
  }

  ghost predicate SameWeights<V>(a: map<Key, Entry<V>>, b: map<Key, Entry<V>>) {
    a.Keys == b.Keys && forall k :: k in a ==> a[k].weight == b[k].weight
  }

  lemma {:induction false} SumSameWeights<V>(a: map<Key, Entry<V>>, b: map<Key, Entry<V>>, q: seq<Key>)
    requires SameWeights(a, b)
    ensures Sum(a, q) == Sum(b, q)
  {
    if q != [] {
      SumSameWeights(a, b, q[1..]);
    }
  }

  lemma DemoteOneOrder<V>(s: Segments<V>)
    requires s.protected != [] && s.protected[|s.protected| - 1] in s.entries
    ensures DemoteOne(s).Order() == s.Order()
    ensures SameWeights(s.entries, DemoteOne(s).entries)
    ensures Sum(s.entries, DemoteOne(s).protected) ==
            Sum(s.entries, s.protected) - s.entries[s.protected[|s.protected| - 1]].weight
  {
    var front, back := s.protected[..|s.protected| - 1], s.protected[|s.protected| - 1];
    assert s.protected == front + [back];
    SumAppend(s.entries, front, [back]);
  }

  lemma DemoteOneFacts<V>(c: Config, s: Segments<V>)
    requires Linked(s) && Accounted(s) && Weighted(c, s) && s.protected != []
    ensures s.protected[|s.protected| - 1] in s.entries
    ensures
      var r := DemoteOne(s);
      && Linked(r) && Accounted(r) && Weighted(c, r)
      && r.Order() == s.Order() && r.bytes == s.bytes && SameEntries(s.entries, r.entries)
  {
    DemoteOneKeepsLinked(s);
    DemoteOneOrder(s);
    var r := DemoteOne(s);
    SumSameWeights(s.entries, r.entries, r.protected);
    SumSameWeights(s.entries, r.entries, r.Order());
  }

  /** Demotion never changes the recency order, only where it is cut, and never reaches its first key. */
  lemma {:induction false} DemoteFacts<V>(c: Config, s: Segments<V>)
    requires c.Valid() && Linked(s) && Accounted(s) && Weighted(c, s) && s.protected != []
    ensures
      var r := Demote(c, s);
      && Sound(c, r) && r.Order() == s.Order() && r.bytes == s.bytes && SameEntries(s.entries, r.entries)
      && r.protected != [] && r.protected <= s.protected
    decreases |s.protected|
  {
    if (|s.protected| > c.ProtectedMaxEntries() || s.protectedBytes > c.ProtectedMaxBytes()) && |s.protected| > 1 {
      DemoteOneFacts(c, s);
      DemoteFacts(c, DemoteOne(s));
    } else if |s.protected| == 1 {
      assert s.protected == [s.protected[0]] && s.protected[0] in s.protected;
      assert Sum(s.entries, s.protected) == s.entries[s.protected[0]].weight;
    }
  }

  lemma PromoteOrder<V>(s: Segments<V>, k: Key, e: Entry<V>)
    requires Linked(s) && k in s.entries && !s.entries[k].isProtected
    ensures k in s.probation && k !in s.protected
    ensures Promote(s, k, e).Order() == [k] + Without(s.Order(), k)
  {
    WithoutInSecond(s.protected, s.probation, k);
    assert [k] + s.protected + Without(s.probation, k) == [k] + (s.protected + Without(s.probation, k));
  }

  /** Moving one key to the front of a list leaves the sum of the list as it was. */
  lemma SumToFront<V>(entries: map<Key, Entry<V>>, q: seq<Key>, k: Key)
    requires Distinct(q) && k in q && k in entries
    ensures Sum(entries, [k] + Without(q, k)) == Sum(entries, q)
  {
    SumWithout(entries, q, k);
    assert ([k] + Without(q, k))[1..] == Without(q, k);
  }

  lemma PromoteAccounted<V>(s: Segments<V>, k: Key, e: Entry<V>)
    requires Linked(s) && Accounted(s) && k in s.entries && !s.entries[k].isProtected && e.weight == s.entries[k].weight
    ensures Accounted(Promote(s, k, e))
  {
    var r := Promote(s, k, e);
    PromoteOrder(s, k, e);
    LinkedCount(s);
    SumSameWeights(s.entries, r.entries, r.Order());
    SumSameWeights(s.entries, r.entries, r.protected);
    assert k in s.Order();
    SumToFront(s.entries, s.Order(), k);
    assert r.protected[1..] == s.protected;
  }

  lemma PromoteFacts<V>(c: Config, s: Segments<V>, k: Key, e: Entry<V>)
    requires Sound(c, s) && k in s.entries && !s.entries[k].isProtected && e.weight == s.entries[k].weight
    ensures
      var r := Promote(s, k, e);
      && Linked(r) && Accounted(r) && Weighted(c, r) && r.Order() == [k] + Without(s.Order(), k)
  {
    PromoteKeepsLinked(s, k, e);
    PromoteOrder(s, k, e);
    PromoteAccounted(s, k, e);
  }

  lemma {:induction false} WithoutInSecond(p: seq<Key>, q: seq<Key>, k: Key)
    requires k !in p
    ensures Without(p + q, k) == p + Without(q, k)
  {
    if p == [] {
      assert p + q == q;
    } else {
      assert (p + q)[1..] == p[1..] + q;
      WithoutInSecond(p[1..], q, k);
      assert [p[0]] + (p[1..] + Without(q, k)) == p + Without(q, k);
    }
  }

  lemma {:induction false} WithoutInFirst(p: seq<Key>, q: seq<Key>, k: Key)
    requires k in p
    ensures Without(p + q, k) == Without(p, k) + q
  {
    assert (p + q)[1..] == p[1..] + q;
    if p[0] != k {
      WithoutInFirst(p[1..], q, k);
    }
  }

  lemma MoveToFrontLinked<V>(c: Config, s: Segments<V>, k: Key, now: int)
    requires Linked(s) && k in s.entries && s.entries[k].isProtected
    ensures
      var r := Touch(c, s, k, now);
      Linked(r) && |r.protected| == |s.protected|
  {
    WithoutFacts(s.protected, k);
    var r := Touch(c, s, k, now);
    assert r.protected[1..] == Without(s.protected, k);
    assert forall x :: x in r.protected <==> x in s.protected;
  }

  lemma MoveToFrontOrder<V>(c: Config, s: Segments<V>, k: Key, now: int)
    requires Linked(s) && k in s.entries && s.entries[k].isProtected
    ensures
      var r := Touch(c, s, k, now);
      && r.protected == [k] + Without(s.protected, k)
      && r.Order() == [k] + Without(s.Order(), k)
      && SameWeights(s.entries, r.entries)
  {
    FrontOfFirst(s.protected, s.probation, k);
  }

  lemma FrontOfFirst(p: seq<Key>, q: seq<Key>, k: Key)
    requires k in p
    ensures [k] + Without(p, k) + q == [k] + Without(p + q, k)
  {
    WithoutInFirst(p, q, k);
    assert [k] + Without(p, k) + q == [k] + (Without(p, k) + q);
  }

  lemma MoveToFrontAccounted<V>(c: Config, s: Segments<V>, k: Key, now: int)
    requires Linked(s) && Accounted(s) && k in s.entries && s.entries[k].isProtected
    ensures Accounted(Touch(c, s, k, now))
  {
    var r := Touch(c, s, k, now);
    MoveToFrontOrder(c, s, k, now);
    LinkedCount(s);
    SumSameWeights(s.entries, r.entries, r.protected);
    SumSameWeights(s.entries, r.entries, r.Order());
    assert k in s.protected && k in s.Order();
    SumToFront(s.entries, s.protected, k);
    SumToFront(s.entries, s.Order(), k);
  }

  lemma MoveToFrontFacts<V>(c: Config, s: Segments<V>, k: Key, now: int)
    requires Sound(c, s) && k in s.entries && s.entries[k].isProtected
    ensures
      var r := Touch(c, s, k, now);
      && Sound(c, r) && r.Order() == [k] + Without(s.Order(), k)
  {
    MoveToFrontLinked(c, s, k, now);
    MoveToFrontOrder(c, s, k, now);
    MoveToFrontAccounted(c, s, k, now);
  }

  /** A hit moves its key to the front of the recency order and into the protected segment, where the demotions it
      causes cannot reach it. Every other entry is left as it was, and the cache stays within all its budgets. */
  lemma TouchFacts<V>(c: Config, s: Segments<V>, k: Key, now: int)
    requires Inv(c, s) && k in s.entries
    ensures
      var r := Touch(c, s, k, now);
      && Inv(c, r) && r.Order() == [k] + Without(s.Order(), k)
      && r.protected != [] && r.protected[0] == k && r.entries[k].isProtected
      && SameEntries(s.entries[k := s.entries[k].(lastAccess := now)], r.entries)
  {
    if s.entries[k].isProtected {
      MoveToFrontFacts(c, s, k, now);
    } else {
      PromoteTouchFacts(c, s, k, now);
    }
    assert Touch(c, s, k, now).entries.Keys == s.entries.Keys;
  }

  lemma PromoteTouchFacts<V>(c: Config, s: Segments<V>, k: Key, now: int)
    requires Sound(c, s) && k in s.entries && !s.entries[k].isProtected
    ensures
      var r := Touch(c, s, k, now);
      && Sound(c, r) && r.Order() == [k] + Without(s.Order(), k) && r.bytes == s.bytes
      && r.protected != [] && r.protected[0] == k && r.entries[k].isProtected
      && SameEntries(s.entries[k := s.entries[k].(lastAccess := now)], r.entries)
  {
    var e := s.entries[k].(lastAccess := now);
    PromoteFacts(c, s, k, e);
    DemoteBehind(c, Promote(s, k, e), k);
    SameEntriesTwice(s.entries[k := e], Promote(s, k, e).entries, Touch(c, s, k, now).entries);
  }

  /** Demotion stops behind the first protected key. */
  lemma DemoteBehind<V>(c: Config, p: Segments<V>, k: Key)
    requires c.Valid() && Linked(p) && Accounted(p) && Weighted(c, p) && p.protected != [] && p.protected[0] == k
    ensures
      var r := Demote(c, p);
      && Sound(c, r) && r.Order() == p.Order() && r.bytes == p.bytes && SameEntries(p.entries, r.entries)
      && r.protected != [] && r.protected[0] == k && k in r.entries && r.entries[k].isProtected
  {
    DemoteFacts(c, p);
    var r := Demote(c, p);
    assert r.protected[0] in r.protected;
  }

  lemma SameEntriesTwice<V>(a: map<Key, Entry<V>>, b: map<Key, Entry<V>>, d: map<Key, Entry<V>>)
    requires SameEntries(a, b) && SameEntries(b, d)
    ensures SameEntries(a, d)
  {
  }

  // ---- Insertion ----

  /** The protected keys, and the new key after them, fit the budgets on their own. */
  lemma ProtectedPrefixFits<V>(c: Config, s: Segments<V>, k: Key, value: V, weight: int, now: int)
    requires Inv(c, s) && k !in s.entries && 0 <= weight <= c.OversizeBytes()
    ensures
      var p := Put(s, k, value, weight, now);
      var goal := Budgets(c.maxEntries, c.maxBytes);
      var n := |s.protected|;
      && p.Order() == s.protected + ([k] + s.probation)
      && n < |p.Order()| && PrefixMeets(goal, p, n)
      && (c.maxEntries >= 2 || n == 0 ==> PrefixMeets(goal, p, n + 1))
  {
    var p := Put(s, k, value, weight, now);
    var n := |s.protected|;
    assert p.Order()[..n] == s.protected;
    assert p.Order()[..n + 1] == s.protected + [k];
    SumAppend(p.entries, s.protected, [k]);
    SumAgrees(s.entries, p.entries, s.protected);
  }

  lemma InsertEvicts<V>(c: Config, s: Segments<V>, k: Key, value: V, weight: int, now: int) returns (total: nat)
    requires Inv(c, s) && k !in s.entries && 0 <= weight <= c.OversizeBytes()
    ensures
      var p, r := Put(s, k, value, weight, now), Insert(c, s, k, value, weight, now);
      var goal := Budgets(c.maxEntries, c.maxBytes);
      && Inv(c, r) && Kept(p, total, r) && PrefixMeets(goal, p, total)
      && forall m :: total < m <= |p.Order()| ==> !PrefixMeets(goal, p, m)
  {
    var p := Put(s, k, value, weight, now);
    PutKeepsSound(c, s, k, value, weight, now);
    total := EvictionKeepsLongestPrefix(c, Budgets(c.maxEntries, c.maxBytes), p);
    MetBudgets(c, EvictUntil(Budgets(c.maxEntries, c.maxBytes), p));
  }

  lemma InsertCutsProbation<V>(c: Config, s: Segments<V>, k: Key, value: V, weight: int, now: int) returns (n: nat)
    requires Inv(c, s) && k !in s.entries && 0 <= weight <= c.OversizeBytes()
    ensures
      var p := Put(s, k, value, weight, now);
      var r := Insert(c, s, k, value, weight, now);
      && Inv(c, r)
      && r.protected == s.protected && n <= |s.probation| + 1 && r.probation == ([k] + s.probation)[..n]
      && (n >= 1 <==> c.maxEntries >= 2 || s.protected == [])
      && (forall x :: x in r.entries ==> x in p.entries && r.entries[x] == p.entries[x])
  {
    var total := InsertEvicts(c, s, k, value, weight, now);
    ProtectedPrefixFits(c, s, k, value, weight, now);
    n := CutFacts(c, s, k, Put(s, k, value, weight, now), Insert(c, s, k, value, weight, now), total);
  }

  lemma CutFacts<V>(c: Config, s: Segments<V>, k: Key, p: Segments<V>, r: Segments<V>, total: nat) returns (n: nat)
    requires p.protected == s.protected && p.probation == [k] + s.probation && Kept(p, total, r)
    requires
      var goal, n := Budgets(c.maxEntries, c.maxBytes), |s.protected|;
      && PrefixMeets(goal, p, n) && (c.maxEntries >= 2 || n == 0 ==> PrefixMeets(goal, p, n + 1))
      && PrefixMeets(goal, p, total) && forall m :: total < m <= |p.Order()| ==> !PrefixMeets(goal, p, m)
    ensures r.protected == s.protected && n <= |s.probation| + 1 && r.probation == ([k] + s.probation)[..n]
    ensures n >= 1 <==> c.maxEntries >= 2 || s.protected == []
  {
    LongestPastProtected(c, s, k, p, total);
    CutToProbation(s, k, p, r, total);
    n := total - |s.protected|;
  }

  lemma MetBudgets<V>(c: Config, r: Segments<V>)
    requires c.Valid() && Sound(c, r) && Met(Budgets(c.maxEntries, c.maxBytes), r)
    ensures Inv(c, r)
  {
  }

  /** The longest prefix that fits has all protected keys, and the new one exactly if that may be. */
  lemma LongestPastProtected<V>(c: Config, s: Segments<V>, k: Key, p: Segments<V>, total: nat)
    requires p.Order() == s.protected + ([k] + s.probation) && total <= |p.Order()|
    requires
      var goal, n := Budgets(c.maxEntries, c.maxBytes), |s.protected|;
      && PrefixMeets(goal, p, n) && (c.maxEntries >= 2 || n == 0 ==> PrefixMeets(goal, p, n + 1))
      && PrefixMeets(goal, p, total) && forall m :: total < m <= |p.Order()| ==> !PrefixMeets(goal, p, m)
    ensures |s.protected| <= total && (total > |s.protected| <==> c.maxEntries >= 2 || s.protected == [])
  {
  }

  lemma CutToProbation<V>(s: Segments<V>, k: Key, p: Segments<V>, r: Segments<V>, total: nat)
    requires p.protected == s.protected && p.probation == [k] + s.probation
    requires Kept(p, total, r) && |s.protected| <= total
    ensures r.protected == s.protected && r.probation == ([k] + s.probation)[..total - |s.protected|]
  {
    CutBehind(s.protected, [k] + s.probation, total, r.protected, r.probation);
  }

  /** Scan resistance. Inserting a fresh key evicts only from the least recently used end of probation, never a
      protected entry; and the new entry itself stays resident exactly when two entries fit or none is protected. */
  lemma InsertFresh<V>(c: Config, s: Segments<V>, k: Key, value: V, weight: int, now: int) returns (n: nat)
    requires Inv(c, s) && k !in s.entries && 0 <= weight <= c.OversizeBytes()
    ensures
      var r := Insert(c, s, k, value, weight, now);
      && Inv(c, r)
      && r.protected == s.protected && n <= |s.probation| + 1 && r.probation == ([k] + s.probation)[..n]
      && (k in r.entries <==> c.maxEntries >= 2 || s.protected == [])
      && (k in r.entries ==> r.entries[k] == Entry(value, weight, now, false))
      && (forall x :: x in r.entries && x != k ==> x in s.entries && r.entries[x] == s.entries[x])
  {
    n := InsertCutsProbation(c, s, k, value, weight, now);
    var r := Insert(c, s, k, value, weight, now);
    assert k !in s.protected;
    if n >= 1 {
      assert r.probation[0] == k;
    } else {
      assert k !in r.probation;
    }
  }

  /** A prefix of two lists that keeps the first whole cuts the second. */
  lemma CutBehind(p: seq<Key>, q: seq<Key>, n: nat, first: seq<Key>, second: seq<Key>)
    requires |p| <= n <= |p| + |q| && first + second == (p + q)[..n] && |first| == |p|
    ensures first == p && second == q[..n - |p|]
  {
    assert (p + q)[..n] == p + q[..n - |p|];
    assert (first + second)[..|p|] == first && (first + second)[|p|..] == second;
    assert (p + q[..n - |p|])[..|p|] == p && (p + q[..n - |p|])[|p|..] == q[..n - |p|];
  }
}
