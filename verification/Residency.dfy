/** The residency cache: segmented LRU, singleflight table and negative cache behind one mutex. Each critical section
    is one function on `Core`; the class performs it in place. */
module Residency {
  import opened Wrappers
  import opened Lists
  import opened Slru

  datatype LoadError = LoadError(text: string, immutable: bool) | Panicked

  datatype Outcome<V> = Value(value: V) | Failure(error: LoadError)

  /** A remembered failure that cannot heal within this build. */
  datatype Negative = Negative(error: LoadError, expires: int)

  /** Options after `New` has applied the defaults; 0 disables idle expiry or the negative cache. */
  datatype Limits = Limits(c: Config, idle: int, negativeMax: int, negativeTTL: int)

  datatype Core<V> = Core(
    segments: Segments<V>, negative: map<Key, Negative>, negativeOrder: seq<Key>, flights: map<Key, nat>, closed: bool)

  /** What a caller of `Get` leaves the critical section with. */
  datatype Reply<V> = Served(value: V) | Remembered(error: LoadError) | Refused | Joined(flight: nat)

  function IsImmutable(e: LoadError): bool {
    e.LoadError? && e.immutable
  }

  function Empty<V>(): Core<V> {
    Core(NoSegments(), map[], [], map[], false)
  }

  // ---- Negative cache ----

  function RemoveNegative<V>(s: Core<V>, k: Key): Core<V> {
    if k in s.negative then s.(negative := s.negative - {k}, negativeOrder := Without(s.negativeOrder, k)) else s
  }

  function EvictOldest<V>(s: Core<V>, max: int): Core<V>
    requires NegativeLinked(s)
    decreases |s.negativeOrder|
  {
    if |s.negative| >= max && s.negativeOrder != [] then
      RemoveNegativeLinked(s, s.negativeOrder[0]);
      EvictOldest(RemoveNegative(s, s.negativeOrder[0]), max)
    else s
  }

  function StoreNegative<V>(l: Limits, s: Core<V>, k: Key, e: LoadError, now: int): Core<V>
    requires NegativeLinked(s)
  {
    var entry := Negative(e, now + l.negativeTTL);
    if l.negativeMax <= 0 then s
    else if k in s.negative then
      s.(negative := s.negative[k := entry], negativeOrder := Without(s.negativeOrder, k) + [k])
    else
      AppendNegative(EvictOldest(s, l.negativeMax), k, entry)
  }

  ghost predicate NegativeLinked<V>(s: Core<V>) {
    && Distinct(s.negativeOrder)
    && (forall k :: k in s.negative <==> k in s.negativeOrder)
  }

  lemma RemoveNegativeLinked<V>(s: Core<V>, k: Key)
    requires NegativeLinked(s)
    ensures NegativeLinked(RemoveNegative(s, k))
    ensures k in s.negative ==> |RemoveNegative(s, k).negativeOrder| == |s.negativeOrder| - 1
  {
    WithoutFacts(s.negativeOrder, k);
  }

  lemma NegativeCount<V>(s: Core<V>)
    requires NegativeLinked(s)
    ensures |s.negative| == |s.negativeOrder|
  {
    KeysCount(s.negativeOrder, s.negative.Keys);
  }

  lemma DropOldest<V>(s: Core<V>)
    requires NegativeLinked(s) && s.negativeOrder != []
    ensures
      var r := RemoveNegative(s, s.negativeOrder[0]);
      && NegativeLinked(r) && r == s.(negative := r.negative, negativeOrder := s.negativeOrder[1..])
      && forall k :: k in r.negative ==> k in s.negative && r.negative[k] == s.negative[k]
  {
    RemoveNegativeLinked(s, s.negativeOrder[0]);
  }

  function Surplus(n: int, max: int): int {
    if n < max then 0 else n - max + 1
  }

  /** Failures were dropped and nothing else changed. */
  ghost predicate Forgot<V>(s: Core<V>, r: Core<V>) {
    && r == s.(negative := r.negative, negativeOrder := r.negativeOrder)
    && forall k :: k in r.negative ==> k in s.negative && r.negative[k] == s.negative[k]
  }

  lemma {:induction false} EvictOldestForgets<V>(s: Core<V>, max: int)
    requires NegativeLinked(s) && max >= 1
    ensures NegativeLinked(EvictOldest(s, max)) && Forgot(s, EvictOldest(s, max))
    decreases |s.negativeOrder|
  {
    NegativeCount(s);
    if |s.negative| >= max && s.negativeOrder != [] {
      DropOldest(s);
      EvictOldestForgets(RemoveNegative(s, s.negativeOrder[0]), max);
    }
  }

  lemma {:induction false} EvictOldestOrder<V>(s: Core<V>, max: int)
    requires NegativeLinked(s) && max >= 1
    ensures EvictOldest(s, max).negativeOrder == s.negativeOrder[Surplus(|s.negativeOrder|, max)..]
    decreases |s.negativeOrder|
  {
    NegativeCount(s);
    if |s.negative| >= max && s.negativeOrder != [] {
      DropOldest(s);
      var next := RemoveNegative(s, s.negativeOrder[0]);
      EvictOldestOrder(next, max);
      assert Surplus(|s.negativeOrder|, max) == Surplus(|next.negativeOrder|, max) + 1;
      DropTwice(s.negativeOrder, Surplus(|next.negativeOrder|, max));
    } else {
      assert s.negativeOrder[0..] == s.negativeOrder;
    }
  }

  /** Making room drops the oldest failures, no more than needed. */
  lemma EvictOldestFacts<V>(s: Core<V>, max: int)
    requires NegativeLinked(s) && max >= 1
    ensures
      var r := EvictOldest(s, max);
      && NegativeLinked(r) && Forgot(s, r)
      && r.negativeOrder == s.negativeOrder[Surplus(|s.negativeOrder|, max)..]
  {
    EvictOldestForgets(s, max);
    EvictOldestOrder(s, max);
  }

  lemma DropTwice(q: seq<Key>, n: nat)
    requires n < |q|
    ensures q[1..][n..] == q[n + 1..]
  {
  }

  ghost predicate NegativeInv<V>(l: Limits, s: Core<V>) {
    && NegativeLinked(s)
    && |s.negativeOrder| <= (if l.negativeMax <= 0 then 0 else l.negativeMax)
    && forall k :: k in s.negative ==> IsImmutable(s.negative[k].error)
  }

  lemma RenewNegative<V>(l: Limits, s: Core<V>, k: Key, e: LoadError, now: int)
    requires NegativeInv(l, s) && IsImmutable(e) && l.negativeMax > 0 && k in s.negative
    ensures
      var r := StoreNegative(l, s, k, e, now);
      && NegativeInv(l, r) && r.negativeOrder == Without(s.negativeOrder, k) + [k]
      && r.negative == s.negative[k := Negative(e, now + l.negativeTTL)]
  {
    WithoutFacts(s.negativeOrder, k);
    DistinctSnoc(Without(s.negativeOrder, k), k);
  }

  function AppendNegative<V>(s: Core<V>, k: Key, entry: Negative): Core<V> {
    s.(negative := s.negative[k := entry], negativeOrder := s.negativeOrder + [k])
  }

  lemma AppendNegativeLinked<V>(s: Core<V>, k: Key, entry: Negative)
    requires NegativeLinked(s) && k !in s.negative
    ensures NegativeLinked(AppendNegative(s, k, entry))
  {
    DistinctSnoc(s.negativeOrder, k);
  }

  lemma RoomMade<V>(s: Core<V>, max: int)
    requires NegativeLinked(s) && max >= 1
    ensures |EvictOldest(s, max).negativeOrder| < max
  {
    EvictOldestOrder(s, max);
  }

  /** A failure added once there is room. */
  lemma AddNegative<V>(l: Limits, s: Core<V>, room: Core<V>, k: Key, entry: Negative)
    requires NegativeInv(l, s) && IsImmutable(entry.error) && k !in s.negative
    requires NegativeLinked(room) && Forgot(s, room) && |room.negativeOrder| < l.negativeMax
    ensures
      var r := AppendNegative(room, k, entry);
      && NegativeInv(l, r) && r == s.(negative := r.negative, negativeOrder := r.negativeOrder)
      && r.negative.Keys <= s.negative.Keys + {k} && k in r.negative && r.negative[k] == entry
      && r.negativeOrder != [] && r.negativeOrder[|r.negativeOrder| - 1] == k
  {
    AppendNegativeLinked(room, k, entry);
  }

  /** The bound holds after every store, and the new failure is the youngest remembered one. */
  lemma StoreNegativeFacts<V>(l: Limits, s: Core<V>, k: Key, e: LoadError, now: int)
    requires NegativeInv(l, s) && IsImmutable(e)
    ensures
      var r := StoreNegative(l, s, k, e, now);
      && NegativeInv(l, r) && r == s.(negative := r.negative, negativeOrder := r.negativeOrder)
      && r.negative.Keys <= s.negative.Keys + {k}
      && (l.negativeMax > 0 ==>
            && k in r.negative && r.negative[k] == Negative(e, now + l.negativeTTL)
            && r.negativeOrder != [] && r.negativeOrder[|r.negativeOrder| - 1] == k)
  {
    if l.negativeMax > 0 {
      if k in s.negative {
        RenewNegative(l, s, k, e, now);
      } else {
        EvictOldestForgets(s, l.negativeMax);
        RoomMade(s, l.negativeMax);
        AddNegative(l, s, EvictOldest(s, l.negativeMax), k, Negative(e, now + l.negativeTTL));
      }
    }
  }

  // ---- Critical sections ----

  function ExpireOnGet<V>(l: Limits, s: Core<V>, key: Key, now: int): Core<V>
    requires Linked(s.segments)
  {
    var s1 := if Expired(l, s, key, now) then s.(segments := Remove(s.segments, key)) else s;
    if key in s1.negative && now >= s1.negative[key].expires then RemoveNegative(s1, key) else s1
  }

  predicate Expired<V>(l: Limits, s: Core<V>, key: Key, now: int) {
    key in s.segments.entries && l.idle > 0 && now - s.segments.entries[key].lastAccess > l.idle
  }

  function GetReply<V>(l: Limits, s: Core<V>, key: Key, now: int, newFlight: nat): Reply<V> {
    if s.closed then Refused
    else if key in s.segments.entries && !Expired(l, s, key, now) then Served(s.segments.entries[key].value)
    else if key in s.negative && now < s.negative[key].expires then Remembered(s.negative[key].error)
    else if key in s.flights then Joined(s.flights[key])
    else Joined(newFlight)
  }

  /** `Get`: a hit touches, a lapsed entry or failure is dropped, and a miss joins or starts the key's flight. */
  function GetStep<V>(l: Limits, s: Core<V>, key: Key, now: int, newFlight: nat): Core<V>
    requires Linked(s.segments)
  {
    match GetReply(l, s, key, now, newFlight)
    case Refused => s
    case Served(_) => s.(segments := Touch(l.c, s.segments, key, now))
    case Remembered(_) => if Expired(l, s, key, now) then s.(segments := Remove(s.segments, key)) else s
    case Joined(f) =>
      ExpireOnGet(l, s, key, now).(flights := if key in s.flights then s.flights else s.flights[key := f])
  }

  /** `finishLoad`: the flight leaves the table and its outcome is kept, remembered or dropped. */
  function FinishStep<V>(l: Limits, s: Core<V>, key: Key, f: nat, outcome: Outcome<V>, weight: int, now: int): Core<V>
    requires Linked(s.segments) && NegativeLinked(s)
  {
    var s1 := if key in s.flights && s.flights[key] == f then s.(flights := s.flights - {key}) else s;
    match outcome
    case Failure(e) => if !s.closed && IsImmutable(e) then StoreNegative(l, s1, key, e, now) else s1
    case Value(v) =>
      if s.closed || weight > l.c.OversizeBytes() then s1
      else
        var s2 := RemoveNegative(s1, key);
        s2.(segments := Insert(l.c, s2.segments, key, v, weight, now))
  }

  function TrimStep<V>(s: Core<V>, target: int): Core<V>
    requires Linked(s.segments)
  {
    s.(segments := EvictUntil(Target(if target < 0 then 0 else target), s.segments))
  }

  function CloseStep<V>(s: Core<V>): Core<V> {
    if s.closed then s else s.(closed := true, segments := NoSegments(), negative := map[], negativeOrder := [])
  }

  function Filter(q: seq<Key>, keep: set<Key>): seq<Key> {
    if q == [] then [] else if q[0] in keep then [q[0]] + Filter(q[1..], keep) else Filter(q[1..], keep)
  }

  /** `s` with only the entries in `keep`, each still in its place. */
  function Retain<V>(s: Segments<V>, keep: set<Key>): Segments<V> {
    var entries := map k | k in s.entries && k in keep :: s.entries[k];
    var probation, protected := Filter(s.probation, keep), Filter(s.protected, keep);
    Segments(entries, probation, protected, Sum(entries, protected + probation), Sum(entries, protected))
  }

  function Unexpired<V>(l: Limits, s: Core<V>, now: int): set<Key> {
    set k | k in s.segments.entries && now - s.segments.entries[k].lastAccess <= l.idle
  }

  function Unhealed<V>(s: Core<V>, now: int): set<Key> {
    set k | k in s.negative && now < s.negative[k].expires
  }

  /** `sweepIdle`: every lapsed entry and failure goes, everything else keeps its place. */
  function SweepStep<V>(l: Limits, s: Core<V>, now: int): Core<V> {
    if s.closed || l.idle <= 0 then s
    else s.(segments := Retain(s.segments, Unexpired(l, s, now)),
            negative := map k | k in s.negative && now < s.negative[k].expires :: s.negative[k],
            negativeOrder := Filter(s.negativeOrder, Unhealed(s, now)))
  }

  // ---- Sweeping in any order ----

  lemma {:induction false} FilterFacts(q: seq<Key>, keep: set<Key>)
    requires Distinct(q)
    ensures Distinct(Filter(q, keep)) && |Filter(q, keep)| <= |q|
    ensures forall k :: k in Filter(q, keep) <==> k in q && k in keep
  {
    if q != [] {
      FilterFacts(q[1..], keep);
      assert q == [q[0]] + q[1..];
      assert q[0] in keep ==> Filter(q, keep)[1..] == Filter(q[1..], keep);
    }
  }

  lemma {:induction false} FilterAll(q: seq<Key>, keep: set<Key>)
    requires forall k :: k in q ==> k in keep
    ensures Filter(q, keep) == q
  {
    if q != [] {
      FilterAll(q[1..], keep);
    }
  }

  lemma {:induction false} FilterWithout(q: seq<Key>, keep: set<Key>, k: Key)
    requires Distinct(q)
    ensures Without(Filter(q, keep), k) == if k in keep then Filter(q, keep - {k}) else Filter(q, keep)
  {
    if q != [] {
      FilterWithout(q[1..], keep, k);
      FilterFacts(q[1..], keep);
      if q[0] == k {
        if k in keep {
          assert Filter(q, keep)[1..] == Filter(q[1..], keep);
          FilterSkips(q[1..], keep, k);
        }
      } else if q[0] in keep {
        assert Filter(q, keep)[1..] == Filter(q[1..], keep);
      }
      if k !in keep { FilterFacts(q, keep); WithoutAbsent(Filter(q, keep), k); }
    }
  }

  lemma {:induction false} FilterSkips(q: seq<Key>, keep: set<Key>, k: Key)
    requires k !in q
    ensures Filter(q, keep - {k}) == Filter(q, keep)
  {
    if q != [] {
      FilterSkips(q[1..], keep, k);
    }
  }

  lemma {:induction false} SumFilter<V>(c: Config, s: Segments<V>, q: seq<Key>, keep: set<Key>)
    requires Weighted(c, s)
    ensures 0 <= Sum(s.entries, Filter(q, keep)) <= Sum(s.entries, q)
  {
    if q != [] {
      SumFilter(c, s, q[1..], keep);
      assert q[0] in keep ==> Filter(q, keep)[1..] == Filter(q[1..], keep);
    }
  }

  lemma RetainLinked<V>(s: Segments<V>, keep: set<Key>)
    requires Linked(s)
    ensures Linked(Retain(s, keep)) && Accounted(Retain(s, keep))
  {
    FilterFacts(s.probation, keep);
    FilterFacts(s.protected, keep);
  }

  lemma RetainKeepsInv<V>(c: Config, s: Segments<V>, keep: set<Key>)
    requires Slru.Inv(c, s)
    ensures Slru.Inv(c, Retain(s, keep))
  {
    var r := Retain(s, keep);
    RetainLinked(s, keep);
    FilterFacts(s.protected, keep);
    FilterFacts(s.probation, keep);
    SumFilter(c, s, s.protected, keep);
    SumFilter(c, s, s.probation, keep);
    SumAgrees(s.entries, r.entries, r.protected);
    SumAgrees(s.entries, r.entries, r.probation);
    SumAppend(r.entries, r.protected, r.probation);
    SumAppend(s.entries, s.protected, s.probation);
    LinkedCount(s);
    LinkedCount(r);
  }

  lemma RetainAll<V>(s: Segments<V>)
    requires Linked(s) && Accounted(s)
    ensures Retain(s, s.entries.Keys) == s
  {
    FilterAll(s.probation, s.entries.Keys);
    FilterAll(s.protected, s.entries.Keys);
    assert Retain(s, s.entries.Keys).entries == s.entries;
  }

  lemma RetainLists<V>(s: Segments<V>, keep: set<Key>, k: Key)
    requires Linked(s) && k in s.entries && k in keep
    ensures k in Retain(s, keep).entries
    ensures
      var r, b := Remove(Retain(s, keep), k), Retain(s, keep - {k});
      r.entries == b.entries && r.probation == b.probation && r.protected == b.protected
  {
    var a := Retain(s, keep);
    RetainLinked(s, keep);
    FilterWithout(s.probation, keep, k);
    FilterWithout(s.protected, keep, k);
    RemoveFromBoth(a, k);
    assert a.entries - {k} == Retain(s, keep - {k}).entries;
  }

  lemma RetainRemove<V>(s: Segments<V>, keep: set<Key>, k: Key)
    requires Linked(s) && k in s.entries && k in keep
    ensures k in Retain(s, keep).entries && Remove(Retain(s, keep), k) == Retain(s, keep - {k})
  {
    var a := Retain(s, keep);
    RetainLinked(s, keep);
    RetainLists(s, keep, k);
    var r := Remove(a, k);
    SumsAfterRemove(a, k);
    SumAppend(a.entries, a.protected, a.probation);
    SumAppend(r.entries, r.protected, r.probation);
  }
}
