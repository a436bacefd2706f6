/** The residency cache as the object it is: one method per critical section, in-place lists and maps. */
module ResidencyCache {
  import opened Wrappers
  import opened Lists
  import opened Slru
  import opened Residency
  import opened ResidencyProtocol

  const DEFAULT_MAX_ENTRIES := 64
  const DEFAULT_MAX_RESIDENT_BYTES := 33554432
  const DEFAULT_IDLE_EXPIRY := 600000000000
  const DEFAULT_NEGATIVE_MAX_ENTRIES := 256
  const DEFAULT_NEGATIVE_TTL := 300000000000

  /** Caller options: zero asks for the default, a negative count or duration disables the mechanism. */
  datatype Options = Options(
    maxEntries: int, maxResidentBytes: int, idleExpiry: int, negativeMaxEntries: int, negativeTTL: int)

  function LimitsFor(o: Options): (l: Limits)
    ensures l.c.Valid()
    ensures l.idle > 0 <==> o.idleExpiry >= 0
    ensures l.negativeMax > 0 <==> o.negativeMaxEntries >= 0 && o.negativeTTL >= 0
  {
    var maxEntries := if o.maxEntries <= 0 then DEFAULT_MAX_ENTRIES else o.maxEntries;
    var maxBytes := if o.maxResidentBytes <= 0 then DEFAULT_MAX_RESIDENT_BYTES else o.maxResidentBytes;
    var idle := if o.idleExpiry == 0 then DEFAULT_IDLE_EXPIRY else if o.idleExpiry < 0 then 0 else o.idleExpiry;
    var negativeMax := if o.negativeMaxEntries == 0 then DEFAULT_NEGATIVE_MAX_ENTRIES
                       else if o.negativeMaxEntries < 0 then 0 else o.negativeMaxEntries;
    var negativeTTL := if o.negativeTTL == 0 then DEFAULT_NEGATIVE_TTL else o.negativeTTL;
    if negativeTTL < 0 then Limits(Config(maxEntries, maxBytes), idle, 0, 0)
    else Limits(Config(maxEntries, maxBytes), idle, negativeMax, negativeTTL)
  }

  class Cache<V> {
    const l: Limits
    var entries: map<Key, Entry<V>>
    var probation: seq<Key>
    var protected: seq<Key>
    var bytes: int
    var protectedBytes: int
    var negative: map<Key, Negative>
    var negativeOrder: seq<Key>
    var flights: map<Key, nat>
    var closed: bool
    var nextFlight: nat

    function Segs(): Segments<V>
      reads this
    {
      Segments(entries, probation, protected, bytes, protectedBytes)
    }

    function View(): Core<V>
      reads this
    {
      Core(Segs(), negative, negativeOrder, flights, closed)
    }

    ghost predicate Valid()
      reads this
    {
      CoreInv(l, View())
    }

    constructor (options: Options)
      ensures l == LimitsFor(options) && View() == Empty() && nextFlight == 0 && Valid()
    {
      l := LimitsFor(options);
      entries, probation, protected, bytes, protectedBytes := map[], [], [], 0, 0;
      negative, negativeOrder, flights, closed, nextFlight := map[], [], map[], false, 0;
    }

    method RemoveEntry(key: Key)
      requires key in entries
      modifies this`entries, this`probation, this`protected, this`bytes, this`protectedBytes
      ensures Segs() == Remove(old(Segs()), key)
    {
      var e := entries[key];
      if e.isProtected {
        protected := Without(protected, key);
        protectedBytes := protectedBytes - e.weight;
      } else {
        probation := Without(probation, key);
      }
      entries := entries - {key};
      bytes := bytes - e.weight;
    }

    method EvictOne() returns (evicted: bool)
      requires Linked(Segs())
      modifies this`entries, this`probation, this`protected, this`bytes, this`protectedBytes
      ensures evicted <==> Victim(old(Segs())).Some?
      ensures evicted ==> Victim(old(Segs())).value in old(entries)
      ensures Segs() == if evicted then Remove(old(Segs()), Victim(old(Segs())).value) else old(Segs())
    {
      VictimResident(Segs());
      var victim := None;
      if probation != [] {
        victim := Some(probation[|probation| - 1]);
      } else if protected != [] {
        victim := Some(protected[|protected| - 1]);
      }
      if victim.None? {
        return false;
      }
      RemoveEntry(victim.value);
      return true;
    }

    method EnforceBudgets()
      requires Linked(Segs())
      modifies this`entries, this`probation, this`protected, this`bytes, this`protectedBytes
      ensures Segs() == EvictUntil(Budgets(l.c.maxEntries, l.c.maxBytes), old(Segs()))
    {
      ghost var goal := Budgets(l.c.maxEntries, l.c.maxBytes);
      while |entries| > l.c.maxEntries || bytes > l.c.maxBytes
        invariant Linked(Segs())
        invariant EvictUntil(goal, Segs()) == EvictUntil(goal, old(Segs()))
        decreases |entries|
      {
        ghost var before := Segs();
        var evicted := EvictOne();
        if !evicted {
          return;
        }
        RemoveKeepsLinked(before, Victim(before).value);
      }
    }

    method InsertEntry(key: Key, value: V, weight: int, now: int)
      requires Linked(Segs())
      modifies this`entries, this`probation, this`protected, this`bytes, this`protectedBytes
      ensures Segs() == Insert(l.c, old(Segs()), key, value, weight, now)
    {
      if key in entries {
        RemoveKeepsLinked(Segs(), key);
        RemoveEntry(key);
      }
      PutEntry(key, value, weight, now);
      EnforceBudgets();
    }

    method PutEntry(key: Key, value: V, weight: int, now: int)
      requires Linked(Segs()) && key !in entries
      modifies this`entries, this`probation, this`bytes
      ensures Linked(Segs()) && Segs() == Put(old(Segs()), key, value, weight, now)
    {
      PutKeepsLinked(Segs(), key, value, weight, now);
      entries := entries[key := Entry(value, weight, now, false)];
      probation := [key] + probation;
      bytes := bytes + weight;
    }

    method TouchEntry(key: Key, now: int)
      requires Linked(Segs()) && key in entries
      modifies this`entries, this`probation, this`protected, this`protectedBytes
      ensures Segs() == Touch(l.c, old(Segs()), key, now)
    {
      var e := entries[key].(lastAccess := now);
      if e.isProtected {
        entries := entries[key := e];
        protected := [key] + Without(protected, key);
      } else {
        PromoteEntry(key, e);
        DemoteSurplus();
      }
    }

    method PromoteEntry(key: Key, e: Entry<V>)
      requires Linked(Segs()) && key in entries && !entries[key].isProtected
      modifies this`entries, this`probation, this`protected, this`protectedBytes
      ensures Linked(Segs()) && Segs() == Promote(old(Segs()), key, e)
    {
      PromoteKeepsLinked(Segs(), key, e);
      probation := Without(probation, key);
      entries := entries[key := e.(isProtected := true)];
      protected := [key] + protected;
      protectedBytes := protectedBytes + e.weight;
    }

    method DemoteSurplus()
      requires Linked(Segs())
      modifies this`entries, this`probation, this`protected, this`protectedBytes
      ensures Segs() == Demote(l.c, old(Segs()))
    {
      while (|protected| > l.c.ProtectedMaxEntries() || protectedBytes > l.c.ProtectedMaxBytes()) && |protected| > 1
        invariant Linked(Segs()) && Demote(l.c, Segs()) == Demote(l.c, old(Segs()))
        decreases |protected|
      {
        DemoteLast();
      }
    }

    method DemoteLast()
      requires Linked(Segs()) && protected != []
      modifies this`entries, this`probation, this`protected, this`protectedBytes
      ensures old(protected)[|old(protected)| - 1] in old(entries)
      ensures Linked(Segs()) && Segs() == DemoteOne(old(Segs()))
    {
      DemoteOneKeepsLinked(Segs());
      var back := protected[|protected| - 1];
      protected := protected[..|protected| - 1];
      protectedBytes := protectedBytes - entries[back].weight;
      entries := entries[back := entries[back].(isProtected := false)];
      probation := [back] + probation;
    }

    method RemoveFailure(key: Key)
      modifies this`negative, this`negativeOrder
      ensures View() == RemoveNegative(old(View()), key)
    {
      if key in negative {
        negativeOrder := Without(negativeOrder, key);
        negative := negative - {key};
      }
    }

    method StoreFailure(key: Key, error: LoadError, now: int)
      requires NegativeLinked(View())
      modifies this`negative, this`negativeOrder
      ensures View() == StoreNegative(l, old(View()), key, error, now)
    {
      if l.negativeMax <= 0 {
        return;
      }
      var entry := Negative(error, now + l.negativeTTL);
      if key in negative {
        negative := negative[key := entry];
        negativeOrder := Without(negativeOrder, key) + [key];
        return;
      }
      while |negative| >= l.negativeMax && negativeOrder != []
        invariant NegativeLinked(View())
        invariant EvictOldest(View(), l.negativeMax) == EvictOldest(old(View()), l.negativeMax)
        decreases |negativeOrder|
      {
        RemoveNegativeLinked(View(), negativeOrder[0]);
        RemoveFailure(negativeOrder[0]);
      }
      negativeOrder := negativeOrder + [key];
      negative := negative[key := entry];
    }

    /** The critical section of `Get`; a caller that joined a flight then waits for it outside the mutex. */
    method Get(key: Key, now: int) returns (reply: Reply<V>)
      requires Valid()
      modifies this
      ensures Valid()
      ensures reply == GetReply(l, old(View()), key, now, old(nextFlight))
      ensures View() == GetStep(l, old(View()), key, now, old(nextFlight))
      ensures nextFlight ==
              if reply.Joined? && key !in old(flights) then old(nextFlight) + 1 else old(nextFlight)
    {
      GetKeepsCore(l, View(), key, now, nextFlight);
      reply := GetLocked(key, now);
    }

    method GetLocked(key: Key, now: int) returns (reply: Reply<V>)
      requires Linked(Segs())
      modifies this
      ensures reply == GetReply(l, old(View()), key, now, old(nextFlight))
      ensures View() == GetStep(l, old(View()), key, now, old(nextFlight))
      ensures nextFlight ==
              if reply.Joined? && key !in old(flights) then old(nextFlight) + 1 else old(nextFlight)
    {
      if closed {
        return Refused;
      }
      if key in entries {
        if l.idle > 0 && now - entries[key].lastAccess > l.idle {
          RemoveEntry(key);
        } else {
          var value := entries[key].value;
          TouchEntry(key, now);
          return Served(value);
        }
      }
      var failure := LookupFailure(key, now);
      if failure.Some? {
        return Remembered(failure.value);
      }
      reply := JoinFlight(key);
    }

    method LookupFailure(key: Key, now: int) returns (failure: Option<LoadError>)
      modifies this`negative, this`negativeOrder
      ensures failure.Some? <==> key in old(negative) && now < old(negative)[key].expires
      ensures failure.Some? ==> View() == old(View()) && failure.value == negative[key].error
      ensures failure.None? ==> View() == RemoveNegative(old(View()), key)
    {
      if key !in negative {
        return None;
      }
      if now >= negative[key].expires {
        RemoveFailure(key);
        return None;
      }
      return Some(negative[key].error);
    }

    method JoinFlight(key: Key) returns (reply: Reply<V>)
      modifies this`flights, this`nextFlight
      ensures key in flights && reply == Joined(flights[key])
      ensures key in old(flights) ==> flights == old(flights) && nextFlight == old(nextFlight)
      ensures key !in old(flights) ==>
                flights == old(flights)[key := old(nextFlight)] && nextFlight == old(nextFlight) + 1
    {
      if key !in flights {
        flights := flights[key := nextFlight];
        nextFlight := nextFlight + 1;
      }
      reply := Joined(flights[key]);
    }

    /** `finishLoad` for a flight that is in the table; the outcome is then handed to its waiters. */
    method FinishLoad(key: Key, f: nat, outcome: Outcome<V>, weight: int, now: int)
      requires Valid() && key in flights && flights[key] == f && weight >= 0
      modifies this
      ensures Valid() && nextFlight == old(nextFlight)
      ensures View() == FinishStep(l, old(View()), key, f, outcome, weight, now)
    {
      FinishKeepsCore(l, View(), key, f, outcome, weight, now);
      FinishLocked(key, f, outcome, weight, now);
    }

    method FinishLocked(key: Key, f: nat, outcome: Outcome<V>, weight: int, now: int)
      requires Linked(Segs()) && NegativeLinked(View())
      modifies this`entries, this`probation, this`protected, this`bytes, this`protectedBytes,
               this`negative, this`negativeOrder, this`flights
      ensures View() == FinishStep(l, old(View()), key, f, outcome, weight, now)
    {
      if key in flights && flights[key] == f {
        flights := flights - {key};
      }
      match outcome
      case Failure(e) =>
        if !closed && IsImmutable(e) {
          StoreFailure(key, e, now);
        }
      case Value(v) =>
        if !closed && weight <= l.c.OversizeBytes() {
          RemoveFailure(key);
          InsertEntry(key, v, weight, now);
        }
    }

    method Trim(targetBytes: int)
      requires Valid()
      modifies this`entries, this`probation, this`protected, this`bytes, this`protectedBytes
      ensures Valid() && View() == TrimStep(old(View()), targetBytes)
    {
      TrimKeepsCore(l, View(), targetBytes);
      EvictToTarget(if targetBytes < 0 then 0 else targetBytes);
    }

    method EvictToTarget(target: int)
      requires Linked(Segs())
      modifies this`entries, this`probation, this`protected, this`bytes, this`protectedBytes
      ensures Segs() == EvictUntil(Target(target), old(Segs()))
    {
      while bytes > target || (target == 0 && |entries| > 0)
        invariant Linked(Segs())
        invariant EvictUntil(Target(target), Segs()) == EvictUntil(Target(target), old(Segs()))
        decreases |entries|
      {
        ghost var before := Segs();
        var evicted := EvictOne();
        if !evicted {
          return;
        }
        RemoveKeepsLinked(before, Victim(before).value);
      }
    }

    method Close()
      requires Valid()
      modifies this
      ensures Valid() && View() == CloseStep(old(View())) && nextFlight == old(nextFlight)
    {
      CloseKeepsCore(l, View());
      if closed {
        return;
      }
      closed := true;
      entries, probation, protected, bytes, protectedBytes := map[], [], [], 0, 0;
      negative, negativeOrder := map[], [];
    }

    /** Entries and failures are visited in any order, as ranging over a map does. */
    method SweepIdle(now: int)
      requires Valid()
      modifies this
      ensures Valid() && View() == SweepStep(l, old(View()), now) && nextFlight == old(nextFlight)
    {
      SweepKeepsCore(l, View(), now);
      if closed || l.idle <= 0 {
        return;
      }
      SweepLocked(now);
    }

    method SweepLocked(now: int)
      requires Linked(Segs()) && Accounted(Segs()) && NegativeLinked(View()) && !closed && l.idle > 0
      modifies this`entries, this`probation, this`protected, this`bytes, this`protectedBytes
      modifies this`negative, this`negativeOrder
      ensures View() == SweepStep(l, old(View()), now)
    {
      FilterAll(negativeOrder, negative.Keys);
      SweepEntries(now);
      SweepFailures(now);
    }

    method SweepEntries(now: int)
      requires Linked(Segs()) && Accounted(Segs())
      modifies this`entries, this`probation, this`protected, this`bytes, this`protectedBytes
      ensures Segs() == Retain(old(Segs()), set k | k in old(entries) && now - old(entries)[k].lastAccess <= l.idle)
    {
      ghost var s := Segs();
      var rest := entries.Keys;
      ghost var keep := entries.Keys;
      RetainAll(s);
      while rest != {}
        invariant rest <= keep <= s.entries.Keys
        invariant Segs() == Retain(s, keep)
        invariant forall k :: k in s.entries && k !in rest ==> (k in keep <==> now - s.entries[k].lastAccess <= l.idle)
        decreases rest
      {
        var key :| key in rest;
        rest := rest - {key};
        if now - entries[key].lastAccess > l.idle {
          RetainRemove(s, keep, key);
          RemoveEntry(key);
          keep := keep - {key};
        }
      }
      assert keep == set k | k in s.entries && now - s.entries[k].lastAccess <= l.idle;
    }

    method SweepFailures(now: int)
      requires Distinct(negativeOrder) && Filter(negativeOrder, negative.Keys) == negativeOrder
      modifies this`negative, this`negativeOrder
      ensures negative == map k | k in old(negative) && now < old(negative)[k].expires :: old(negative)[k]
      ensures negativeOrder == Filter(old(negativeOrder), set k | k in old(negative) && now < old(negative)[k].expires)
    {
      var rest := negative.Keys;
      ghost var keep := negative.Keys;
      while rest != {}
        invariant rest <= keep <= old(negative).Keys
        invariant negative == map k | k in old(negative) && k in keep :: old(negative)[k]
        invariant negativeOrder == Filter(old(negativeOrder), keep)
        invariant forall k :: k in old(negative) && k !in rest ==> (k in keep <==> now < old(negative)[k].expires)
        decreases rest
      {
        var key :| key in rest;
        rest := rest - {key};
        if now >= negative[key].expires {
          FilterWithout(old(negativeOrder), keep, key);
          RemoveFailure(key);
          assert negative == map k | k in old(negative) && k in keep - {key} :: old(negative)[k];
          keep := keep - {key};
        }
      }
      assert keep == set k | k in old(negative) && now < old(negative)[k].expires;
    }
  }
}
