/** Loads, waiters and maintenance of the residency cache as interleaved critical sections. */
module ResidencyProtocol {
  import opened Slru
  import opened Residency

  /** `running` are the loader goroutines by flight; `started` the key of every flight there ever was,
      `results` the outcomes of the finished ones, `calls` what each call of `Get` left its critical section with. */
  datatype System<V> = System(
    core: Core<V>,
    running: map<nat, Key>,
    next: nat,
    started: map<nat, Key>,
    results: map<nat, Outcome<V>>,
    calls: map<nat, Call<V>>)

  datatype Call<V> = Call(key: Key, reply: Reply<V>)

  datatype Event<V> =
    | Get(caller: nat, key: Key, now: int)
    | Finish(flight: nat, outcome: Outcome<V>, reported: int, estimated: int, now: int)
    | Trim(target: int)
    | Close
    | Sweep(now: int)

  function Start<V>(): System<V> {
    System(Empty(), map[], 0, map[], map[], map[])
  }

  /** The weight an entry is charged: what the load reports, else the estimate, never negative. */
  function ChargedWeight(reported: int, estimated: int): int {
    var w := if reported <= 0 then estimated else reported;
    if w < 0 then 0 else w
  }

  function GetEvent<V>(l: Limits, s: System<V>, caller: nat, key: Key, now: int): System<V>
    requires Linked(s.core.segments)
  {
    if caller in s.calls then s else
    var reply := GetReply(l, s.core, key, now, s.next);
    var s' := s.(core := GetStep(l, s.core, key, now, s.next), calls := s.calls[caller := Call(key, reply)]);
    if reply.Joined? && reply.flight == s.next then
      s'.(running := s.running[s.next := key], started := s.started[s.next := key], next := s.next + 1)
    else s'
  }

  function FinishEvent<V>(l: Limits, s: System<V>, f: nat, outcome: Outcome<V>, weight: int, now: int): System<V>
    requires Linked(s.core.segments) && NegativeLinked(s.core)
  {
    if f !in s.running then s else
    s.(core := FinishStep(l, s.core, s.running[f], f, outcome, weight, now),
       running := s.running - {f},
       results := s.results[f := outcome])
  }

  function Next<V>(l: Limits, s: System<V>, e: Event<V>): System<V>
    requires Linked(s.core.segments) && NegativeLinked(s.core)
  {
    match e
    case Get(caller, key, now) => GetEvent(l, s, caller, key, now)
    case Finish(f, outcome, reported, estimated, now) =>
      FinishEvent(l, s, f, outcome, ChargedWeight(reported, estimated), now)
    case Trim(target) => s.(core := TrimStep(s.core, target))
    case Close => s.(core := CloseStep(s.core))
    case Sweep(now) => s.(core := SweepStep(l, s.core, now))
  }

  // ---- What every critical section keeps ----

  ghost predicate CoreInv<V>(l: Limits, s: Core<V>) {
    && Slru.Inv(l.c, s.segments) && NegativeInv(l, s)
    && s.segments.entries.Keys !! s.negative.Keys
    && s.segments.entries.Keys !! s.flights.Keys
    && s.negative.Keys !! s.flights.Keys
    && (s.closed ==> s.segments == NoSegments() && s.negative == map[])
  }

  /** The flight table and the running loaders name each other. */
  ghost predicate FlightsRun<V>(s: System<V>) {
    && (forall k :: k in s.core.flights ==> s.core.flights[k] in s.running && s.running[s.core.flights[k]] == k)
    && (forall f :: f in s.running ==> s.running[f] in s.core.flights && s.core.flights[s.running[f]] == f)
    && (forall f :: f in s.running ==> f in s.started && s.started[f] == s.running[f])
    && (forall f :: f in s.started ==> f < s.next)
  }

  ghost predicate WaitersServed<V>(s: System<V>) {
    && (forall f :: f in s.results ==> f in s.started && f !in s.running)
    && (forall w :: w in s.calls && s.calls[w].reply.Joined? ==>
          var f := s.calls[w].reply.flight;
          && (f in s.running || f in s.results)
          && f in s.started && s.started[f] == s.calls[w].key)
  }

  ghost predicate Inv<V>(l: Limits, s: System<V>) {
    CoreInv(l, s.core) && FlightsRun(s) && WaitersServed(s)
  }

  lemma TouchKeepsCore<V>(l: Limits, s: Core<V>, key: Key, now: int)
    requires CoreInv(l, s) && key in s.segments.entries
    ensures CoreInv(l, s.(segments := Touch(l.c, s.segments, key, now)))
  {
    TouchFacts(l.c, s.segments, key, now);
    FewerKeepCore(l, s, Touch(l.c, s.segments, key, now));
  }

  lemma RemoveKeepsCore<V>(l: Limits, s: Core<V>, key: Key)
    requires CoreInv(l, s) && key in s.segments.entries
    ensures CoreInv(l, s.(segments := Remove(s.segments, key)))
    ensures key !in Remove(s.segments, key).entries
  {
    RemoveKeepsSlru(l.c, s.segments, key);
    FewerKeepCore(l, s, Remove(s.segments, key));
  }

  lemma RemoveKeepsSlru<V>(c: Config, segments: Segments<V>, key: Key)
    requires Slru.Inv(c, segments) && key in segments.entries
    ensures Slru.Inv(c, Remove(segments, key))
  {
    RemoveKeepsSound(c, segments, key);
    assert 0 <= segments.entries[key].weight;
  }

  lemma RemoveNegativeKeepsCore<V>(l: Limits, s: Core<V>, key: Key)
    requires CoreInv(l, s)
    ensures CoreInv(l, RemoveNegative(s, key)) && key !in RemoveNegative(s, key).negative
  {
    RemoveNegativeLinked(s, key);
  }

  lemma ExpireOnGetKeepsCore<V>(l: Limits, s: Core<V>, key: Key, now: int)
    requires CoreInv(l, s)
    ensures CoreInv(l, ExpireOnGet(l, s, key, now))
    ensures
      var r := ExpireOnGet(l, s, key, now);
      && r.flights == s.flights && r.closed == s.closed
      && (Expired(l, s, key, now) ==> key !in r.segments.entries)
      && (!Expired(l, s, key, now) ==> r.segments == s.segments)
      && (key in r.negative ==> key in s.negative && now < s.negative[key].expires)
  {
    if Expired(l, s, key, now) { RemoveKeepsCore(l, s, key); }
    var s1 := if Expired(l, s, key, now) then s.(segments := Remove(s.segments, key)) else s;
    RemoveNegativeKeepsCore(l, s1, key);
  }

  lemma JoinKeepsCore<V>(l: Limits, s: Core<V>, key: Key, now: int, f: nat)
    requires CoreInv(l, s) && !s.closed
    requires key in s.segments.entries ==> Expired(l, s, key, now)
    requires key in s.negative ==> s.negative[key].expires <= now
    ensures
      var r := ExpireOnGet(l, s, key, now);
      CoreInv(l, r.(flights := if key in s.flights then s.flights else s.flights[key := f]))
  {
    ExpireOnGetKeepsCore(l, s, key, now);
    var r := ExpireOnGet(l, s, key, now);
    assert key !in r.segments.entries && key !in r.negative;
    StartKeepsCore(l, r, key, if key in s.flights then s.flights else s.flights[key := f]);
  }

  lemma StartKeepsCore<V>(l: Limits, s: Core<V>, key: Key, flights: map<Key, nat>)
    requires CoreInv(l, s) && key !in s.segments.entries && key !in s.negative
    requires flights.Keys <= s.flights.Keys + {key}
    ensures CoreInv(l, s.(flights := flights))
  {
  }

  lemma GetKeepsCore<V>(l: Limits, s: Core<V>, key: Key, now: int, newFlight: nat)
    requires CoreInv(l, s)
    ensures CoreInv(l, GetStep(l, s, key, now, newFlight))
  {
    match GetReply(l, s, key, now, newFlight)
    case Refused =>
    case Served(_) => TouchKeepsCore(l, s, key, now);
    case Remembered(_) => if Expired(l, s, key, now) { RemoveKeepsCore(l, s, key); }
    case Joined(f) => JoinKeepsCore(l, s, key, now, f);
  }

  /** The flight table changes only when a miss starts a flight. */
  lemma GetFlights<V>(l: Limits, s: Core<V>, key: Key, now: int, newFlight: nat)
    requires Linked(s.segments)
    ensures
      var reply := GetReply(l, s, key, now, newFlight);
      GetStep(l, s, key, now, newFlight).flights ==
      if reply.Joined? && key !in s.flights then s.flights[key := newFlight] else s.flights
  {
  }

  lemma FinishFlights<V>(l: Limits, s: Core<V>, key: Key, f: nat, outcome: Outcome<V>, weight: int, now: int)
    requires CoreInv(l, s) && key in s.flights && s.flights[key] == f
    ensures FinishStep(l, s, key, f, outcome, weight, now).flights == s.flights - {key}
  {
    if outcome.Failure? && IsImmutable(outcome.error) {
      StoreNegativeFacts(l, s.(flights := s.flights - {key}), key, outcome.error, now);
    }
  }

  lemma InsertKeepsCore<V>(l: Limits, s: Core<V>, key: Key, value: V, weight: int, now: int)
    requires CoreInv(l, s) && key !in s.segments.entries && key !in s.negative && key !in s.flights && !s.closed
    requires 0 <= weight <= l.c.OversizeBytes()
    ensures CoreInv(l, s.(segments := Insert(l.c, s.segments, key, value, weight, now)))
  {
    InsertKeepsSlru(l.c, s.segments, key, value, weight, now);
    OneMoreKeepsCore(l, s, Insert(l.c, s.segments, key, value, weight, now), key);
  }

  lemma InsertKeepsSlru<V>(c: Config, segments: Segments<V>, key: Key, value: V, weight: int, now: int)
    requires Slru.Inv(c, segments) && key !in segments.entries && 0 <= weight <= c.OversizeBytes()
    ensures
      var r := Insert(c, segments, key, value, weight, now);
      Slru.Inv(c, r) && r.entries.Keys <= segments.entries.Keys + {key}
  {
    var n := InsertFresh(c, segments, key, value, weight, now);
    var r := Insert(c, segments, key, value, weight, now);
    forall k | k in r.entries ensures k in segments.entries.Keys + {key} {}
  }

  lemma OneMoreKeepsCore<V>(l: Limits, s: Core<V>, segments: Segments<V>, key: Key)
    requires CoreInv(l, s) && !s.closed && key !in s.negative && key !in s.flights
    requires Slru.Inv(l.c, segments) && segments.entries.Keys <= s.segments.entries.Keys + {key}
    ensures CoreInv(l, s.(segments := segments))
  {
  }

  lemma FinishKeepsCore<V>(l: Limits, s: Core<V>, key: Key, f: nat, outcome: Outcome<V>, weight: int, now: int)
    requires CoreInv(l, s) && key in s.flights && s.flights[key] == f && weight >= 0
    ensures CoreInv(l, FinishStep(l, s, key, f, outcome, weight, now))
  {
    var s1 := s.(flights := s.flights - {key});
    assert CoreInv(l, s1);
    match outcome
    case Failure(e) =>
      if !s.closed && IsImmutable(e) {
        StoreNegativeFacts(l, s1, key, e, now);
      }
    case Value(v) =>
      if !s.closed && weight <= l.c.OversizeBytes() {
        RemoveNegativeKeepsCore(l, s1, key);
        InsertKeepsCore(l, RemoveNegative(s1, key), key, v, weight, now);
      }
  }

  lemma TrimKeepsCore<V>(l: Limits, s: Core<V>, target: int)
    requires CoreInv(l, s)
    ensures CoreInv(l, TrimStep(s, target))
  {
    var n := TrimIsShortest(l.c, s.segments, if target < 0 then 0 else target);
    var r := EvictUntil(Target(if target < 0 then 0 else target), s.segments);
    assert r.entries.Keys <= s.segments.entries.Keys;
    FewerKeepCore(l, s, r);
  }

  lemma FewerKeepCore<V>(l: Limits, s: Core<V>, segments: Segments<V>)
    requires CoreInv(l, s) && Slru.Inv(l.c, segments) && segments.entries.Keys <= s.segments.entries.Keys
    ensures CoreInv(l, s.(segments := segments))
  {
    if s.closed { EmptySegments(l.c, segments); }
  }

  lemma Inhabited(q: seq<Key>)
    ensures q == [] || exists k :: k in q
  {
    if q != [] { assert q[0] in q; }
  }

  lemma EmptySegments<V>(c: Config, segments: Segments<V>)
    requires Slru.Inv(c, segments) && segments.entries.Keys == {}
    ensures segments == NoSegments()
  {
    Inhabited(segments.probation);
    Inhabited(segments.protected);
    assert segments.Order() == [];
  }

  lemma SweepKeepsCore<V>(l: Limits, s: Core<V>, now: int)
    requires CoreInv(l, s)
    ensures CoreInv(l, SweepStep(l, s, now))
  {
    if !s.closed && l.idle > 0 {
      RetainKeepsInv(l.c, s.segments, Unexpired(l, s, now));
      var r := SweepStep(l, s, now);
      FewerKeepCore(l, s, r.segments);
      SweptKeepsCore(l, s.(segments := r.segments), r.negative, Unhealed(s, now));
    }
  }

  lemma SweptKeepsCore<V>(l: Limits, s: Core<V>, negative: map<Key, Negative>, unhealed: set<Key>)
    requires CoreInv(l, s) && !s.closed && unhealed <= s.negative.Keys && negative.Keys == unhealed
    requires forall k :: k in negative ==> negative[k] == s.negative[k]
    ensures CoreInv(l, s.(negative := negative, negativeOrder := Filter(s.negativeOrder, unhealed)))
  {
    FilterFacts(s.negativeOrder, unhealed);
  }

  lemma GetKeepsFlights<V>(l: Limits, s: System<V>, caller: nat, key: Key, now: int)
    requires Linked(s.core.segments) && FlightsRun(s)
    ensures FlightsRun(GetEvent(l, s, caller, key, now))
  {
    GetFlights(l, s.core, key, now, s.next);
    GetJoins(l, s.core, key, now, s.next);
    assert s.next !in s.started;
  }

  lemma GetKeepsWaiters<V>(l: Limits, s: System<V>, caller: nat, key: Key, now: int)
    requires Linked(s.core.segments) && FlightsRun(s) && WaitersServed(s)
    ensures WaitersServed(GetEvent(l, s, caller, key, now))
  {
    GetJoins(l, s.core, key, now, s.next);
    assert s.next !in s.started;
  }

  lemma GetJoins<V>(l: Limits, s: Core<V>, key: Key, now: int, newFlight: nat)
    ensures
      var reply := GetReply(l, s, key, now, newFlight);
      reply.Joined? ==> reply.flight == if key in s.flights then s.flights[key] else newFlight
  {
  }

  lemma FinishKeepsFlights<V>(l: Limits, s: System<V>, f: nat, outcome: Outcome<V>, weight: int, now: int)
    requires CoreInv(l, s.core) && FlightsRun(s) && WaitersServed(s) && f in s.running
    ensures
      var s' := FinishEvent(l, s, f, outcome, weight, now);
      FlightsRun(s') && WaitersServed(s')
  {
    FinishFlights(l, s.core, s.running[f], f, outcome, weight, now);
  }

  lemma GetKeepsInv<V>(l: Limits, s: System<V>, caller: nat, key: Key, now: int)
    requires Inv(l, s)
    ensures Inv(l, GetEvent(l, s, caller, key, now))
  {
    GetKeepsCore(l, s.core, key, now, s.next);
    GetKeepsFlights(l, s, caller, key, now);
    GetKeepsWaiters(l, s, caller, key, now);
    if caller !in s.calls {
      assert GetEvent(l, s, caller, key, now).core == GetStep(l, s.core, key, now, s.next);
    }
  }

  lemma FinishKeepsInv<V>(l: Limits, s: System<V>, f: nat, outcome: Outcome<V>, weight: int, now: int)
    requires Inv(l, s) && weight >= 0
    ensures Inv(l, FinishEvent(l, s, f, outcome, weight, now))
  {
    if f in s.running {
      FinishKeepsCore(l, s.core, s.running[f], f, outcome, weight, now);
      FinishKeepsFlights(l, s, f, outcome, weight, now);
    }
  }

  lemma MaintenanceKeepsInv<V>(l: Limits, s: System<V>, core: Core<V>)
    requires Inv(l, s) && CoreInv(l, core) && core.flights == s.core.flights
    ensures Inv(l, s.(core := core))
  {
  }

  lemma NextKeepsInv<V>(l: Limits, s: System<V>, e: Event<V>)
    requires Inv(l, s)
    ensures Inv(l, Next(l, s, e))
  {
    match e
    case Get(caller, key, now) => GetKeepsInv(l, s, caller, key, now);
    case Finish(f, outcome, reported, estimated, now) =>
      FinishKeepsInv(l, s, f, outcome, ChargedWeight(reported, estimated), now);
    case Trim(target) =>
      TrimKeepsCore(l, s.core, target);
      MaintenanceKeepsInv(l, s, TrimStep(s.core, target));
    case Close =>
      CloseKeepsCore(l, s.core);
      MaintenanceKeepsInv(l, s, CloseStep(s.core));
    case Sweep(now) =>
      SweepKeepsCore(l, s.core, now);
      MaintenanceKeepsInv(l, s, SweepStep(l, s.core, now));
  }

  lemma CloseKeepsCore<V>(l: Limits, s: Core<V>)
    requires CoreInv(l, s)
    ensures CoreInv(l, CloseStep(s))
  {
  }

  /** Runs any sequence of critical sections; every state on the way is a good one. */
  ghost function Run<V>(l: Limits, s: System<V>, es: seq<Event<V>>): (r: System<V>)
    requires Inv(l, s)
    ensures Inv(l, r)
    decreases |es|
  {
    if es == [] then s else
      NextKeepsInv(l, s, es[0]);
      Run(l, Next(l, s, es[0]), es[1..])
  }

  lemma StartIsGood<V>(l: Limits)
    requires l.c.Valid()
    ensures Inv(l, Start<V>())
  {
  }

  /** Resident keys, remembered failures and keys being loaded never overlap, and no key is loaded twice at a time. */
  lemma LoadsAreExclusive<V>(l: Limits, s0: System<V>, es: seq<Event<V>>, f: nat, g: nat)
    requires Inv(l, s0)
    requires var s := Run(l, s0, es); f in s.running && g in s.running && s.running[f] == s.running[g]
    ensures
      var s := Run(l, s0, es);
      && f == g
      && s.running[f] !in s.core.segments.entries && s.running[f] !in s.core.negative
      && s.core.segments.entries.Keys !! s.core.negative.Keys
  {
    var s := Run(l, s0, es);
    assert s.core.flights[s.running[f]] == f && s.core.flights[s.running[g]] == g;
  }

  lemma FinishFixes<V>(l: Limits, s: System<V>, f: nat, outcome: Outcome<V>, weight: int, now: int)
    requires Linked(s.core.segments) && NegativeLinked(s.core)
    ensures
      var r := FinishEvent(l, s, f, outcome, weight, now);
      && r.started == s.started && r.calls == s.calls
      && (r.results == s.results || (f in s.running && r.results == s.results[f := outcome]))
  {
  }

  lemma GetFixes<V>(l: Limits, s: System<V>, caller: nat, key: Key, now: int)
    requires Linked(s.core.segments)
    ensures
      var r := GetEvent(l, s, caller, key, now);
      && r.results == s.results
      && (r.started == s.started || r.started == s.started[s.next := key])
      && (r.calls == s.calls || (caller !in s.calls && r.calls.Keys == s.calls.Keys + {caller} &&
                                 forall w :: w in s.calls ==> r.calls[w] == s.calls[w]))
  {
  }

  lemma OutcomeFixedOnce<V>(l: Limits, s: System<V>, e: Event<V>, w: nat)
    requires Inv(l, s) && w in s.calls && s.calls[w].reply.Joined?
    ensures
      var f := s.calls[w].reply.flight;
      var r := Next(l, s, e);
      && w in r.calls && r.calls[w] == s.calls[w]
      && (f in s.results ==> f in r.results && r.results[f] == s.results[f])
  {
    match e
    case Get(caller, key, now) => GetFixes(l, s, caller, key, now);
    case Finish(f, outcome, reported, estimated, now) =>
      FinishFixes(l, s, f, outcome, ChargedWeight(reported, estimated), now);
    case _ =>
  }

  /** The outcome of a flight is fixed once: every waiter that joined it, early or late, gets that one load's result,
      and the load was for the key the waiter asked for. */
  lemma {:induction false} OutcomesAreFixed<V>(l: Limits, s: System<V>, es: seq<Event<V>>, w: nat)
    requires Inv(l, s) && w in s.calls && s.calls[w].reply.Joined?
    ensures
      var f := s.calls[w].reply.flight;
      var r := Run(l, s, es);
      && w in r.calls && r.calls[w] == s.calls[w]
      && f in r.started && r.started[f] == s.calls[w].key
      && (f in r.running || f in r.results)
      && (f in s.results ==> f in r.results && r.results[f] == s.results[f])
    decreases |es|
  {
    if es != [] {
      NextKeepsInv(l, s, es[0]);
      OutcomeFixedOnce(l, s, es[0], w);
      OutcomesAreFixed(l, Next(l, s, es[0]), es[1..], w);
    }
  }

  lemma ClosedOnce<V>(l: Limits, s: System<V>, e: Event<V>)
    requires Linked(s.core.segments) && NegativeLinked(s.core) && s.core.closed
    ensures Next(l, s, e).core.closed
  {
    match e
    case Get(caller, key, now) => assert GetStep(l, s.core, key, now, s.next) == s.core;
    case _ =>
  }

  /** After `Close` nothing is resident or remembered again, not even by loads that finish later. */
  lemma {:induction false} NothingAfterClose<V>(l: Limits, s: System<V>, es: seq<Event<V>>)
    requires Inv(l, s) && s.core.closed
    ensures
      var r := Run(l, s, es).core;
      r.closed && r.segments == NoSegments() && r.negative == map[]
    decreases |es|
  {
    if es != [] {
      NextKeepsInv(l, s, es[0]);
      ClosedOnce(l, s, es[0]);
      NothingAfterClose(l, Next(l, s, es[0]), es[1..]);
    }
  }

  // ---- What a hit returns ----

  /** Every resident value and every remembered failure is the outcome of a finished load of that very key. */
  ghost predicate Genuine<V>(s: System<V>) {
    && (forall k :: k in s.core.segments.entries ==> LoadedFor(s, k, Value(s.core.segments.entries[k].value)))
    && (forall k :: k in s.core.negative ==> LoadedFor(s, k, Failure(s.core.negative[k].error)))
  }

  ghost predicate LoadedFor<V>(s: System<V>, k: Key, outcome: Outcome<V>) {
    exists f :: f in s.results && f in s.started && s.started[f] == k && s.results[f] == outcome
  }

  /** `a` holds nothing `b` did not hold under the same key. */
  ghost predicate Holds<V>(a: Core<V>, b: Core<V>) {
    && (forall k :: k in a.segments.entries ==>
          k in b.segments.entries && a.segments.entries[k].value == b.segments.entries[k].value)
    && (forall k :: k in a.negative ==> k in b.negative && a.negative[k].error == b.negative[k].error)
  }

  lemma GetHolds<V>(l: Limits, s: Core<V>, key: Key, now: int, newFlight: nat)
    requires CoreInv(l, s)
    ensures Holds(GetStep(l, s, key, now, newFlight), s)
  {
    match GetReply(l, s, key, now, newFlight)
    case Refused =>
    case Served(_) => TouchHolds(l, s, key, now);
    case Remembered(_) =>
    case Joined(_) =>
  }

  lemma TouchHolds<V>(l: Limits, s: Core<V>, key: Key, now: int)
    requires CoreInv(l, s) && key in s.segments.entries
    ensures Holds(s.(segments := Touch(l.c, s.segments, key, now)), s)
  {
    TouchFacts(l.c, s.segments, key, now);
    var touched := s.segments.entries[key := s.segments.entries[key].(lastAccess := now)];
    assert SameEntries(touched, Touch(l.c, s.segments, key, now).entries);
  }

  lemma TrimHolds<V>(l: Limits, s: Core<V>, target: int)
    requires CoreInv(l, s)
    ensures Holds(TrimStep(s, target), s)
  {
    var n := TrimIsShortest(l.c, s.segments, if target < 0 then 0 else target);
  }

  lemma {:induction false} EvictOldestHolds<V>(s: Core<V>, max: int)
    requires NegativeLinked(s)
    ensures
      var r := EvictOldest(s, max);
      && r.segments == s.segments && forall k :: k in r.negative ==> k in s.negative && r.negative[k] == s.negative[k]
    decreases |s.negativeOrder|
  {
    if |s.negative| >= max && s.negativeOrder != [] {
      RemoveNegativeLinked(s, s.negativeOrder[0]);
      EvictOldestHolds(RemoveNegative(s, s.negativeOrder[0]), max);
    }
  }

  /** `a` holds besides what `b` held at most `outcome`, under `key`. */
  ghost predicate HoldsBut<V>(a: Core<V>, b: Core<V>, key: Key, outcome: Outcome<V>) {
    && (forall k :: k in a.segments.entries && k != key ==>
          k in b.segments.entries && a.segments.entries[k].value == b.segments.entries[k].value)
    && (key in a.segments.entries ==> outcome == Value(a.segments.entries[key].value))
    && (forall k :: k in a.negative && k != key ==> k in b.negative && a.negative[k].error == b.negative[k].error)
    && (key in a.negative ==> outcome == Failure(a.negative[key].error))
  }

  /** A finished load adds at most its own outcome under its own key. */
  lemma FinishHolds<V>(l: Limits, s: Core<V>, key: Key, f: nat, outcome: Outcome<V>, weight: int, now: int)
    requires CoreInv(l, s) && key in s.flights && s.flights[key] == f && weight >= 0
    ensures
      HoldsBut(FinishStep(l, s, key, f, outcome, weight, now), s, key, outcome)
  {
    var s1 := s.(flights := s.flights - {key});
    match outcome
    case Failure(e) =>
      if !s.closed && IsImmutable(e) {
        EvictOldestHolds(s1, l.negativeMax);
      }
    case Value(v) =>
      if !s.closed && weight <= l.c.OversizeBytes() {
        var n := InsertFresh(l.c, s.segments, key, v, weight, now);
      }
  }

  lemma LoadedForStays<V>(a: System<V>, b: System<V>, k: Key, outcome: Outcome<V>)
    requires LoadedFor(a, k, outcome)
    requires forall f :: f in a.results ==> f in b.results && b.results[f] == a.results[f]
    requires forall f :: f in a.started ==> f in b.started && b.started[f] == a.started[f]
    ensures LoadedFor(b, k, outcome)
  {
    var f :| f in a.results && f in a.started && a.started[f] == k && a.results[f] == outcome;
    assert f in b.results && f in b.started;
  }

  lemma HoldsKeepsGenuine<V>(a: System<V>, b: System<V>)
    requires Genuine(a) && Holds(b.core, a.core)
    requires forall f :: f in a.results ==> f in b.results && b.results[f] == a.results[f]
    requires forall f :: f in a.started ==> f in b.started && b.started[f] == a.started[f]
    ensures Genuine(b)
  {
    forall k | k in b.core.segments.entries ensures LoadedFor(b, k, Value(b.core.segments.entries[k].value)) {
      LoadedForStays(a, b, k, Value(a.core.segments.entries[k].value));
    }
    forall k | k in b.core.negative ensures LoadedFor(b, k, Failure(b.core.negative[k].error)) {
      LoadedForStays(a, b, k, Failure(a.core.negative[k].error));
    }
  }

  lemma FinishKeepsGenuine<V>(l: Limits, s: System<V>, f: nat, outcome: Outcome<V>, weight: int, now: int)
    requires Inv(l, s) && Genuine(s) && f in s.running && weight >= 0
    ensures Genuine(FinishEvent(l, s, f, outcome, weight, now))
  {
    var key := s.running[f];
    var r := FinishEvent(l, s, f, outcome, weight, now);
    FinishHolds(l, s.core, key, f, outcome, weight, now);
    assert f in r.results && r.results[f] == outcome && f in r.started && r.started[f] == key;
    OneMoreIsGenuine(s, r, key, outcome);
  }

  lemma OneMoreIsGenuine<V>(a: System<V>, b: System<V>, key: Key, outcome: Outcome<V>)
    requires Genuine(a) && HoldsBut(b.core, a.core, key, outcome) && LoadedFor(b, key, outcome)
    requires forall f :: f in a.results ==> f in b.results && b.results[f] == a.results[f]
    requires forall f :: f in a.started ==> f in b.started && b.started[f] == a.started[f]
    ensures Genuine(b)
  {
    forall k | k in b.core.segments.entries ensures LoadedFor(b, k, Value(b.core.segments.entries[k].value)) {
      if k != key { LoadedForStays(a, b, k, Value(a.core.segments.entries[k].value)); }
    }
    forall k | k in b.core.negative ensures LoadedFor(b, k, Failure(b.core.negative[k].error)) {
      if k != key { LoadedForStays(a, b, k, Failure(a.core.negative[k].error)); }
    }
  }

  lemma GetKeepsGenuine<V>(l: Limits, s: System<V>, caller: nat, key: Key, now: int)
    requires Inv(l, s) && Genuine(s)
    ensures Genuine(GetEvent(l, s, caller, key, now))
  {
    GetHolds(l, s.core, key, now, s.next);
    GetFixes(l, s, caller, key, now);
    GetCore(l, s, caller, key, now);
    assert s.next !in s.started;
    HoldsKeepsGenuine(s, GetEvent(l, s, caller, key, now));
  }

  lemma GetCore<V>(l: Limits, s: System<V>, caller: nat, key: Key, now: int)
    requires Linked(s.core.segments)
    ensures
      GetEvent(l, s, caller, key, now).core ==
      if caller in s.calls then s.core else GetStep(l, s.core, key, now, s.next)
  {
  }

  lemma MaintenanceKeepsGenuine<V>(s: System<V>, core: Core<V>)
    requires Genuine(s) && Holds(core, s.core)
    ensures Genuine(s.(core := core))
  {
    HoldsKeepsGenuine(s, s.(core := core));
  }

  lemma SweepHolds<V>(l: Limits, s: Core<V>, now: int)
    ensures Holds(SweepStep(l, s, now), s)
  {
  }

  lemma NextKeepsGenuine<V>(l: Limits, s: System<V>, e: Event<V>)
    requires Inv(l, s) && Genuine(s)
    ensures Genuine(Next(l, s, e))
  {
    match e
    case Get(caller, key, now) => GetKeepsGenuine(l, s, caller, key, now);
    case Finish(f, outcome, reported, estimated, now) =>
      if f in s.running { FinishKeepsGenuine(l, s, f, outcome, ChargedWeight(reported, estimated), now); }
    case Trim(target) =>
      TrimHolds(l, s.core, target);
      MaintenanceKeepsGenuine(s, TrimStep(s.core, target));
    case Close => MaintenanceKeepsGenuine(s, CloseStep(s.core));
    case Sweep(now) =>
      SweepHolds(l, s.core, now);
      MaintenanceKeepsGenuine(s, SweepStep(l, s.core, now));
  }

  lemma {:induction false} RunKeepsGenuine<V>(l: Limits, s: System<V>, es: seq<Event<V>>)
    requires Inv(l, s) && Genuine(s)
    ensures Genuine(Run(l, s, es))
    decreases |es|
  {
    if es != [] {
      NextKeepsInv(l, s, es[0]);
      NextKeepsGenuine(l, s, es[0]);
      RunKeepsGenuine(l, Next(l, s, es[0]), es[1..]);
    }
  }

  /** A value served from the cache, or a failure answered from memory, came from a finished load of the same key. */
  lemma AnswersAreGenuine<V>(l: Limits, s0: System<V>, es: seq<Event<V>>, key: Key, now: int)
    requires Inv(l, s0) && Genuine(s0)
    ensures
      var s := Run(l, s0, es);
      match GetReply(l, s.core, key, now, s.next)
      case Served(v) => LoadedFor(s, key, Value(v))
      case Remembered(e) => LoadedFor(s, key, Failure(e)) && IsImmutable(e)
      case _ => true
  {
    RunKeepsGenuine(l, s0, es);
  }
}
