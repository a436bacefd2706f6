/** What the residency cache answers: which finished loads, accesses and maintenance a later `Get` sees, and for how
    long. Stated over the protocol's steps and their replies alone. */
module ResidencyAnswers {
  import opened Slru
  import opened Residency
  import opened ResidencyProtocol

  /** The reply a new caller would get. */
  ghost function Asked<V>(l: Limits, s: System<V>, caller: nat, key: Key, now: int): Reply<V>
    requires ResidencyProtocol.Inv(l, s) && caller !in s.calls
  {
    Next(l, s, Get(caller, key, now)).calls[caller].reply
  }

  /** Resident, and not idle for too long. */
  ghost predicate Fresh<V>(l: Limits, s: System<V>, key: Key, now: int) {
    var entries := s.core.segments.entries;
    key in entries && (l.idle <= 0 || now - entries[key].lastAccess <= l.idle)
  }

  ghost predicate Failed<V>(s: System<V>, key: Key, now: int) {
    key in s.core.negative && now < s.core.negative[key].expires
  }

  /** Each answer, exactly when it is given: a resident value unless it was idle too long, a remembered failure before
      its expiry, and otherwise the one running load of the key, started now if there was none. */
  lemma AnswerIff<V>(l: Limits, s: System<V>, caller: nat, key: Key, now: int)
    requires ResidencyProtocol.Inv(l, s) && caller !in s.calls
    ensures
      var reply := Asked(l, s, caller, key, now);
      && (reply.Refused? <==> s.core.closed)
      && (reply.Served? <==> !s.core.closed && Fresh(l, s, key, now))
      && (reply.Served? ==> reply.value == s.core.segments.entries[key].value)
      && (reply.Remembered? <==> !s.core.closed && Failed(s, key, now))
      && (reply.Remembered? ==> reply.error == s.core.negative[key].error)
  {
    AskedIs(l, s, caller, key, now);
  }

  /** A miss joins the running load of its key, or starts it. */
  lemma MissLoads<V>(l: Limits, s: System<V>, caller: nat, key: Key, now: int)
    requires ResidencyProtocol.Inv(l, s) && caller !in s.calls && Asked(l, s, caller, key, now).Joined?
    ensures
      var f := Asked(l, s, caller, key, now).flight;
      var s' := Next(l, s, Get(caller, key, now));
      && f in s'.running && s'.running[f] == key
      && (f in s.running <==> key in s.running.Values) && (f !in s.running ==> f == s.next)
  {
    GetJoins(l, s.core, key, now, s.next);
    if key in s.running.Values {
      var f :| f in s.running && s.running[f] == key;
      assert s.core.flights[key] == f;
    }
  }

  /** A served entry becomes the most recently used one, as of now; nothing else is touched. */
  lemma HitRefreshes<V>(l: Limits, s: System<V>, caller: nat, key: Key, now: int)
    requires ResidencyProtocol.Inv(l, s) && caller !in s.calls && Asked(l, s, caller, key, now).Served?
    ensures
      var r, e := Next(l, s, Get(caller, key, now)).core, s.core.segments.entries;
      && r.segments.protected != [] && r.segments.Order() == [key] + Slru.Without(s.core.segments.Order(), key)
      && r.segments.protected[0] == key
      && SameEntries(e[key := e[key].(lastAccess := now)], r.segments.entries)
      && r == s.core.(segments := r.segments)
  {
    AskedIs(l, s, caller, key, now);
    HitStep(l, s, caller, key, now);
    TouchRefreshes(l.c, s.core.segments, key, now, Next(l, s, Get(caller, key, now)).core.segments);
  }

  lemma TouchRefreshes<V>(c: Config, s: Segments<V>, key: Key, now: int, r: Segments<V>)
    requires Slru.Inv(c, s) && key in s.entries && r == Touch(c, s, key, now)
    ensures r.protected != [] && r.Order() == [key] + Slru.Without(s.Order(), key) && r.protected[0] == key
    ensures SameEntries(s.entries[key := s.entries[key].(lastAccess := now)], r.entries)
  {
    TouchFacts(c, s, key, now);
  }

  lemma HitStep<V>(l: Limits, s: System<V>, caller: nat, key: Key, now: int)
    requires ResidencyProtocol.Inv(l, s) && caller !in s.calls && GetReply(l, s.core, key, now, s.next).Served?
    ensures key in s.core.segments.entries
    ensures Next(l, s, Get(caller, key, now)).core == s.core.(segments := Touch(l.c, s.core.segments, key, now))
  {
  }

  // ---- Finished loads ----

  /** Whether what a load brought is kept. */
  ghost predicate Keeps<V>(l: Limits, s: System<V>, outcome: Outcome<V>, reported: int, estimated: int) {
    var weight := if reported > 0 then reported else if estimated > 0 then estimated else 0;
    match outcome
    case Value(_) => weight <= l.c.maxBytes / 8 && (l.c.maxEntries >= 2 || s.core.segments.protected == [])
    case Failure(e) => e.LoadError? && e.immutable && l.negativeMax > 0
  }

  lemma FailureHeld<V>(l: Limits, s: System<V>, f: nat, e: LoadError, reported: int, estimated: int, now: int)
    requires ResidencyProtocol.Inv(l, s) && f in s.running && !s.core.closed
    ensures
      var key := s.running[f];
      var r := Next(l, s, Finish(f, Failure(e), reported, estimated, now)).core;
      && !r.closed && r.segments == s.core.segments
      && (key in r.negative <==> Keeps(l, s, Outcome<V>.Failure(e), reported, estimated))
      && (key in r.negative ==> r.negative[key] == Negative(e, now + l.negativeTTL))
  {
    var key := s.running[f];
    var s1 := s.core.(flights := s.core.flights - {key});
    if IsImmutable(e) { StoreNegativeFacts(l, s1, key, e, now); }
  }

  lemma ValueHeld<V>(l: Limits, s: System<V>, f: nat, v: V, reported: int, estimated: int, now: int)
    requires ResidencyProtocol.Inv(l, s) && f in s.running && !s.core.closed
    ensures
      var key := s.running[f];
      var r := Next(l, s, Finish(f, Value(v), reported, estimated, now)).core;
      && !r.closed && r.segments.protected == s.core.segments.protected && r.negative == s.core.negative
      && (key in r.segments.entries <==> Keeps(l, s, Value(v), reported, estimated))
      && (key in r.segments.entries ==>
            r.segments.entries[key].value == v && r.segments.entries[key].lastAccess == now)
      && (forall k :: k in r.segments.entries && k != key ==>
            k in s.core.segments.entries && r.segments.entries[k] == s.core.segments.entries[k])
  {
    var key, weight := s.running[f], ChargedWeight(reported, estimated);
    ValueStep(l, s.core, key, f, v, weight, now);
    if weight <= l.c.OversizeBytes() {
      var n := InsertFresh(l.c, s.core.segments, key, v, weight, now);
    }
  }

  lemma ValueStep<V>(l: Limits, s: Core<V>, key: Key, f: nat, v: V, weight: int, now: int)
    requires CoreInv(l, s) && key in s.flights && s.flights[key] == f && !s.closed
    ensures FinishStep(l, s, key, f, Value(v), weight, now) ==
            s.(flights := s.flights - {key},
               segments := if weight <= l.c.OversizeBytes() then Insert(l.c, s.segments, key, v, weight, now)
                           else s.segments)
  {
    assert key !in s.negative;
  }

  /** A load that finished is handed to its waiters, and answered from then on or not worth keeping; which of the two is
      exact. What was not kept, was idle too long or has lapsed is loaded again. */
  lemma FinishedLoadAnswers<V>(l: Limits, s: System<V>, f: nat, outcome: Outcome<V>, reported: int, estimated: int,
                               now: int, caller: nat, later: int)
    requires ResidencyProtocol.Inv(l, s) && f in s.running && caller !in s.calls && !s.core.closed
    ensures
      var s' := Next(l, s, Finish(f, outcome, reported, estimated, now));
      var intime := if outcome.Value? then l.idle <= 0 || later - now <= l.idle else later < now + l.negativeTTL;
      && ResidencyProtocol.Inv(l, s') && caller !in s'.calls && s'.results == s.results[f := outcome]
      && Asked(l, s', caller, s.running[f], later) ==
         if !Keeps(l, s, outcome, reported, estimated) || !intime then Joined(s'.next)
         else if outcome.Value? then Served(outcome.value) else Remembered(outcome.error)
  {
    var key, s' := s.running[f], Next(l, s, Finish(f, outcome, reported, estimated, now));
    NextKeepsInv(l, s, Finish(f, outcome, reported, estimated, now));
    if outcome.Value? {
      ValueHeld(l, s, f, outcome.value, reported, estimated, now);
    } else {
      FailureHeld(l, s, f, outcome.error, reported, estimated, now);
    }
    AnswerIff(l, s', caller, key, later);
    FinishFlights(l, s.core, key, f, outcome, ChargedWeight(reported, estimated), now);
    if Asked(l, s', caller, key, later).Joined? { MissLoads(l, s', caller, key, later); }
  }

  // ---- Scans ----

  /** Loads finish and other keys are missed: what a scan of cold keys does to the cache. */
  ghost predicate Scan<V>(l: Limits, s: System<V>, es: seq<Event<V>>, key: Key)
    requires ResidencyProtocol.Inv(l, s)
    decreases |es|
  {
    es != [] ==>
      && match es[0] {
           case Finish(_, _, _, _, _) => true
           case Get(caller, k, now) => k != key && !Fresh(l, s, k, now)
           case _ => false
         }
      && (NextKeepsInv(l, s, es[0]); Scan(l, Next(l, s, es[0]), es[1..], key))
  }

  /** The protected entry of `key` is still there, untouched. */
  ghost predicate Undisturbed<V>(s: Core<V>, r: Core<V>, key: Key) {
    && key in s.segments.protected && key in r.segments.protected
    && key in s.segments.entries && key in r.segments.entries
    && r.segments.entries[key] == s.segments.entries[key] && r.closed == s.closed
  }

  lemma RemoveOther<V>(s: Segments<V>, k: Key, key: Key)
    requires Linked(s) && key in s.protected && k in s.entries && k != key
    ensures key in s.entries && key in Remove(s, k).protected && key in Remove(s, k).entries
    ensures Remove(s, k).entries[key] == s.entries[key]
  {
    WithoutFacts(s.protected, k);
  }

  lemma MissKeepsProtected<V>(l: Limits, s: Core<V>, k: Key, now: int, newFlight: nat, key: Key)
    requires CoreInv(l, s) && key in s.segments.protected && k != key
    requires k in s.segments.entries ==> Expired(l, s, k, now)
    ensures Undisturbed(s, GetStep(l, s, k, now, newFlight), key)
  {
    if k in s.segments.entries { RemoveOther(s.segments, k, key); }
  }

  lemma FinishKeepsProtected<V>(l: Limits, s: System<V>, e: Event<V>, key: Key)
    requires ResidencyProtocol.Inv(l, s) && key in s.core.segments.protected && e.Finish?
    ensures Undisturbed(s.core, Next(l, s, e).core, key)
  {
    var f := e.flight;
    NextKeepsInv(l, s, e);
    if f in s.running && !s.core.closed {
      if e.outcome.Value? {
        ValueHeld(l, s, f, e.outcome.value, e.reported, e.estimated, e.now);
      } else {
        FailureHeld(l, s, f, e.outcome.error, e.reported, e.estimated, e.now);
      }
    }
  }

  lemma {:induction false} ScanKeepsProtected<V>(l: Limits, s: System<V>, es: seq<Event<V>>, key: Key)
    requires ResidencyProtocol.Inv(l, s) && key in s.core.segments.protected && Scan(l, s, es, key)
    ensures Undisturbed(s.core, Run(l, s, es).core, key)
    decreases |es|
  {
    if es != [] {
      NextKeepsInv(l, s, es[0]);
      ScanStep(l, s, es[0], key);
      ScanKeepsProtected(l, Next(l, s, es[0]), es[1..], key);
    }
  }

  lemma ScanStep<V>(l: Limits, s: System<V>, e: Event<V>, key: Key)
    requires ResidencyProtocol.Inv(l, s) && key in s.core.segments.protected
    requires e.Finish? || (e.Get? && e.key != key && !Fresh(l, s, e.key, e.now))
    ensures Undisturbed(s.core, Next(l, s, e).core, key)
  {
    if e.Finish? {
      FinishKeepsProtected(l, s, e, key);
    } else {
      MissKeepsProtected(l, s.core, e.key, e.now, s.next, key);
    }
  }

  /** However many cold keys are asked for and loaded, a protected entry goes on being answered as before. */
  lemma ScanResistance<V>(l: Limits, s: System<V>, es: seq<Event<V>>, key: Key, caller: nat, now: int)
    requires ResidencyProtocol.Inv(l, s) && key in s.core.segments.protected && Scan(l, s, es, key)
    requires caller !in s.calls && caller !in Run(l, s, es).calls && Fresh(l, s, key, now)
    ensures Asked(l, Run(l, s, es), caller, key, now) == Asked(l, s, caller, key, now)
  {
    ScanKeepsProtected(l, s, es, key);
    AnswerIff(l, s, caller, key, now);
    AnswerIff(l, Run(l, s, es), caller, key, now);
  }

  // ---- Maintenance ----

  /** A sweep leaves exactly what could still be answered. */
  lemma SweepLeavesAnswers<V>(l: Limits, s: System<V>, now: int, key: Key)
    requires ResidencyProtocol.Inv(l, s)
    ensures
      var r := Next(l, s, Sweep(now)).core;
      && r.closed == s.core.closed && r.flights == s.core.flights
      && (key in r.segments.entries <==> key in s.core.segments.entries && (s.core.closed || Fresh(l, s, key, now)))
      && (key in r.segments.entries ==> r.segments.entries[key] == s.core.segments.entries[key])
      && (key in r.negative <==> key in s.core.negative && (s.core.closed || l.idle <= 0 || Failed(s, key, now)))
      && (key in r.negative ==> r.negative[key] == s.core.negative[key])
  {
  }

  /** It is never noticed: whoever asks at that time or later gets the same answer. */
  lemma SweepIsInvisible<V>(l: Limits, s: System<V>, now: int, caller: nat, key: Key, later: int)
    requires ResidencyProtocol.Inv(l, s) && caller !in s.calls && now <= later
    ensures ResidencyProtocol.Inv(l, Next(l, s, Sweep(now))) && caller !in Next(l, s, Sweep(now)).calls
    ensures Asked(l, Next(l, s, Sweep(now)), caller, key, later) == Asked(l, s, caller, key, later)
  {
    var s' := Next(l, s, Sweep(now));
    NextKeepsInv(l, s, Sweep(now));
    SweepLeavesAnswers(l, s, now, key);
    SameAnswer(l, s, s', caller, key, later);
  }

  /** What a reply depends on. */
  lemma SameAnswer<V>(l: Limits, s: System<V>, r: System<V>, caller: nat, key: Key, now: int)
    requires ResidencyProtocol.Inv(l, s) && ResidencyProtocol.Inv(l, r) && caller !in s.calls && caller !in r.calls
    requires r.core.closed == s.core.closed && r.core.flights == s.core.flights && r.next == s.next
    requires Fresh(l, s, key, now) <==> Fresh(l, r, key, now)
    requires Fresh(l, s, key, now) ==> s.core.segments.entries[key].value == r.core.segments.entries[key].value
    requires Failed(s, key, now) <==> Failed(r, key, now)
    requires Failed(s, key, now) ==> s.core.negative[key].error == r.core.negative[key].error
    ensures Asked(l, r, caller, key, now) == Asked(l, s, caller, key, now)
  {
    AskedIs(l, s, caller, key, now);
    AskedIs(l, r, caller, key, now);
  }

  lemma AskedIs<V>(l: Limits, s: System<V>, caller: nat, key: Key, now: int)
    requires ResidencyProtocol.Inv(l, s) && caller !in s.calls
    ensures Asked(l, s, caller, key, now) == GetReply(l, s.core, key, now, s.next)
  {
  }

  /** A trim keeps the longest prefix of the recency order within its target, and nothing for target zero or less. */
  lemma TrimKeepsRecent<V>(l: Limits, s: System<V>, target: int) returns (n: nat)
    requires ResidencyProtocol.Inv(l, s)
    ensures
      var r := Next(l, s, Trim(target)).core;
      && r == s.core.(segments := r.segments) && Kept(s.core.segments, n, r.segments)
      && PrefixBytes(s.core.segments, n) <= (if target < 0 then 0 else target) && (target <= 0 ==> n == 0)
      && forall m :: n < m <= |s.core.segments.Order()| && target > 0 ==> PrefixBytes(s.core.segments, m) > target
  {
    n := TrimIsShortest(l.c, s.core.segments, if target < 0 then 0 else target);
  }

  /** Once closed, the cache refuses everyone. */
  lemma ClosedRefuses<V>(l: Limits, s: System<V>, es: seq<Event<V>>, caller: nat, key: Key, now: int)
    requires ResidencyProtocol.Inv(l, s)
    ensures ResidencyProtocol.Inv(l, Next(l, s, Close))
    ensures caller !in Run(l, Next(l, s, Close), es).calls ==>
              Asked(l, Run(l, Next(l, s, Close), es), caller, key, now) == Refused
  {
    NextKeepsInv(l, s, Close);
    NothingAfterClose(l, Next(l, s, Close), es);
  }
}
