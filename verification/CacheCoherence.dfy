/** The read, fill and fenced-write protocol of `cache.Load` over a two-tier store, as interleaved atomic steps.
    The theorem: a hit never returns bytes that miss a completed invalidation of the tags that fenced them. */
module CacheCoherence {
  import opened Wrappers
  import opened Dependencies
  import opened Store

  datatype TierId = Local | Shared

  /** Where one computation stands: leading a flight, running its callback, callback returned, or finished. */
  datatype Phase = Leading | Computing | Storing | Ended(ok: bool)

  /** One run of `compute`. An uncached one joins no flight and stores nothing. */
  datatype Computation = Computation(
    key: Key, tags: set<Tag>, cached: bool, phase: Phase, deps: Snapshot, sources: set<Read>)

  /** A value on its way to the callback of computation `consumer` (or to a request, which collects nothing). */
  datatype Delivery = Delivery(key: Key, consumer: Option<nat>, deps: Snapshot, sources: set<Read>)

  /** A `Set` some tier has been asked for and may perform at any later time: a fill's or a read's write-back. */
  datatype Write = Write(tier: TierId, key: Key, record: Record, ttl: int)

  datatype State = State(
    local: Tier,
    shared: Tier,
    // Per tag, the bumps between their two increments: the shared counter each one produced, 0 if that half failed.
    bumping: map<Tag, seq<int>>,
    // Per tag, the shared counter produced by the latest bump that has returned without error.
    done: Versions,
    computations: seq<Computation>,
    flights: map<Key, nat>,
    deliveries: seq<Delivery>,
    writes: set<Write>)

  const INIT := State(Tier(map[], map[]), Tier(map[], map[]), map[], map[], [], map[], [], {})

  datatype Event =
    | Lead(key: Key, tags: set<Tag>, cached: bool)
    | LeaderHit(c: nat, tier: TierId, now: int)
    | Fence(c: nat, link: Link)
    | SourceRead(c: nat)
    | Hit(key: Key, tier: TierId, consumer: Option<nat>, now: int)
    | Join(child: nat, consumer: Option<nat>)
    | Consume(d: nat)
    | Return(c: nat, storable: bool, freshUntil: int, ttl: int)
    | End(c: nat, ok: bool)
    | Apply(write: Write, now: int, kept: int)
    | Drop(key: Key, tier: TierId)
    | BumpShared(tag: Tag, link: Link)
    | BumpLocal(tag: Tag, i: nat)

  function TierOf(s: State, tier: TierId): Tier {
    if tier.Local? then s.local else s.shared
  }

  function WithTier(s: State, tier: TierId, t: Tier): State {
    if tier.Local? then s.(local := t) else s.(shared := t)
  }

  predicate InPhase(s: State, c: nat, phase: Phase) {
    c < |s.computations| && s.computations[c].phase == phase
  }

  function WithComputation(s: State, c: nat, comp: Computation): State
    requires c < |s.computations|
  {
    s.(computations := s.computations[c := comp])
  }

  /** A hit on the shared tier leaves a write-back of the record behind. */
  function WriteBack(s: State, tier: TierId, r: Record, now: int): State {
    if tier.Shared? then s.(writes := s.writes + {Write(Local, r.key, r, r.expiresAt - now)}) else s
  }

  function InFlight(s: State, t: Tag): seq<int> {
    if t in s.bumping then s.bumping[t] else []
  }

  function LeadStep(s: State, key: Key, tags: set<Tag>, cached: bool): State {
    if cached && key in s.flights then s else
    s.(computations := s.computations + [Computation(key, tags, cached, Leading, EMPTY, {})],
       flights := if cached then s.flights[key := |s.computations|] else s.flights)
  }

  /** The leader looks once more: a fresh record another leader stored meanwhile becomes the flight's result. */
  function LeaderHitStep(s: State, c: nat, tier: TierId, now: int): State {
    if !InPhase(s, c, Leading) || !s.computations[c].cached then s else
    var comp := s.computations[c];
    match TierGet(TierOf(s, tier), comp.key, now)
    case Some(r) =>
      if now < r.freshUntil then
        WriteBack(
          WithComputation(s, c, comp.(phase := Storing, deps := Snapshot(r.versions, false), sources := r.sources)),
          tier, r, now)
      else s
    case None => s
  }

  /** The shared counters of the entry's own tags are taken before the callback reads anything. */
  function FenceStep(s: State, c: nat, link: Link): State {
    if !InPhase(s, c, Leading) then s else
    var comp := s.computations[c];
    var observed := if link.Up? then Snapshot(TierVersions(s.shared, comp.tags), false) else Snapshot(map[], true);
    WithComputation(s, c, comp.(
      phase := Computing,
      deps := if comp.tags == {} then comp.deps else MergeSnapshot(comp.deps, observed)))
  }

  function SourceReadStep(s: State, c: nat): State {
    if !InPhase(s, c, Computing) then s else
    var comp := s.computations[c];
    WithComputation(s, c, comp.(sources := comp.sources + {Read(comp.tags, s.shared.counters)}))
  }

  function HitStep(s: State, key: Key, tier: TierId, consumer: Option<nat>, now: int): State {
    match TierGet(TierOf(s, tier), key, now)
    case Some(r) =>
      WriteBack(
        s.(deliveries := s.deliveries + [Delivery(key, consumer, Snapshot(r.versions, false), r.sources)]),
        tier, r, now)
    case None => s
  }

  /** Leader and waiters of a finished flight all receive the result with its dependencies, safe or not. */
  function JoinStep(s: State, child: nat, consumer: Option<nat>): State {
    if !(child < |s.computations| && s.computations[child].phase == Ended(true)) then s else
    var comp := s.computations[child];
    s.(deliveries := s.deliveries + [Delivery(comp.key, consumer, comp.deps, comp.sources)])
  }

  /** `observeDependencies`: the dependencies are merged before the callback sees the bytes. */
  function ConsumeStep(s: State, d: nat): State {
    if !(d < |s.deliveries| && s.deliveries[d].consumer.Some?) then s else
    var delivery := s.deliveries[d];
    var c := delivery.consumer.value;
    if !InPhase(s, c, Computing) then s else
    var comp := s.computations[c];
    WithComputation(s, c, comp.(
      deps := MergeSnapshot(comp.deps, delivery.deps), sources := comp.sources + delivery.sources))
  }

  function ReturnStep(s: State, c: nat, storable: bool, freshUntil: int, ttl: int): State {
    if !InPhase(s, c, Computing) then s else
    var comp := s.computations[c];
    var s' := WithComputation(s, c, comp.(phase := Storing));
    if !comp.cached || comp.deps.isUnsafe || !storable then s' else
    var record := Record(comp.key, comp.sources, comp.deps.versions, freshUntil, 0);
    s'.(writes := s'.writes + {Write(Local, comp.key, record, ttl), Write(Shared, comp.key, record, ttl)})
  }

  /** The flight ends after the writes were issued, or at any time by a panic, which hands waiters an error. */
  function EndStep(s: State, c: nat, ok: bool): State {
    if !(c < |s.computations| && !s.computations[c].phase.Ended? && (ok ==> s.computations[c].phase.Storing?))
    then s else
    var comp := s.computations[c];
    var s' := WithComputation(s, c, comp.(phase := Ended(ok)));
    if comp.key in s.flights && s.flights[comp.key] == c then s'.(flights := s.flights - {comp.key}) else s'
  }

  /** A requested write is performed; write-behind may delay it, and repeating it is harmless. */
  function ApplyStep(s: State, w: Write, now: int, kept: int): State {
    if w !in s.writes || kept > w.ttl then s else
    WithTier(s, w.tier, TierSet(TierOf(s, w.tier), w.key, w.record, now, kept))
  }

  function DropStep(s: State, key: Key, tier: TierId): State {
    var t := TierOf(s, tier);
    WithTier(s, tier, t.(entries := t.entries - {key}))
  }

  /** First half of `BumpTag`. A failed shared half is remembered as 0: that bump will return an error. */
  function BumpSharedStep(s: State, t: Tag, link: Link): State {
    if link.Up? then
      var shared := TierBump(s.shared, t);
      s.(shared := shared, bumping := s.bumping[t := InFlight(s, t) + [Ver(shared.counters, t)]])
    else
      s.(bumping := s.bumping[t := InFlight(s, t) + [0]])
  }

  /** Second half, performed by one of the bumps in progress for this tag; it then returns to its caller. */
  function BumpLocalStep(s: State, t: Tag, i: nat): State {
    var bumps := InFlight(s, t);
    if i >= |bumps| then s else
    var w := bumps[i];
    s.(local := TierBump(s.local, t),
       bumping := s.bumping[t := bumps[..i] + bumps[i + 1..]],
       done := if w == 0 then s.done else s.done[t := w])
  }

  function Next(s: State, e: Event): State {
    match e
    case Lead(key, tags, cached) => LeadStep(s, key, tags, cached)
    case LeaderHit(c, tier, now) => LeaderHitStep(s, c, tier, now)
    case Fence(c, link) => FenceStep(s, c, link)
    case SourceRead(c) => SourceReadStep(s, c)
    case Hit(key, tier, consumer, now) => HitStep(s, key, tier, consumer, now)
    case Join(child, consumer) => JoinStep(s, child, consumer)
    case Consume(d) => ConsumeStep(s, d)
    case Return(c, storable, freshUntil, ttl) => ReturnStep(s, c, storable, freshUntil, ttl)
    case End(c, ok) => EndStep(s, c, ok)
    case Apply(w, now, kept) => ApplyStep(s, w, now, kept)
    case Drop(key, tier) => DropStep(s, key, tier)
    case BumpShared(t, link) => BumpSharedStep(s, t, link)
    case BumpLocal(t, i) => BumpLocalStep(s, t, i)
  }

  function Run(s: State, es: seq<Event>): State
    decreases |es|
  {
    if es == [] then s else Run(Next(s, es[0]), es[1..])
  }

  /** Two bumps of `t` do not overlap. */
  ghost predicate DisciplinedFor(s: State, es: seq<Event>, t: Tag)
    decreases |es|
  {
    es != [] ==>
      && (es[0].BumpShared? && es[0].tag == t ==> InFlight(s, t) == [])
      && DisciplinedFor(Next(s, es[0]), es[1..], t)
  }

  /** Only bumps of the tags in `loose` may overlap one another. */
  ghost predicate OverlapsOnly(es: seq<Event>, loose: set<Tag>) {
    forall t :: t !in loose ==> DisciplinedFor(INIT, es, t)
  }

  // ---- What every step keeps ----

  /** Each read is fenced: the versions name its tags, none newer than the counters the read was made at. */
  ghost predicate Covers(versions: Versions, sources: set<Read>) {
    forall r, t :: r in sources && t in r.fence ==> t in versions && versions[t] <= Ver(r.at, t)
  }

  ghost predicate Observed(versions: Versions, counters: Versions) {
    forall t :: t in versions ==> versions[t] <= Ver(counters, t)
  }

  ghost predicate Sound(deps: Snapshot, sources: set<Read>, counters: Versions) {
    !deps.isUnsafe ==> Covers(deps.versions, sources) && Observed(deps.versions, counters)
  }

  ghost predicate SoundRecord(key: Key, r: Record, counters: Versions) {
    r.key == key && Sound(Snapshot(r.versions, false), r.sources, counters)
  }

  ghost predicate SoundComputation(c: Computation, counters: Versions) {
    && Sound(c.deps, c.sources, counters)
    && (c.phase.Computing? && !c.deps.isUnsafe ==> c.tags <= c.deps.versions.Keys)
  }

  /** While no bump of the tag is in progress the local counter is not behind the shared one, and neither is behind
      the latest bump that returned without error. */
  ghost predicate TagInStep(s: State, t: Tag) {
    var bumps := InFlight(s, t);
    && |bumps| <= 1
    && Ver(s.done, t) <= Ver(s.shared.counters, t)
    && Ver(s.done, t) <= Ver(s.local.counters, t)
    && Ver(s.shared.counters, t) <= Ver(s.local.counters, t) + (if bumps != [] && bumps[0] != 0 then 1 else 0)
    && (bumps != [] && bumps[0] != 0 ==> bumps[0] == Ver(s.shared.counters, t))
    && 0 <= Ver(s.shared.counters, t)
  }

  ghost predicate SoundComputations(cs: seq<Computation>, counters: Versions) {
    forall i :: 0 <= i < |cs| ==> SoundComputation(cs[i], counters)
  }

  ghost predicate SoundDeliveries(ds: seq<Delivery>, counters: Versions) {
    forall i :: 0 <= i < |ds| ==> Sound(ds[i].deps, ds[i].sources, counters)
  }

  ghost predicate SoundWrites(ws: set<Write>, counters: Versions) {
    forall w :: w in ws ==> SoundRecord(w.key, w.record, counters)
  }

  ghost predicate SoundEntries(entries: map<Key, Record>, counters: Versions) {
    forall k :: k in entries ==> SoundRecord(k, entries[k], counters)
  }

  ghost predicate SoundValues(s: State) {
    && SoundComputations(s.computations, s.shared.counters)
    && SoundDeliveries(s.deliveries, s.shared.counters)
    && SoundWrites(s.writes, s.shared.counters)
    && SoundEntries(s.local.entries, s.shared.counters)
    && SoundEntries(s.shared.entries, s.shared.counters)
  }

  /** The flight table names exactly the cached computations that have not ended. */
  ghost predicate FlightsLive(s: State) {
    && (forall k :: k in s.flights ==>
          s.flights[k] < |s.computations| && s.computations[s.flights[k]].key == k)
    && (forall c :: 0 <= c < |s.computations| && s.computations[c].cached && !s.computations[c].phase.Ended? ==>
          s.computations[c].key in s.flights && s.flights[s.computations[c].key] == c)
  }

  /** What holds whatever bumps overlap. */
  ghost predicate Inv(s: State) {
    SoundValues(s) && FlightsLive(s)
  }

  lemma MergeSound(a: Snapshot, b: Snapshot, sa: set<Read>, sb: set<Read>, counters: Versions)
    requires Sound(a, sa, counters) && Sound(b, sb, counters)
    ensures Sound(MergeSnapshot(a, b), sa + sb, counters)
  {
    var m := MergeSnapshot(a, b);
    if !m.isUnsafe {
      forall r, t | r in sa + sb && t in r.fence ensures t in m.versions && m.versions[t] <= Ver(r.at, t) {
        if r in sb && t in a.versions {
          assert t in b.versions && !(a.versions[t] != b.versions[t]);
        }
      }
    }
  }

  /** A computation that goes on: same key, same flight, sound values. */
  lemma UpdateKeeps(s: State, c: nat, comp: Computation)
    requires Inv(s) && c < |s.computations| && SoundComputation(comp, s.shared.counters)
    requires comp.key == s.computations[c].key && comp.cached == s.computations[c].cached
    requires !comp.phase.Ended? && !s.computations[c].phase.Ended?
    ensures Inv(WithComputation(s, c, comp))
  {
  }

  lemma WritesKeep(s: State, ws: set<Write>)
    requires Inv(s) && SoundWrites(ws, s.shared.counters)
    ensures Inv(s.(writes := s.writes + ws))
  {
  }

  lemma DeliveryKeeps(s: State, d: Delivery)
    requires Inv(s) && Sound(d.deps, d.sources, s.shared.counters)
    ensures Inv(s.(deliveries := s.deliveries + [d]))
  {
  }

  lemma HitIsSound(s: State, tier: TierId, key: Key, now: int)
    requires Inv(s) && TierGet(TierOf(s, tier), key, now).Some?
    ensures SoundRecord(key, TierGet(TierOf(s, tier), key, now).value, s.shared.counters)
  {
  }

  lemma LeadKeeps(s: State, key: Key, tags: set<Tag>, cached: bool)
    requires Inv(s)
    ensures Inv(LeadStep(s, key, tags, cached))
  {
  }

  lemma LeaderHitKeeps(s: State, c: nat, tier: TierId, now: int)
    requires Inv(s)
    ensures Inv(LeaderHitStep(s, c, tier, now))
  {
    if InPhase(s, c, Leading) && s.computations[c].cached {
      var comp := s.computations[c];
      var hit := TierGet(TierOf(s, tier), comp.key, now);
      if hit.Some? {
        var r := hit.value;
        HitIsSound(s, tier, comp.key, now);
        var next := comp.(phase := Storing, deps := Snapshot(r.versions, false), sources := r.sources);
        UpdateKeeps(s, c, next);
        WritesKeep(WithComputation(s, c, next), {Write(Local, r.key, r, r.expiresAt - now)});
      }
    }
  }

  lemma FenceKeeps(s: State, c: nat, link: Link)
    requires Inv(s)
    ensures Inv(FenceStep(s, c, link))
  {
    if InPhase(s, c, Leading) {
      var comp := s.computations[c];
      var observed := if link.Up? then Snapshot(TierVersions(s.shared, comp.tags), false) else Snapshot(map[], true);
      MergeSound(comp.deps, observed, comp.sources, {}, s.shared.counters);
      assert comp.sources + {} == comp.sources;
      UpdateKeeps(s, c, FenceStep(s, c, link).computations[c]);
    }
  }

  lemma SourceReadKeeps(s: State, c: nat)
    requires Inv(s)
    ensures Inv(SourceReadStep(s, c))
  {
    if InPhase(s, c, Computing) {
      UpdateKeeps(s, c, SourceReadStep(s, c).computations[c]);
    }
  }

  lemma HitKeeps(s: State, key: Key, tier: TierId, consumer: Option<nat>, now: int)
    requires Inv(s)
    ensures Inv(HitStep(s, key, tier, consumer, now))
  {
    var hit := TierGet(TierOf(s, tier), key, now);
    if hit.Some? {
      var r := hit.value;
      HitIsSound(s, tier, key, now);
      var d := Delivery(key, consumer, Snapshot(r.versions, false), r.sources);
      DeliveryKeeps(s, d);
      WritesKeep(s.(deliveries := s.deliveries + [d]), {Write(Local, r.key, r, r.expiresAt - now)});
    }
  }

  lemma JoinKeeps(s: State, child: nat, consumer: Option<nat>)
    requires Inv(s)
    ensures Inv(JoinStep(s, child, consumer))
  {
    if child < |s.computations| {
      var comp := s.computations[child];
      assert SoundComputation(comp, s.shared.counters);
      DeliveryKeeps(s, Delivery(comp.key, consumer, comp.deps, comp.sources));
    }
  }

  lemma ConsumeKeeps(s: State, d: nat)
    requires Inv(s)
    ensures Inv(ConsumeStep(s, d))
  {
    if d < |s.deliveries| && s.deliveries[d].consumer.Some? && InPhase(s, s.deliveries[d].consumer.value, Computing) {
      var c := s.deliveries[d].consumer.value;
      var comp := s.computations[c];
      MergeSound(comp.deps, s.deliveries[d].deps, comp.sources, s.deliveries[d].sources, s.shared.counters);
      UpdateKeeps(s, c, ConsumeStep(s, d).computations[c]);
    }
  }

  lemma ReturnKeeps(s: State, c: nat, storable: bool, freshUntil: int, ttl: int)
    requires Inv(s)
    ensures Inv(ReturnStep(s, c, storable, freshUntil, ttl))
  {
    if InPhase(s, c, Computing) {
      var comp := s.computations[c];
      UpdateKeeps(s, c, comp.(phase := Storing));
      if !comp.deps.isUnsafe {
        var record := Record(comp.key, comp.sources, comp.deps.versions, freshUntil, 0);
        WritesKeep(WithComputation(s, c, comp.(phase := Storing)),
                   {Write(Local, comp.key, record, ttl), Write(Shared, comp.key, record, ttl)});
      }
    }
  }

  lemma EndKeeps(s: State, c: nat, ok: bool)
    requires Inv(s)
    ensures Inv(EndStep(s, c, ok))
  {
    EndKeepsFlights(s, c, ok);
  }

  lemma EndKeepsFlights(s: State, c: nat, ok: bool)
    requires FlightsLive(s)
    ensures FlightsLive(EndStep(s, c, ok))
  {
  }

  lemma SetKeepsSound(tier: Tier, w: Write, now: int, kept: int, counters: Versions)
    requires SoundEntries(tier.entries, counters) && SoundRecord(w.key, w.record, counters)
    ensures SoundEntries(TierSet(tier, w.key, w.record, now, kept).entries, counters)
    ensures TierSet(tier, w.key, w.record, now, kept).counters == tier.counters
  {
  }

  lemma ApplyKeeps(s: State, w: Write, now: int, kept: int)
    requires Inv(s)
    ensures Inv(ApplyStep(s, w, now, kept))
  {
    if w in s.writes && kept <= w.ttl {
      SetKeepsSound(TierOf(s, w.tier), w, now, kept, s.shared.counters);
      TierChanges(s, w.tier, TierSet(TierOf(s, w.tier), w.key, w.record, now, kept));
    }
  }

  lemma TierChanges(s: State, tier: TierId, t: Tier)
    requires Inv(s) && SoundEntries(t.entries, s.shared.counters) && t.counters == TierOf(s, tier).counters
    ensures Inv(WithTier(s, tier, t))
  {
  }

  lemma DropKeeps(s: State, key: Key, tier: TierId)
    requires Inv(s)
    ensures Inv(DropStep(s, key, tier))
  {
  }

  lemma BumpSharedKeeps(s: State, tag: Tag, link: Link)
    requires Inv(s)
    ensures Inv(BumpSharedStep(s, tag, link))
  {
    SoundGrows(s, BumpSharedStep(s, tag, link).shared.counters);
  }

  lemma BumpLocalKeeps(s: State, tag: Tag, i: nat)
    requires Inv(s)
    ensures Inv(BumpLocalStep(s, tag, i))
  {
  }

  lemma SoundGrows(s: State, counters: Versions)
    requires SoundValues(s) && forall t :: Ver(s.shared.counters, t) <= Ver(counters, t)
    ensures SoundValues(s.(shared := s.shared.(counters := counters)))
  {
  }

  lemma NextKeepsInv(s: State, e: Event)
    requires Inv(s)
    ensures Inv(Next(s, e))
  {
    match e
    case Lead(key, tags, cached) => LeadKeeps(s, key, tags, cached);
    case LeaderHit(c, tier, now) => LeaderHitKeeps(s, c, tier, now);
    case Fence(c, link) => FenceKeeps(s, c, link);
    case SourceRead(c) => SourceReadKeeps(s, c);
    case Hit(key, tier, consumer, now) => HitKeeps(s, key, tier, consumer, now);
    case Join(child, consumer) => JoinKeeps(s, child, consumer);
    case Consume(d) => ConsumeKeeps(s, d);
    case Return(c, storable, freshUntil, ttl) => ReturnKeeps(s, c, storable, freshUntil, ttl);
    case End(c, ok) => EndKeeps(s, c, ok);
    case Apply(w, now, kept) => ApplyKeeps(s, w, now, kept);
    case Drop(key, tier) => DropKeeps(s, key, tier);
    case BumpShared(t, link) => BumpSharedKeeps(s, t, link);
    case BumpLocal(t, i) => BumpLocalKeeps(s, t, i);
  }

  /** The heart of the protocol: no interleaving produces a value whose reads its versions do not fence. */
  lemma {:induction false} RunKeepsInv(s: State, es: seq<Event>)
    requires Inv(s)
    ensures Inv(Run(s, es))
    decreases |es|
  {
    if es != [] {
      NextKeepsInv(s, es[0]);
      RunKeepsInv(Next(s, es[0]), es[1..]);
    }
  }

  lemma InitInv()
    ensures Inv(INIT)
  {
  }

  // ---- Counters, tag by tag ----

  /** The counters of `t` are as they were. */
  ghost predicate SameCounters(s: State, s': State, t: Tag) {
    && InFlight(s', t) == InFlight(s, t) && Ver(s'.done, t) == Ver(s.done, t)
    && Ver(s'.local.counters, t) == Ver(s.local.counters, t) && Ver(s'.shared.counters, t) == Ver(s.shared.counters, t)
  }

  lemma OtherBumpsKeepCounters(s: State, e: Event, t: Tag)
    requires (e.BumpShared? || e.BumpLocal?) && e.tag != t
    ensures SameCounters(s, Next(s, e), t)
  {
  }

  lemma WritesKeepCounters(s: State, e: Event, t: Tag)
    requires e.Apply? || e.Drop? || e.Hit? || e.LeaderHit?
    ensures SameCounters(s, Next(s, e), t)
  {
  }

  lemma ComputingKeepsCounters(s: State, e: Event, t: Tag)
    requires e.Lead? || e.Fence? || e.SourceRead? || e.Join? || e.Consume? || e.Return? || e.End?
    ensures SameCounters(s, Next(s, e), t)
  {
  }

  /** Nothing but a bump of `t` touches its counters. */
  lemma OthersKeepCounters(s: State, e: Event, t: Tag)
    requires !(e.BumpShared? && e.tag == t) && !(e.BumpLocal? && e.tag == t)
    ensures SameCounters(s, Next(s, e), t)
  {
    if e.BumpShared? || e.BumpLocal? {
      OtherBumpsKeepCounters(s, e, t);
    } else if e.Apply? || e.Drop? || e.Hit? || e.LeaderHit? {
      WritesKeepCounters(s, e, t);
    } else {
      ComputingKeepsCounters(s, e, t);
    }
  }

  lemma BumpSharedInStep(s: State, t: Tag, link: Link)
    requires TagInStep(s, t) && InFlight(s, t) == []
    ensures TagInStep(BumpSharedStep(s, t, link), t) && BumpSharedStep(s, t, link).done == s.done
  {
  }

  lemma BumpLocalInStep(s: State, t: Tag, i: nat)
    requires TagInStep(s, t)
    ensures TagInStep(BumpLocalStep(s, t, i), t) && Ver(s.done, t) <= Ver(BumpLocalStep(s, t, i).done, t)
  {
    if i < |InFlight(s, t)| { assert InFlight(BumpLocalStep(s, t, i), t) == []; }
  }

  lemma NextKeepsTag(s: State, e: Event, t: Tag)
    requires TagInStep(s, t) && (e.BumpShared? && e.tag == t ==> InFlight(s, t) == [])
    ensures TagInStep(Next(s, e), t) && Ver(s.done, t) <= Ver(Next(s, e).done, t)
  {
    if e.BumpShared? && e.tag == t {
      BumpSharedInStep(s, t, e.link);
    } else if e.BumpLocal? && e.tag == t {
      BumpLocalInStep(s, t, e.i);
    } else {
      OthersKeepCounters(s, e, t);
    }
  }

  lemma {:induction false} RunKeepsTag(s: State, es: seq<Event>, t: Tag)
    requires TagInStep(s, t) && DisciplinedFor(s, es, t)
    ensures TagInStep(Run(s, es), t) && Ver(s.done, t) <= Ver(Run(s, es).done, t)
    decreases |es|
  {
    if es != [] {
      NextKeepsTag(s, es[0], t);
      RunKeepsTag(Next(s, es[0]), es[1..], t);
    }
  }

  // ---- What the protocol is for ----

  /** Whatever a hit returns was stored under its own key, its versions name every tag some reading computation
      declared, and for each of these tags whose own bumps do not overlap every read was made no earlier than the
      tag's latest completed bump. */
  lemma HitIsFresh(es: seq<Event>, tier: TierId, key: Key, now: int)
    requires TierGet(TierOf(Run(INIT, es), tier), key, now).Some?
    ensures
      var s := Run(INIT, es);
      var r := TierGet(TierOf(s, tier), key, now).value;
      && r.key == key
      && forall read, t :: read in r.sources && t in read.fence ==>
           t in r.versions && (DisciplinedFor(INIT, es, t) ==> Ver(s.done, t) <= Ver(read.at, t))
  {
    var s := Run(INIT, es);
    InitInv();
    RunKeepsInv(INIT, es);
    var r := TierGet(TierOf(s, tier), key, now).value;
    HitIsSound(s, tier, key, now);
    forall read, t | read in r.sources && t in read.fence && DisciplinedFor(INIT, es, t)
      ensures Ver(s.done, t) <= Ver(read.at, t)
    {
      RunKeepsTag(INIT, es, t);
    }
  }

  /** Two computations of one key never run at the same time. */
  lemma OneFillPerKey(es: seq<Event>, a: nat, b: nat)
    requires
      var cs := Run(INIT, es).computations;
      && a < |cs| && b < |cs| && cs[a].cached && cs[b].cached
      && !cs[a].phase.Ended? && !cs[b].phase.Ended? && cs[a].key == cs[b].key
    ensures a == b
  {
    InitInv();
    RunKeepsInv(INIT, es);
  }

  /** Once a bump has returned without error, nothing fenced by an older version of the tag is served again: not by a
      read that fetched it before and writes it back after, nor by a fill whose writes straddle the two increments.
      Bumps of other tags may overlap as they like. */
  lemma BumpFences(es: seq<Event>, tag: Tag, later: seq<Event>, tier: TierId, key: Key, now: int)
    requires DisciplinedFor(INIT, es, tag)
    requires
      var s := Run(INIT, es);
      && InFlight(s, tag) != [] && InFlight(s, tag)[0] != 0
      && DisciplinedFor(BumpLocalStep(s, tag, 0), later, tag)
      && var s' := Run(BumpLocalStep(s, tag, 0), later);
         && TierGet(TierOf(s', tier), key, now).Some?
         && tag in TierGet(TierOf(s', tier), key, now).value.versions
    ensures
      var s := Run(INIT, es);
      var s' := Run(BumpLocalStep(s, tag, 0), later);
      var r := TierGet(TierOf(s', tier), key, now).value;
      && InFlight(s, tag)[0] <= r.versions[tag]
      && forall read :: read in r.sources && tag in read.fence ==> InFlight(s, tag)[0] <= Ver(read.at, tag)
  {
    var s := Run(INIT, es);
    InitInv();
    RunKeepsInv(INIT, es);
    RunKeepsTag(INIT, es, tag);
    BumpLocalKeeps(s, tag, 0);
    BumpLocalInStep(s, tag, 0);
    var returned := BumpLocalStep(s, tag, 0);
    assert Ver(returned.done, tag) == InFlight(s, tag)[0];
    RunKeepsTag(returned, later, tag);
    RunKeepsInv(returned, later);
    HitIsSound(Run(returned, later), tier, key, now);
  }

  // ---- What it is not for ----

  /** A hit after the run holds a read fenced by `nested` that predates a completed bump of the hit's own tag `a`. */
  ghost predicate MissesBump(es: seq<Event>, a: Tag, nested: set<Tag>) {
    OverlapsOnly(es, {}) &&
    exists tier, key, now, read ::
      var s := Run(INIT, es);
      var hit := TierGet(TierOf(s, tier), key, now);
      && hit.Some? && a in hit.value.versions
      && read in hit.value.sources && read.fence == nested && Ver(read.at, a) < Ver(s.done, a)
  }

  lemma {:induction false} RunAppend(s: State, es: seq<Event>, e: Event)
    ensures Run(s, es + [e]) == Next(Run(s, es), e)
    decreases |es|
  {
    if es != [] {
      RunAppend(Next(s, es[0]), es[1..], e);
      assert (es + [e])[1..] == es[1..] + [e];
    }
  }

  lemma {:induction false} DisciplineAppend(s: State, es: seq<Event>, e: Event, t: Tag)
    requires DisciplinedFor(s, es, t)
    requires e.BumpShared? && e.tag == t ==> InFlight(Run(s, es), t) == []
    ensures DisciplinedFor(s, es + [e], t)
    decreases |es|
  {
    if es != [] {
      DisciplineAppend(Next(s, es[0]), es[1..], e, t);
      assert (es + [e])[1..] == es[1..] + [e];
    }
  }

  /** One more event of a concrete run whose bumps overlap for the tags in `loose` only. */
  lemma Extend(s: State, es: seq<Event>, e: Event, loose: set<Tag>) returns (s': State, es': seq<Event>)
    requires s == Run(INIT, es) && OverlapsOnly(es, loose)
    requires e.BumpShared? ==> e.tag in loose || InFlight(s, e.tag) == []
    ensures s' == Run(INIT, es') == Next(s, e) && OverlapsOnly(es', loose)
  {
    RunAppend(INIT, es, e);
    s', es' := Next(s, e), es + [e];
    forall t | t !in loose ensures DisciplinedFor(INIT, es', t) {
      DisciplineAppend(INIT, es, e, t);
    }
  }

  lemma NestedReads(nested: set<Tag>, read: Read, n: Record) returns (s: State, es: seq<Event>)
    requires read == Read(nested, map[])
    requires n == Record("n", {read}, map t | t in nested :: 0, 9, 9)
    ensures OverlapsOnly(es, {}) && s == Run(INIT, es)
    ensures s.shared == INIT.shared && s.local == INIT.local && s.bumping == map[] && s.done == map[]
    ensures s.computations == [Computation("n", nested, true, Storing, Snapshot(n.versions, false), {read})]
    ensures s.deliveries == [] && s.flights == map["n" := 0]
    ensures Write(Shared, "n", n.(expiresAt := 0), 9) in s.writes
  {
    s, es := INIT, [];
    s, es := Extend(s, es, Lead("n", nested, true), {});
    s, es := Extend(s, es, Fence(0, Up), {});
    assert s.computations[0].deps == Snapshot(n.versions, false);
    s, es := Extend(s, es, SourceRead(0), {});
    assert s.computations[0].sources == {read};
    s, es := Extend(s, es, Return(0, true, 9, 9), {});
  }

  lemma FillNested(nested: set<Tag>, read: Read, n: Record) returns (s: State, es: seq<Event>)
    requires read == Read(nested, map[])
    requires n == Record("n", {read}, map t | t in nested :: 0, 9, 9)
    ensures OverlapsOnly(es, {}) && s == Run(INIT, es)
    ensures s.shared == Tier(map[], map["n" := n]) && s.local == INIT.local && s.bumping == map[] && s.done == map[]
    ensures |s.computations| == 1 && s.deliveries == [] && s.flights == map["n" := 0]
  {
    s, es := NestedReads(nested, read, n);
    s, es := Extend(s, es, Apply(Write(Shared, "n", n.(expiresAt := 0), 9), 0, 9), {});
    assert s.shared.entries == map["n" := n];
  }

  /** A first bump, from start to return. */
  lemma BumpOnce(s0: State, es0: seq<Event>, a: Tag) returns (s: State, es: seq<Event>)
    requires s0 == Run(INIT, es0) && OverlapsOnly(es0, {}) && s0.shared.counters == map[] && s0.bumping == map[]
    ensures s == Run(INIT, es) && OverlapsOnly(es, {})
    ensures s.shared == s0.shared.(counters := map[a := 1]) && Ver(s.done, a) == 1
    ensures s.computations == s0.computations && s.deliveries == s0.deliveries && s.flights == s0.flights
  {
    s, es := Extend(s0, es0, BumpShared(a, Up), {});
    assert InFlight(s, a) == [1];
    s, es := Extend(s, es, BumpLocal(a, 0), {});
  }

  /** The nested entry is filled, then a tag it did not declare is bumped. */
  lemma FillNestedThenBump(a: Tag, nested: set<Tag>, read: Read, n: Record) returns (s: State, es: seq<Event>)
    requires a !in nested && read == Read(nested, map[])
    requires n == Record("n", {read}, map t | t in nested :: 0, 9, 9)
    ensures OverlapsOnly(es, {}) && s == Run(INIT, es)
    ensures s.shared == Tier(map[a := 1], map["n" := n]) && Ver(s.done, a) == 1
    ensures |s.computations| == 1 && s.deliveries == [] && s.flights == map["n" := 0]
  {
    s, es := FillNested(nested, read, n);
    s, es := BumpOnce(s, es, a);
  }

  lemma StartEnclosing(a: Tag, nested: set<Tag>, read: Read, n: Record) returns (s: State, es: seq<Event>)
    requires a !in nested && read == Read(nested, map[])
    requires n == Record("n", {read}, map t | t in nested :: 0, 9, 9)
    ensures OverlapsOnly(es, {}) && s == Run(INIT, es)
    ensures s.shared == Tier(map[a := 1], map["n" := n]) && Ver(s.done, a) == 1
    ensures |s.computations| == 2 && s.deliveries == []
    ensures s.computations[1] == Computation("p", {a}, true, Computing, Snapshot(map[a := 1], false), {})
  {
    s, es := FillNestedThenBump(a, nested, read, n);
    s, es := Extend(s, es, Lead("p", {a}, true), {});
    s, es := Extend(s, es, Fence(1, Up), {});
    assert s.computations[1].deps == Snapshot(map[a := 1], false);
  }

  /** The enclosing entry, which declares the bumped tag, then reuses the nested bytes. */
  lemma ReuseNested(a: Tag, nested: set<Tag>, read: Read, n: Record) returns (s: State, es: seq<Event>)
    requires a !in nested && read == Read(nested, map[])
    requires n == Record("n", {read}, map t | t in nested :: 0, 9, 9)
    ensures OverlapsOnly(es, {}) && s == Run(INIT, es)
    ensures s.shared == Tier(map[a := 1], map["n" := n]) && Ver(s.done, a) == 1
    ensures |s.computations| == 2
    ensures s.computations[1] ==
            Computation("p", {a}, true, Computing, Snapshot(n.versions + map[a := 1], false), {read})
  {
    s, es := StartEnclosing(a, nested, read, n);
    assert TierGet(s.shared, "n", 0) == Some(n);
    s, es := Extend(s, es, Hit("n", Shared, Some(1), 0), {});
    assert s.deliveries == [Delivery("n", Some(1), Snapshot(n.versions, false), {read})];
    s, es := Extend(s, es, Consume(0), {});
    assert s.computations[1].sources == {read};
  }

  lemma UndeclaredTagRun(a: Tag, nested: set<Tag>) returns (es: seq<Event>)
    requires a !in nested
    ensures MissesBump(es, a, nested)
  {
    var read := Read(nested, map[]);
    var n := Record("n", {read}, map t | t in nested :: 0, 9, 9);
    var s;
    s, es := ReuseNested(a, nested, read, n);
    s, es := Extend(s, es, Return(1, true, 9, 9), {});
    var p := Record("p", {read}, n.versions + map[a := 1], 9, 0);
    assert Write(Shared, "p", p, 9) in s.writes;
    s, es := Extend(s, es, Apply(Write(Shared, "p", p, 9), 0, 9), {});
    assert TierGet(TierOf(s, Shared), "p", 0) == Some(p.(expiresAt := 9));
    assert Ver(read.at, a) < Ver(s.done, a);
  }

  /** A nested load carries only its own tags into the enclosing entry: a bump of a tag of the enclosing entry reaches
      the nested bytes exactly when the nested load declares that tag too. */
  lemma NestedLoadsMustDeclareTheTag(a: Tag, nested: set<Tag>)
    ensures (exists es :: MissesBump(es, a, nested)) <==> a !in nested
  {
    if es :| MissesBump(es, a, nested) {
      var tier, key, now, read :|
        var s := Run(INIT, es);
        var hit := TierGet(TierOf(s, tier), key, now);
        && hit.Some? && a in hit.value.versions
        && read in hit.value.sources && read.fence == nested && Ver(read.at, a) < Ver(s.done, a);
      HitIsFresh(es, tier, key, now);
    }
    if a !in nested {
      var es := UndeclaredTagRun(a, nested);
      assert MissesBump(es, a, nested);
    }
  }

  /** A hit after the run holds a read, by a computation that declared `t`, made before a completed bump of `t`. */
  ghost predicate StaleFor(es: seq<Event>, t: Tag) {
    exists tier, key, now, read ::
      var s := Run(INIT, es);
      var hit := TierGet(TierOf(s, tier), key, now);
      hit.Some? && read in hit.value.sources && t in read.fence && Ver(read.at, t) < Ver(s.done, t)
  }

  lemma FenceDuringBump(t: Tag) returns (s: State, es: seq<Event>)
    ensures s == Run(INIT, es) && OverlapsOnly(es, {t})
    ensures s.local == INIT.local && s.done == map[] && s.bumping == map[t := [1]] && s.shared.counters == map[t := 1]
    ensures s.computations == [Computation("k", {t}, true, Computing, Snapshot(map[t := 1], false), {})]
  {
    s, es := INIT, [];
    assert InFlight(s, t) + [1] == [1];
    s, es := Extend(s, es, BumpShared(t, Up), {t});
    assert s.bumping == map[t := [1]] && s.shared.counters == map[t := 1];
    s, es := Extend(s, es, Lead("k", {t}, true), {t});
    s, es := Extend(s, es, Fence(0, Up), {t});
    assert s.computations[0].deps == Snapshot(map[t := 1], false);
  }

  lemma ReadBetweenBumps(t: Tag, read: Read) returns (s: State, es: seq<Event>)
    requires read == Read({t}, map[t := 1])
    ensures s == Run(INIT, es) && OverlapsOnly(es, {t})
    ensures s.local == INIT.local && s.done == map[] && s.bumping == map[t := [1, 2]]
    ensures s.computations == [Computation("k", {t}, true, Computing, Snapshot(map[t := 1], false), {read})]
  {
    s, es := FenceDuringBump(t);
    s, es := Extend(s, es, SourceRead(0), {t});
    assert s.computations[0].sources == {read};
    s, es := Extend(s, es, BumpShared(t, Up), {t});
    assert s.bumping == map[t := [1] + [2]];
    assert [1] + [2] == [1, 2];
  }

  lemma ReturnAfterSecondBump(t: Tag, read: Read, w: Write) returns (s: State, es: seq<Event>)
    requires read == Read({t}, map[t := 1])
    requires w == Write(Local, "k", Record("k", {read}, map[t := 1], 9, 0), 9)
    ensures s == Run(INIT, es) && OverlapsOnly(es, {t})
    ensures s.done == map[t := 2] && s.local.counters == map[t := 1] && w in s.writes
  {
    s, es := ReadBetweenBumps(t, read);
    s, es := Extend(s, es, BumpLocal(t, 1), {t});
    assert s.done == map[t := 2] && s.local.counters == map[t := 1];
    s, es := Extend(s, es, Return(0, true, 9, 9), {t});
  }

  /** For every tag there is a run, overlapping bumps of that tag only, after which the second bump has returned and
      the local tier still serves an entry fenced by the version of the first. */
  lemma OverlappingBumpsLeak(t: Tag) returns (es: seq<Event>)
    ensures OverlapsOnly(es, {t}) && StaleFor(es, t)
    ensures
      var s := Run(INIT, es);
      var hit := TierGet(s.local, "k", 0);
      hit.Some? && hit.value.versions == map[t := 1] && s.done == map[t := 2]
  {
    var read := Read({t}, map[t := 1]);
    var w := Write(Local, "k", Record("k", {read}, map[t := 1], 9, 0), 9);
    var s;
    s, es := ReturnAfterSecondBump(t, read, w);
    s, es := Extend(s, es, Apply(w, 0, 9), {t});
    assert s.done == map[t := 2];
    var hit := TierGet(TierOf(s, Local), "k", 0);
    assert hit == Some(w.record.(expiresAt := 9)) && read in hit.value.sources;
    assert Ver(read.at, t) < Ver(s.done, t);
  }

  /** Overlap makes a tag's hits stale, and nothing else does: where bumps overlap for the tags in `loose` only, some
      run serves a read that misses a completed bump of `t` exactly when `t` is one of them. */
  lemma OnlyOverlapLeaks(t: Tag, loose: set<Tag>)
    ensures (exists es :: OverlapsOnly(es, loose) && StaleFor(es, t)) <==> t in loose
  {
    if es :| OverlapsOnly(es, loose) && StaleFor(es, t) {
      var tier, key, now, read :|
        var s := Run(INIT, es);
        var hit := TierGet(TierOf(s, tier), key, now);
        hit.Some? && read in hit.value.sources && t in read.fence && Ver(read.at, t) < Ver(s.done, t);
      HitIsFresh(es, tier, key, now);
    }
    if t in loose {
      var es := OverlappingBumpsLeak(t);
      assert OverlapsOnly(es, loose) && StaleFor(es, t);
    }
  }
}
