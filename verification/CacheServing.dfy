/** What the cache serves: only what a computation returned as storable, and that for as long as it may be. */
module CacheServing {
  import opened Wrappers
  import opened Dependencies
  import opened Store
  import opened CacheCoherence

  // ---- Only what may be stored is served ----

  /** At event `i` a cached computation of the record's key, with dependencies that may be relied on, returned storable
      bytes: those of the record. */
  ghost predicate ReturnedAt(es: seq<Event>, i: nat, r: Record) {
    && i < |es| && es[i].Return? && es[i].storable && es[i].freshUntil == r.freshUntil
    && var cs := Run(INIT, es[..i]).computations;
    && es[i].c < |cs|
    && var comp := cs[es[i].c];
       && comp.cached && comp.phase == Computing && comp.key == r.key && !comp.deps.isUnsafe
       && comp.deps.versions == r.versions && comp.sources == r.sources
  }

  ghost predicate Returned(es: seq<Event>, r: Record) {
    exists i: nat :: ReturnedAt(es, i, r)
  }

  ghost predicate AllReturned(es: seq<Event>) {
    var s := Run(INIT, es);
    && (forall w :: w in s.writes ==> Returned(es, w.record))
    && (forall k :: k in s.local.entries ==> Returned(es, s.local.entries[k]))
    && (forall k :: k in s.shared.entries ==> Returned(es, s.shared.entries[k]))
  }

  lemma {:induction false} RunSnoc(s: State, es: seq<Event>, e: Event)
    ensures Run(s, es + [e]) == Next(Run(s, es), e)
    decreases |es|
  {
    if es == [] {
      assert es + [e] == [e] && [e][1..] == [];
    } else {
      assert (es + [e])[1..] == es[1..] + [e];
      RunSnoc(Next(s, es[0]), es[1..], e);
    }
  }

  lemma ReturnedStays(es: seq<Event>, e: Event, r: Record, r': Record)
    requires Returned(es, r) && r' == r.(expiresAt := r'.expiresAt)
    ensures Returned(es + [e], r')
  {
    var i: nat :| ReturnedAt(es, i, r);
    assert (es + [e])[..i] == es[..i];
    assert ReturnedAt(es + [e], i, r');
  }

  /** Where the writes and entries after a step come from. */
  ghost predicate Old(s: State, r: Record) {
    || (exists w :: w in s.writes && r == w.record.(expiresAt := r.expiresAt))
    || (exists k :: k in s.local.entries && r == s.local.entries[k].(expiresAt := r.expiresAt))
    || (exists k :: k in s.shared.entries && r == s.shared.entries[k].(expiresAt := r.expiresAt))
  }

  lemma OldReturned(es: seq<Event>, e: Event, r: Record)
    requires AllReturned(es) && Old(Run(INIT, es), r)
    ensures Returned(es + [e], r)
  {
    var s := Run(INIT, es);
    if w :| w in s.writes && r == w.record.(expiresAt := r.expiresAt) {
      ReturnedStays(es, e, w.record, r);
    } else if k :| k in s.local.entries && r == s.local.entries[k].(expiresAt := r.expiresAt) {
      ReturnedStays(es, e, s.local.entries[k], r);
    } else {
      var k :| k in s.shared.entries && r == s.shared.entries[k].(expiresAt := r.expiresAt);
      ReturnedStays(es, e, s.shared.entries[k], r);
    }
  }

  lemma AppliedIsOld(s: State, w: Write, now: int, kept: int, k: Key)
    ensures
      var r := ApplyStep(s, w, now, kept);
      && (k in r.local.entries ==> Old(s, r.local.entries[k]))
      && (k in r.shared.entries ==> Old(s, r.shared.entries[k]))
  {
  }

  lemma OnlyApplyStores(s: State, e: Event, k: Key)
    requires !e.Apply?
    ensures k in Next(s, e).local.entries ==> k in s.local.entries && Next(s, e).local.entries[k] == s.local.entries[k]
    ensures k in Next(s, e).shared.entries ==>
              k in s.shared.entries && Next(s, e).shared.entries[k] == s.shared.entries[k]
  {
  }

  lemma EntriesAreOld(s: State, e: Event, k: Key)
    ensures k in Next(s, e).local.entries ==> Old(s, Next(s, e).local.entries[k])
    ensures k in Next(s, e).shared.entries ==> Old(s, Next(s, e).shared.entries[k])
  {
    if e.Apply? { AppliedIsOld(s, e.write, e.now, e.kept, k); } else { OnlyApplyStores(s, e, k); }
  }

  lemma WritesAreOld(s: State, e: Event, w: Write)
    requires w in Next(s, e).writes && !e.Return?
    ensures Old(s, w.record)
  {
  }

  lemma NewWriteReturned(es: seq<Event>, e: Event, w: Write)
    requires e.Return? && w in Next(Run(INIT, es), e).writes && w !in Run(INIT, es).writes
    ensures Returned(es + [e], w.record)
  {
    assert (es + [e])[..|es|] == es;
    assert ReturnedAt(es + [e], |es|, w.record);
  }

  lemma {:induction false} EverythingWasReturned(es: seq<Event>)
    ensures AllReturned(es)
    decreases |es|
  {
    if es != [] {
      var before, e := es[..|es| - 1], es[|es| - 1];
      assert before + [e] == es;
      EverythingWasReturned(before);
      RunSnoc(INIT, before, e);
      NextReturned(before, e);
    }
  }

  lemma NextReturned(before: seq<Event>, e: Event)
    requires AllReturned(before) && Run(INIT, before + [e]) == Next(Run(INIT, before), e)
    ensures AllReturned(before + [e])
  {
    var s := Run(INIT, before);
    var s' := Next(s, e);
    forall w | w in s'.writes ensures Returned(before + [e], w.record) {
      if w in s.writes {
        ReturnedStays(before, e, w.record, w.record);
      } else if e.Return? {
        NewWriteReturned(before, e, w);
      } else {
        WritesAreOld(s, e, w);
        OldReturned(before, e, w.record);
      }
    }
    forall k | k in s'.local.entries ensures Returned(before + [e], s'.local.entries[k]) {
      EntriesAreOld(s, e, k);
      OldReturned(before, e, s'.local.entries[k]);
    }
    forall k | k in s'.shared.entries ensures Returned(before + [e], s'.shared.entries[k]) {
      EntriesAreOld(s, e, k);
      OldReturned(before, e, s'.shared.entries[k]);
    }
  }

  /** Whatever a tier serves was returned as storable by a cached computation of its key, its dependencies known. */
  lemma HitWasStorable(es: seq<Event>, tier: TierId, key: Key, now: int)
    requires TierGet(TierOf(Run(INIT, es), tier), key, now).Some?
    ensures
      var r := TierGet(TierOf(Run(INIT, es), tier), key, now).value;
      r.key == key && now < r.expiresAt && Returned(es, r)
  {
    EverythingWasReturned(es);
    HitIsFresh(es, tier, key, now);
  }

  // ---- And it is served ----

  lemma {:induction false} WritesStay(s: State, es: seq<Event>)
    ensures s.writes <= Run(s, es).writes
    decreases |es|
  {
    if es != [] {
      WritesStayOnce(s, es[0]);
      WritesStay(Next(s, es[0]), es[1..]);
    }
  }

  lemma WritesStayOnce(s: State, e: Event)
    ensures s.writes <= Next(s, e).writes
  {
  }

  /** A storable fill, however late its write is performed, is served by that tier for the lifetime granted, exactly if
      the counters of all its dependencies still stand there; otherwise the write changes nothing. */
  lemma FillIsServedIff(s: State, c: nat, freshUntil: int, ttl: int, mid: seq<Event>, tier: TierId, now: int, kept: int,
                        later: int)
    requires InPhase(s, c, Computing) && s.computations[c].cached && !s.computations[c].deps.isUnsafe && kept <= ttl
    ensures
      var comp := s.computations[c];
      var record := Record(comp.key, comp.sources, comp.deps.versions, freshUntil, 0);
      var s2 := Run(Next(s, Return(c, true, freshUntil, ttl)), mid);
      var s3 := Next(s2, Apply(Write(tier, comp.key, record, ttl), now, kept));
      if forall t :: t in record.versions ==> record.versions[t] == Ver(TierOf(s2, tier).counters, t)
      then TierGet(TierOf(s3, tier), comp.key, later)
           == if later < now + kept then Some(record.(expiresAt := now + kept)) else None
      else s3 == s2
  {
    WritesStay(Next(s, Return(c, true, freshUntil, ttl)), mid);
  }

  /** What may not be stored, or rests on dependencies that are not known, is written nowhere. */
  lemma UnstorableIsNotWritten(s: State, c: nat, storable: bool, freshUntil: int, ttl: int)
    requires InPhase(s, c, Computing)
    requires !storable || !s.computations[c].cached || s.computations[c].deps.isUnsafe
    ensures Next(s, Return(c, storable, freshUntil, ttl)).writes == s.writes
  {
  }
}
