/** The `Store` contract of one cache tier, and the two-tier store composed from it. */
module Store {
  import opened Wrappers
  import opened Dependencies

  type Key = string

  /** One read of application data, made by a computation that declared the tags `fence`,
      at a moment when the shared tag counters were `at`. */
  datatype Read = Read(fence: set<Tag>, at: Versions)

  /** A cache entry. `sources` stands for its bytes: every read they were computed from. */
  datatype Record = Record(key: Key, sources: set<Read>, versions: Versions, freshUntil: int, expiresAt: int)

  datatype Tier = Tier(counters: Versions, entries: map<Key, Record>)

  datatype StoreError = StaleWrite | Unreachable

  /** A tag absent from a version map has version 0. */
  function Ver(counters: Versions, t: Tag): int {
    if t in counters then counters[t] else 0
  }

  predicate Current(tier: Tier, versions: Versions) {
    forall t :: t in versions ==> versions[t] == Ver(tier.counters, t)
  }

  /** A missing, expired or tag-invalidated entry is a miss. */
  function TierGet(tier: Tier, key: Key, now: int): Option<Record> {
    if key in tier.entries && now < tier.entries[key].expiresAt && Current(tier, tier.entries[key].versions)
    then Some(tier.entries[key]) else None
  }

  /** The write-time compare-and-set. The entry lives `kept` from now, whatever expiry the caller put in it. */
  function TierSet(tier: Tier, key: Key, record: Record, now: int, kept: int): Tier {
    if Current(tier, record.versions) then
      tier.(entries := tier.entries[key := record.(expiresAt := now + kept)])
    else tier
  }

  function TierBump(tier: Tier, t: Tag): Tier {
    tier.(counters := tier.counters[t := Ver(tier.counters, t) + 1])
  }

  function TierVersions(tier: Tier, tags: set<Tag>): Versions {
    map t | t in tags :: Ver(tier.counters, t)
  }

  /** A local write-back of a shared hit: asked for at `now` with the lifetime that is left, performed at `setNow`, and
      granted at most `kept`. */
  function WrittenBack(tier: Tier, key: Key, record: Record, now: int, setNow: int, kept: int): Tier {
    var ttl := record.expiresAt - now;
    TierSet(tier, key, record, setNow, if kept < ttl then kept else ttl)
  }

  /** The copy never outlives the shared entry, whatever the local tier grants, exactly when no time passes between
      taking what is left and counting it. */
  lemma WriteBackWithinIff(tier: Tier, key: Key, record: Record, now: int, setNow: int)
    requires Current(tier, record.versions)
    ensures (forall kept :: key in WrittenBack(tier, key, record, now, setNow, kept).entries &&
               WrittenBack(tier, key, record, now, setNow, kept).entries[key].expiresAt <= record.expiresAt)
            <==> setNow <= now
  {
    var longest := WrittenBack(tier, key, record, now, setNow, record.expiresAt - now);
    assert longest.entries[key].expiresAt == setNow + (record.expiresAt - now);
  }

  // ---- A tier over time ----

  datatype TierOp = Put(key: Key, record: Record, now: int, kept: int) | Bump(tag: Tag) | Remove(key: Key)

  function TierNext(tier: Tier, op: TierOp): Tier {
    match op
    case Put(key, record, now, kept) => TierSet(tier, key, record, now, kept)
    case Bump(tag) => TierBump(tier, tag)
    case Remove(key) => tier.(entries := tier.entries - {key})
  }

  function TierRun(tier: Tier, ops: seq<TierOp>): Tier
    decreases |ops|
  {
    if ops == [] then tier else TierRun(TierNext(tier, ops[0]), ops[1..])
  }

  /** No operation bumps one of the tags. */
  ghost predicate Unbumped(ops: seq<TierOp>, tags: set<Tag>) {
    forall op :: op in ops && op.Bump? ==> op.tag !in tags
  }

  ghost predicate LeavesKey(ops: seq<TierOp>, key: Key) {
    forall op :: op in ops ==> op.Bump? || op.key != key
  }

  /** Counters only grow, and stand still exactly where nothing bumps them. */
  lemma {:induction false} CountersGrow(tier: Tier, ops: seq<TierOp>, tag: Tag)
    ensures Ver(tier.counters, tag) <= Ver(TierRun(tier, ops).counters, tag)
    ensures Ver(tier.counters, tag) == Ver(TierRun(tier, ops).counters, tag) <==> Unbumped(ops, {tag})
    decreases |ops|
  {
    if ops != [] {
      CountersGrow(TierNext(tier, ops[0]), ops[1..], tag);
      assert forall op :: op in ops <==> op == ops[0] || op in ops[1..];
    }
  }

  lemma {:induction false} EntryStays(tier: Tier, ops: seq<TierOp>, key: Key)
    requires LeavesKey(ops, key) && key in tier.entries
    ensures key in TierRun(tier, ops).entries && TierRun(tier, ops).entries[key] == tier.entries[key]
    decreases |ops|
  {
    if ops != [] {
      assert ops[0] in ops && forall op :: op in ops[1..] ==> op in ops;
      EntryStays(TierNext(tier, ops[0]), ops[1..], key);
    }
  }

  lemma VersionsStand(tier: Tier, ops: seq<TierOp>, versions: Versions)
    requires forall t :: t in versions ==> versions[t] == if t in tier.counters then tier.counters[t] else 0
    ensures Current(TierRun(tier, ops), versions) <==> Unbumped(ops, versions.Keys)
  {
    forall t | t in versions
      ensures versions[t] == Ver(TierRun(tier, ops).counters, t) <==> Unbumped(ops, {t})
    {
      CountersGrow(tier, ops, t);
    }
    if forall t :: t in versions ==> Unbumped(ops, {t}) {
      forall op | op in ops && op.Bump? ensures op.tag !in versions.Keys {
        assert op.tag in versions ==> Unbumped(ops, {op.tag});
      }
    }
  }

  /** What was stored under current versions is served until its lifetime is over or one of its tags is bumped, and not
      a moment longer. */
  lemma StoredIsServedIff(tier: Tier, key: Key, record: Record, now: int, kept: int, ops: seq<TierOp>, later: int)
    requires forall t :: t in record.versions ==>
               record.versions[t] == if t in tier.counters then tier.counters[t] else 0
    requires LeavesKey(ops, key)
    ensures
      TierGet(TierRun(TierSet(tier, key, record, now, kept), ops), key, later) ==
      if later < now + kept && Unbumped(ops, record.versions.Keys) then Some(record.(expiresAt := now + kept)) else None
  {
    var stored := TierSet(tier, key, record, now, kept);
    EntryStays(stored, ops, key);
    VersionsStand(stored, ops, record.versions);
  }

  /** A write fenced by versions read before is taken exactly when none of the tags was bumped in between. */
  lemma FencedWriteIff(tier: Tier, tags: set<Tag>, ops: seq<TierOp>, key: Key, record: Record, now: int, kept: int)
    requires record.versions == TierVersions(tier, tags)
    ensures
      var after := TierRun(tier, ops);
      TierSet(after, key, record, now, kept) ==
      if Unbumped(ops, tags) then after.(entries := after.entries[key := record.(expiresAt := now + kept)]) else after
  {
    VersionsStand(tier, ops, record.versions);
    assert record.versions.Keys == tags;
  }

  /** An outcome the environment chooses: the tier answers, or its transport fails. */
  datatype Link = Up | Down

  /** L1 in front of L2, each possibly absent. */
  class TieredStore {
    var l1: Option<Tier>
    var l2: Option<Tier>

    constructor (l1: Option<Tier>, l2: Option<Tier>)
      ensures this.l1 == l1 && this.l2 == l2
    {
      this.l1 := l1;
      this.l2 := l2;
    }

    /** `now` is when the lookup and the remaining lifetime are taken, `setNow` when L1 performs the write-back.
        `kept` is the lifetime L1 grants, at most the one asked for. */
    method Get(key: Key, now: int, setNow: int, kept: int, link1: Link, link2: Link)
      returns (result: Result<Option<Record>, StoreError>)
      modifies this
      ensures l2 == old(l2)
      ensures
        var hit1 := if old(l1).Some? && link1.Up? then TierGet(old(l1.value), key, now) else None;
        var hit2 := if old(l2).Some? && link2.Up? then TierGet(old(l2.value), key, now) else None;
        // A local hit is served without asking L2 and changes nothing.
        && (hit1.Some? ==> result == Ok(hit1) && l1 == old(l1))
        // An unreachable L2 is an error, an absent L2 is a miss.
        && (hit1.None? && old(l2).Some? && link2.Down? ==> result == Err(Unreachable) && l1 == old(l1))
        && (hit1.None? && !(old(l2).Some? && link2.Down?) ==> result == Ok(hit2))
        && (hit1.None? && hit2.None? ==> l1 == old(l1))
        // A shared hit is written back, under L1's own compare-and-set.
        && (hit1.None? && hit2.Some? && old(l1).Some? ==>
              && l1 == Some(if link1.Up? then WrittenBack(old(l1.value), key, hit2.value, now, setNow, kept)
                            else old(l1.value)))
        // The written-back copy outlives the L2 entry by at most the time L1 took to start counting.
        && (hit1.None? && hit2.Some? && old(l1).Some? && link1.Up? && Current(old(l1.value), hit2.value.versions) ==>
              && key in l1.value.entries
              && l1.value.entries[key].expiresAt <= hit2.value.expiresAt + (setNow - now))
        && (old(l1).None? ==> l1.None?)
    {
      if l1.Some? && link1.Up? {
        var hit := TierGet(l1.value, key, now);
        if hit.Some? {
          return Ok(hit);
        }
      }
      if l2.None? {
        return Ok(None);
      }
      if link2.Down? {
        return Err(Unreachable);
      }
      var hit := TierGet(l2.value, key, now);
      if hit.Some? && l1.Some? {
        var ttl := hit.value.expiresAt - now;
        if ttl > 0 && link1.Up? {
          l1 := Some(TierSet(l1.value, key, hit.value, setNow, if kept < ttl then kept else ttl));
        }
      }
      return Ok(hit);
    }

    /** L1 first, then L2, each under its own compare-and-set; both are attempted whatever the first answers. */
    method Set(key: Key, record: Record, now: int, kept1: int, kept2: int, link1: Link, link2: Link)
      returns (errors: seq<StoreError>)
      modifies this
      ensures l1 == if old(l1).Some? && link1.Up?
                    then Some(TierSet(old(l1.value), key, record, now, kept1)) else old(l1)
      ensures l2 == if old(l2).Some? && link2.Up?
                    then Some(TierSet(old(l2.value), key, record, now, kept2)) else old(l2)
      ensures errors == [] <==>
              && (old(l1).Some? ==> link1.Up? && Current(old(l1.value), record.versions))
              && (old(l2).Some? ==> link2.Up? && Current(old(l2.value), record.versions))
    {
      errors := [];
      if l1.Some? {
        if link1.Down? {
          errors := errors + [Unreachable];
        } else {
          if !Current(l1.value, record.versions) { errors := errors + [StaleWrite]; }
          l1 := Some(TierSet(l1.value, key, record, now, kept1));
        }
      }
      if l2.Some? {
        if link2.Down? {
          errors := errors + [Unreachable];
        } else {
          if !Current(l2.value, record.versions) { errors := errors + [StaleWrite]; }
          l2 := Some(TierSet(l2.value, key, record, now, kept2));
        }
      }
    }

    /** The shared counters are the fence when there is a shared tier. */
    method TagVersions(tags: set<Tag>, link1: Link, link2: Link) returns (result: Result<Versions, StoreError>)
      ensures l2.Some? && link2.Up? ==> result == Ok(TierVersions(l2.value, tags))
      ensures l2.Some? && link2.Down? ==> result == Err(Unreachable)
      ensures l2.None? && l1.Some? && link1.Up? ==> result == Ok(TierVersions(l1.value, tags))
      ensures l2.None? && l1.None? ==> result == Ok(map[])
    {
      if l2.Some? {
        return if link2.Up? then Ok(TierVersions(l2.value, tags)) else Err(Unreachable);
      }
      if l1.Some? {
        return if link1.Up? then Ok(TierVersions(l1.value, tags)) else Err(Unreachable);
      }
      return Ok(map[]);
    }

    /** L2 first, then L1. After an error-free return no tier serves a record fenced by an older version of the tag. */
    method BumpTag(tag: Tag, link1: Link, link2: Link) returns (errors: seq<StoreError>)
      modifies this
      ensures l1 == if old(l1).Some? && link1.Up? then Some(TierBump(old(l1.value), tag)) else old(l1)
      ensures l2 == if old(l2).Some? && link2.Up? then Some(TierBump(old(l2.value), tag)) else old(l2)
      ensures errors == [] ==>
                forall key, now ::
                  && (l1.Some? && TierGet(l1.value, key, now).Some? ==>
                        var r := TierGet(l1.value, key, now).value;
                        tag in r.versions ==> r.versions[tag] == Ver(old(l1.value).counters, tag) + 1)
                  && (l2.Some? && TierGet(l2.value, key, now).Some? ==>
                        var r := TierGet(l2.value, key, now).value;
                        tag in r.versions ==> r.versions[tag] == Ver(old(l2.value).counters, tag) + 1)
    {
      errors := [];
      if l2.Some? {
        if link2.Up? { l2 := Some(TierBump(l2.value, tag)); } else { errors := errors + [Unreachable]; }
      }
      if l1.Some? {
        if link1.Up? { l1 := Some(TierBump(l1.value, tag)); } else { errors := errors + [Unreachable]; }
      }
    }
  }
}
