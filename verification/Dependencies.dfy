/** Dependency-version collection: `dependencies.merge` and `dependencies.snapshot`. */
module Dependencies {

  type Tag = string
  type Versions = map<Tag, int>

  /** What one computation observed: a version per tag, and whether it saw two different versions. */
  datatype Snapshot = Snapshot(versions: Versions, isUnsafe: bool)

  const EMPTY := Snapshot(map[], false)

  predicate Conflict(a: Versions, b: Versions) {
    exists t :: t in a && t in b && a[t] != b[t]
  }

  /** The version seen first is kept; a different later one only marks the collector unsafe. */
  function MergeSnapshot(d: Snapshot, s: Snapshot): Snapshot {
    Snapshot(s.versions + d.versions, d.isUnsafe || s.isUnsafe || Conflict(d.versions, s.versions))
  }

  function MergeAll(ss: seq<Snapshot>): Snapshot {
    if ss == [] then EMPTY else MergeSnapshot(MergeAll(ss[..|ss| - 1]), ss[|ss| - 1])
  }

  /** Every snapshot is safe and no two of them disagree about a tag. */
  ghost predicate Agree(ss: seq<Snapshot>) {
    && (forall i :: 0 <= i < |ss| ==> !ss[i].isUnsafe)
    && (forall i, j :: 0 <= i < |ss| && 0 <= j < |ss| ==> !Conflict(ss[i].versions, ss[j].versions))
  }

  /** `versions` holds exactly the tags of the snapshots, each with a version some snapshot gave it. */
  ghost predicate IsUnion(versions: Versions, ss: seq<Snapshot>) {
    && (forall i, t :: 0 <= i < |ss| && t in ss[i].versions ==> t in versions)
    && (forall t :: t in versions ==>
          exists i :: 0 <= i < |ss| && t in ss[i].versions && ss[i].versions[t] == versions[t])
  }

  lemma {:induction false} MergeAllIsUnion(ss: seq<Snapshot>)
    ensures IsUnion(MergeAll(ss).versions, ss)
  {
    if ss != [] {
      var init, last := ss[..|ss| - 1], ss[|ss| - 1];
      MergeAllIsUnion(init);
      var before := MergeAll(init).versions;
      forall t | t in MergeAll(ss).versions
        ensures exists i :: 0 <= i < |ss| && t in ss[i].versions && ss[i].versions[t] == MergeAll(ss).versions[t]
      {
        if t in before {
          var i :| 0 <= i < |init| && t in init[i].versions && init[i].versions[t] == before[t];
          assert ss[i] == init[i];
        } else {
          assert t in ss[|ss| - 1].versions;
        }
      }
      forall i, t | 0 <= i < |ss| && t in ss[i].versions
        ensures t in MergeAll(ss).versions
      {
        if i < |init| { assert init[i] == ss[i]; }
      }
    }
  }

  lemma AgreePrefix(init: seq<Snapshot>, last: Snapshot)
    ensures Agree(init + [last]) ==> Agree(init) && !last.isUnsafe && !Conflict(MergeAll(init).versions, last.versions)
  {
    var ss := init + [last];
    if Agree(ss) {
      forall i, j | 0 <= i < |init| && 0 <= j < |init| ensures !Conflict(init[i].versions, init[j].versions) {
        assert !Conflict(ss[i].versions, ss[j].versions);
      }
      assert forall i :: 0 <= i < |init| ==> init[i] == ss[i];
      assert last == ss[|init|];
      MergeAllIsUnion(init);
      var before := MergeAll(init).versions;
      forall t | t in before && t in last.versions ensures before[t] == last.versions[t] {
        var i :| 0 <= i < |init| && t in init[i].versions && init[i].versions[t] == before[t];
        assert !Conflict(ss[i].versions, ss[|init|].versions);
      }
    }
  }

  lemma AgreeExtended(init: seq<Snapshot>, last: Snapshot)
    requires Agree(init) && !last.isUnsafe && !Conflict(MergeAll(init).versions, last.versions)
    ensures Agree(init + [last])
  {
    var ss := init + [last];
    forall i, j | 0 <= i < |ss| && 0 <= j < |ss| ensures !Conflict(ss[i].versions, ss[j].versions) {
      if i < |init| && j < |init| {
        assert !Conflict(init[i].versions, init[j].versions);
      } else if i < |init| || j < |init| {
        AgreeingMember(init, if i < |init| then i else j, last);
      }
    }
  }

  /** A collector ends safe exactly when everything merged into it was safe and consistent. */
  lemma {:induction false} SafeIffAgree(ss: seq<Snapshot>)
    ensures !MergeAll(ss).isUnsafe <==> Agree(ss)
  {
    if ss != [] {
      var init, last := ss[..|ss| - 1], ss[|ss| - 1];
      assert ss == init + [last];
      SafeIffAgree(init);
      AgreePrefix(init, last);
      if !MergeAll(ss).isUnsafe {
        AgreeExtended(init, last);
      }
    }
  }

  lemma AgreeingMember(init: seq<Snapshot>, k: nat, last: Snapshot)
    requires Agree(init) && k < |init|
    requires !Conflict(MergeAll(init).versions, last.versions)
    ensures !Conflict(init[k].versions, last.versions) && !Conflict(last.versions, init[k].versions)
  {
    MergeAllIsUnion(init);
    forall t | t in init[k].versions && t in last.versions ensures init[k].versions[t] == last.versions[t] {
      var m := MergeAll(init).versions;
      assert t in m;
      var i :| 0 <= i < |init| && t in init[i].versions && init[i].versions[t] == m[t];
      assert !Conflict(init[i].versions, init[k].versions);
    }
  }

  /** The outcome does not depend on the order in which concurrent nested loads are merged. */
  lemma MergeOrderIrrelevant(xs: seq<Snapshot>, ys: seq<Snapshot>)
    requires forall s :: s in xs <==> s in ys
    ensures MergeAll(xs).isUnsafe == MergeAll(ys).isUnsafe
    ensures MergeAll(xs).versions.Keys == MergeAll(ys).versions.Keys
    ensures !MergeAll(xs).isUnsafe ==> MergeAll(xs) == MergeAll(ys)
  {
    SafeIffAgree(xs);
    SafeIffAgree(ys);
    AgreeBySet(xs, ys);
    AgreeBySet(ys, xs);
    UnionKeys(xs, ys);
    UnionKeys(ys, xs);
    if Agree(xs) {
      var a, b := MergeAll(xs).versions, MergeAll(ys).versions;
      forall t | t in a ensures t in b && a[t] == b[t] {
        SameVersion(xs, ys, t);
      }
      assert a == b;
    }
  }

  lemma SameVersion(xs: seq<Snapshot>, ys: seq<Snapshot>, t: Tag)
    requires Agree(xs) && forall s :: s in ys ==> s in xs
    requires t in MergeAll(xs).versions && t in MergeAll(ys).versions
    ensures MergeAll(xs).versions[t] == MergeAll(ys).versions[t]
  {
    MergeAllIsUnion(xs);
    MergeAllIsUnion(ys);
    var i :| 0 <= i < |xs| && t in xs[i].versions && xs[i].versions[t] == MergeAll(xs).versions[t];
    var j :| 0 <= j < |ys| && t in ys[j].versions && ys[j].versions[t] == MergeAll(ys).versions[t];
    assert ys[j] in xs;
    var k :| 0 <= k < |xs| && xs[k] == ys[j];
    assert !Conflict(xs[i].versions, xs[k].versions);
  }

  lemma AgreeBySet(xs: seq<Snapshot>, ys: seq<Snapshot>)
    requires forall s :: s in ys ==> s in xs
    ensures Agree(xs) ==> Agree(ys)
  {
    if Agree(xs) {
      forall i, j | 0 <= i < |ys| && 0 <= j < |ys| ensures !Conflict(ys[i].versions, ys[j].versions) {
        assert ys[i] in xs && ys[j] in xs;
      }
      forall i | 0 <= i < |ys| ensures !ys[i].isUnsafe {
        assert ys[i] in xs;
      }
    }
  }

  lemma UnionKeys(xs: seq<Snapshot>, ys: seq<Snapshot>)
    requires forall s :: s in xs ==> s in ys
    ensures MergeAll(xs).versions.Keys <= MergeAll(ys).versions.Keys
  {
    MergeAllIsUnion(xs);
    MergeAllIsUnion(ys);
    forall t | t in MergeAll(xs).versions ensures t in MergeAll(ys).versions {
      var i :| 0 <= i < |xs| && t in xs[i].versions;
      assert xs[i] in ys;
      var j :| 0 <= j < |ys| && ys[j] == xs[i];
      assert t in ys[j].versions;
    }
  }

  /** The mutex-guarded collector one running computation owns. */
  class Collector {
    var versions: Versions
    var isUnsafe: bool

    function View(): Snapshot
      reads this
    {
      Snapshot(versions, isUnsafe)
    }

    constructor ()
      ensures View() == EMPTY
    {
      versions := map[];
      isUnsafe := false;
    }

    method Merge(snapshot: Snapshot)
      modifies this
      ensures View() == MergeSnapshot(old(View()), snapshot)
    {
      isUnsafe := isUnsafe || snapshot.isUnsafe;
      var rest := snapshot.versions.Keys;
      while rest != {}
        invariant rest <= snapshot.versions.Keys
        invariant versions.Keys == old(versions).Keys + (snapshot.versions.Keys - rest)
        invariant forall t :: t in versions ==>
                                versions[t] == if t in old(versions) then old(versions)[t] else snapshot.versions[t]
        invariant isUnsafe == (old(isUnsafe) || snapshot.isUnsafe ||
                               exists t :: t in snapshot.versions.Keys - rest && t in old(versions) &&
                                           old(versions)[t] != snapshot.versions[t])
        decreases rest
      {
        var tag :| tag in rest;
        var version := snapshot.versions[tag];
        ghost var before := rest;
        rest := rest - {tag};
        assert snapshot.versions.Keys - rest == (snapshot.versions.Keys - before) + {tag};
        if tag in versions && versions[tag] != version {
          isUnsafe := true;
        } else {
          versions := versions[tag := version];
        }
      }
      assert snapshot.versions.Keys - rest == snapshot.versions.Keys;
      assert versions == snapshot.versions + old(versions);
    }

    /** A copy that later merges cannot change. */
    method TakeSnapshot() returns (result: Snapshot)
      ensures result == View()
    {
      var copied: Versions := map[];
      var rest := versions.Keys;
      while rest != {}
        invariant rest <= versions.Keys
        invariant copied == map t | t in versions && t !in rest :: versions[t]
        decreases rest
      {
        var tag :| tag in rest;
        rest := rest - {tag};
        copied := copied[tag := versions[tag]];
      }
      assert copied == versions;
      result := Snapshot(copied, isUnsafe);
    }
  }
}
