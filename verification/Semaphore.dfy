/** The weighted FIFO semaphore that bounds concurrent cold loads. */
module Semaphore {
  import opened Lists

  type Id = nat

  datatype Waiter = Waiter(id: Id, n: int)

  /** `held` is the weight each running load was granted; `arrivals` and `granted` are the requests in order. */
  datatype State = State(
    size: int, cur: int, waiters: seq<Waiter>, held: map<Id, int>, arrivals: seq<Id>, granted: seq<Id>)

  function Fresh(size: int): State {
    State(size, 0, [], map[], [], [])
  }

  /** A request is bounded to [1, size] so that even the heaviest load can run, alone. */
  function Clamp(size: int, n: int): int {
    var m := if n < 1 then 1 else n;
    if m > size then size else m
  }

  function Ids(ws: seq<Waiter>): seq<Id> {
    if ws == [] then [] else [ws[0].id] + Ids(ws[1..])
  }

  function Grant(s: State, w: Waiter): State {
    s.(cur := s.cur + w.n, held := s.held[w.id := w.n], granted := s.granted + [w.id])
  }

  function Acquire(s: State, id: Id, n: int): State {
    var arrived := s.(arrivals := s.arrivals + [id]);
    if s.waiters == [] && s.cur + n <= s.size then Grant(arrived, Waiter(id, n))
    else arrived.(waiters := s.waiters + [Waiter(id, n)])
  }

  /** Serve the queue from its head for as long as the head fits. */
  function Serve(s: State): State
    decreases |s.waiters|
  {
    if s.waiters != [] && s.cur + s.waiters[0].n <= s.size
    then Serve(Grant(s, s.waiters[0]).(waiters := s.waiters[1..])) else s
  }

  function Release(s: State, id: Id): State
    requires id in s.held
  {
    Serve(s.(cur := s.cur - s.held[id], held := s.held - {id}))
  }

  datatype Event = Arrive(id: Id, weight: int) | Leave(id: Id)

  /** Each load asks once, with a clamped weight, and releases what it was granted. */
  function Next(s: State, e: Event): State {
    match e
    case Arrive(id, weight) => if id in s.arrivals then s else Acquire(s, id, Clamp(s.size, weight))
    case Leave(id) => if id in s.held then Release(s, id) else s
  }

  function Run(s: State, es: seq<Event>): State
    decreases |es|
  {
    if es == [] then s else Run(Next(s, es[0]), es[1..])
  }

  // ---- What every operation keeps ----

  ghost function Pick(held: map<Id, int>): Id
    requires held != map[]
    ensures Pick(held) in held
  {
    var id :| id in held;
    id
  }

  ghost function Total(held: map<Id, int>): int {
    if held == map[] then 0 else held[Pick(held)] + Total(held - {Pick(held)})
  }

  /** The sum does not depend on the order in which holders are picked. */
  lemma {:induction false} TotalWithout(held: map<Id, int>, id: Id)
    requires id in held
    ensures Total(held) == held[id] + Total(held - {id})
    decreases |held|
  {
    var first := Pick(held);
    if first != id {
      TotalWithout(held - {first}, id);
      TotalWithout(held - {id}, first);
      assert held - {first} - {id} == held - {id} - {first};
    }
  }

  lemma TotalWith(held: map<Id, int>, id: Id, n: int)
    requires id !in held
    ensures Total(held[id := n]) == Total(held) + n
  {
    TotalWithout(held[id := n], id);
    assert held[id := n] - {id} == held;
  }

  /** What holds between any two moments of one operation. */
  ghost predicate Sound(s: State) {
    && s.size >= 1
    && s.cur == Total(s.held) && s.cur <= s.size
    && (forall id :: id in s.held ==> 1 <= s.held[id] <= s.size && id in s.granted)
    && (forall i :: 0 <= i < |s.waiters| ==> 1 <= s.waiters[i].n <= s.size)
    // Requests are granted in arrival order, without overtaking: the ungranted ones are exactly the queue.
    && s.arrivals == s.granted + Ids(s.waiters)
    && Distinct(s.arrivals)
  }

  ghost predicate Inv(s: State) {
    && Sound(s)
    && (s.waiters != [] ==> s.cur + s.waiters[0].n > s.size)
  }

  lemma {:induction false} IdsAppend(a: seq<Waiter>, w: Waiter)
    ensures Ids(a + [w]) == Ids(a) + [w.id]
  {
    if a == [] {
      assert a + [w] == [w];
    } else {
      assert (a + [w])[1..] == a[1..] + [w];
      IdsAppend(a[1..], w);
    }
  }

  lemma GrantHeadKeepsSound(s: State)
    requires Sound(s) && s.waiters != [] && s.cur + s.waiters[0].n <= s.size
    ensures Sound(Grant(s, s.waiters[0]).(waiters := s.waiters[1..]))
  {
    var w := s.waiters[0];
    DistinctParts(s.granted, Ids(s.waiters));
    assert Ids(s.waiters)[0] == w.id;
    assert w.id !in s.held;
    TotalWith(s.held, w.id, w.n);
    assert s.granted + [w.id] + Ids(s.waiters[1..]) == s.granted + ([w.id] + Ids(s.waiters[1..]));
  }

  /** Serving stops exactly when nobody waits or the head does not fit, and it grants a prefix of the queue. */
  lemma {:induction false} ServeFacts(s: State)
    requires Sound(s)
    ensures Inv(Serve(s)) && Serve(s).arrivals == s.arrivals
    ensures |Serve(s).waiters| <= |s.waiters| && Serve(s).waiters == s.waiters[|s.waiters| - |Serve(s).waiters|..]
    ensures forall id :: id in s.held ==> id in Serve(s).held
    decreases |s.waiters|
  {
    if s.waiters != [] && s.cur + s.waiters[0].n <= s.size {
      GrantHeadKeepsSound(s);
      var next := Grant(s, s.waiters[0]).(waiters := s.waiters[1..]);
      ServeFacts(next);
      var r := Serve(next);
      assert next.waiters[|next.waiters| - |r.waiters|..] == s.waiters[|s.waiters| - |r.waiters|..];
    } else {
      assert s.waiters[0..] == s.waiters;
    }
  }

  lemma AcquireKeepsInv(s: State, id: Id, n: int)
    requires Inv(s) && id !in s.arrivals && 1 <= n <= s.size
    ensures Inv(Acquire(s, id, n))
  {
    DistinctSnoc(s.arrivals, id);
    if s.waiters == [] && s.cur + n <= s.size {
      assert id !in s.granted;
      TotalWith(s.held, id, n);
      assert s.granted + [id] + Ids([]) == s.granted + Ids([]) + [id];
    } else {
      IdsAppend(s.waiters, Waiter(id, n));
      assert s.granted + (Ids(s.waiters) + [id]) == s.granted + Ids(s.waiters) + [id];
    }
  }

  lemma ReleaseKeepsInv(s: State, id: Id)
    requires Inv(s) && id in s.held
    ensures Inv(Release(s, id)) && Release(s, id).arrivals == s.arrivals
  {
    TotalWithout(s.held, id);
    ServeFacts(s.(cur := s.cur - s.held[id], held := s.held - {id}));
  }

  /** Whoever leaves holds nothing any more; everyone else keeps what they hold. */
  lemma ReleaseFrees(s: State, id: Id)
    requires Inv(s) && id in s.held
    ensures id !in Release(s, id).held
    ensures forall other :: other in s.held && other != id ==>
              other in Release(s, id).held && Release(s, id).held[other] == s.held[other]
  {
    var left := s.(cur := s.cur - s.held[id], held := s.held - {id});
    DistinctParts(s.granted, Ids(s.waiters));
    TotalWithout(s.held, id);
    ServeGrantsWaiters(left);
    assert id in s.granted;
  }

  /** Serving adds only waiters to the holders, each with the weight it asked for. */
  lemma {:induction false} ServeGrantsWaiters(s: State)
    requires Sound(s)
    ensures forall id :: id in s.held ==> id in Serve(s).held && Serve(s).held[id] == s.held[id]
    ensures forall id :: id in Serve(s).held && id !in s.held ==>
              id in Ids(s.waiters) && exists i :: 0 <= i < |s.waiters| && s.waiters[i] == Waiter(id, Serve(s).held[id])
    decreases |s.waiters|
  {
    if s.waiters != [] && s.cur + s.waiters[0].n <= s.size {
      GrantHeadKeepsSound(s);
      DistinctParts(s.granted, Ids(s.waiters));
      assert Ids(s.waiters)[0] == s.waiters[0].id;
      var next := Grant(s, s.waiters[0]).(waiters := s.waiters[1..]);
      ServeGrantsWaiters(next);
      forall id | id in Serve(s).held && id !in s.held
        ensures id in Ids(s.waiters)
        ensures exists i :: 0 <= i < |s.waiters| && s.waiters[i] == Waiter(id, Serve(s).held[id])
      {
        if id in next.held {
          assert s.waiters[0] == Waiter(id, Serve(s).held[id]);
        } else {
          var i :| 0 <= i < |next.waiters| && next.waiters[i] == Waiter(id, Serve(s).held[id]);
          assert s.waiters[i + 1] == next.waiters[i];
        }
      }
    }
  }

  lemma {:induction false} RunKeepsInv(s: State, es: seq<Event>)
    requires Inv(s)
    ensures Inv(Run(s, es))
    decreases |es|
  {
    if es != [] {
      match es[0] {
        case Arrive(id, weight) =>
          if id !in s.arrivals { AcquireKeepsInv(s, id, Clamp(s.size, weight)); }
        case Leave(id) =>
          if id in s.held { ReleaseKeepsInv(s, id); }
      }
      RunKeepsInv(Next(s, es[0]), es[1..]);
    }
  }

  // ---- What it is for ----

  lemma {:induction false} TotalNonNegative(held: map<Id, int>)
    requires forall id :: id in held ==> 1 <= held[id]
    ensures Total(held) >= |held|
  {
    if held != map[] {
      var id := Pick(held);
      TotalNonNegative(held - {id});
      assert held.Keys == (held - {id}).Keys + {id};
    }
  }

  /** In every reachable state the weight in use is what the running loads hold and stays within the size, grants
      follow arrival order, and whoever waits waits for a load that is still running: no wakeup is ever lost. */
  lemma NoLostWakeup(size: int, es: seq<Event>)
    requires size >= 1
    ensures
      var s := Run(Fresh(size), es);
      && s.size == size && 0 <= s.cur == Total(s.held) <= size
      && s.granted <= s.arrivals
      && (s.waiters != [] ==> s.held != map[] && s.cur + s.waiters[0].n > size)
  {
    RunKeepsInv(Fresh(size), es);
    SizeFixed(Fresh(size), es);
    var s := Run(Fresh(size), es);
    TotalNonNegative(s.held);
    if s.held == map[] { assert Total(s.held) == 0; }
  }

  lemma {:induction false} SizeFixed(s: State, es: seq<Event>)
    ensures Run(s, es).size == s.size
    decreases |es|
  {
    if es != [] {
      if es[0].Leave? && es[0].id in s.held {
        ServeKeepsSize(s.(cur := s.cur - s.held[es[0].id], held := s.held - {es[0].id}));
      }
      SizeFixed(Next(s, es[0]), es[1..]);
    }
  }

  lemma {:induction false} ServeKeepsSize(s: State)
    ensures Serve(s).size == s.size
    decreases |s.waiters|
  {
    if s.waiters != [] && s.cur + s.waiters[0].n <= s.size {
      ServeKeepsSize(Grant(s, s.waiters[0]).(waiters := s.waiters[1..]));
    }
  }

  /** The weight each request is to be charged: what it asked for, at least 1 and at most the size. */
  ghost predicate Charged(size: int, weight: int, n: int) {
    n == if weight < 1 then 1 else if weight > size then size else weight
  }

  /** What every holder and waiter is charged is what its own request in `es` asked for. */
  ghost predicate FairlyCharged(s: State, es: seq<Event>, size: int) {
    && (forall id :: id in s.held ==> ChargedFor(es, size, id, s.held[id]))
    && forall i :: 0 <= i < |s.waiters| ==> ChargedFor(es, size, s.waiters[i].id, s.waiters[i].n)
  }

  ghost predicate ChargedFor(es: seq<Event>, size: int, id: Id, n: int) {
    exists i :: 0 <= i < |es| && es[i].Arrive? && es[i].id == id && Charged(size, es[i].weight, n)
                && forall j :: 0 <= j < i ==> !(es[j].Arrive? && es[j].id == id)
  }

  lemma {:induction false} RunSnoc(s: State, es: seq<Event>, e: Event)
    ensures Run(s, es + [e]) == Next(Run(s, es), e)
    decreases |es|
  {
    if es == [] {
      assert es + [e] == [e] && [e][1..] == [];
    } else {
      assert (es + [e])[1..] == es[1..] + [e];
      RunSnoc(Next(s, es[0]), es[1..], e);
    }
  }

  lemma ChargedStays(es: seq<Event>, e: Event, size: int, id: Id, n: int)
    requires ChargedFor(es, size, id, n)
    ensures ChargedFor(es + [e], size, id, n)
  {
    var i :| 0 <= i < |es| && es[i].Arrive? && es[i].id == id && Charged(size, es[i].weight, n)
             && forall j :: 0 <= j < i ==> !(es[j].Arrive? && es[j].id == id);
    assert (es + [e])[i] == es[i];
  }

  lemma {:induction false} ArrivalsRecorded(size: int, es: seq<Event>, i: nat)
    requires size >= 1 && i < |es| && es[i].Arrive?
    ensures es[i].id in Run(Fresh(size), es).arrivals
    decreases |es|
  {
    var before, e := es[..|es| - 1], es[|es| - 1];
    assert before + [e] == es;
    RunSnoc(Fresh(size), before, e);
    RunKeepsInv(Fresh(size), before);
    ArrivalsStay(Run(Fresh(size), before), e);
    if i < |before| { ArrivalsRecorded(size, before, i); }
  }

  lemma ArrivalsStay(s: State, e: Event)
    requires Inv(s)
    ensures s.arrivals <= Next(s, e).arrivals && (e.Arrive? ==> e.id in Next(s, e).arrivals)
  {
    if e.Leave? && e.id in s.held { ReleaseKeepsInv(s, e.id); }
  }

  lemma NewlyCharged(size: int, before: seq<Event>, e: Event)
    requires size >= 1 && e.Arrive? && e.id !in Run(Fresh(size), before).arrivals
    ensures ChargedFor(before + [e], size, e.id, Clamp(size, e.weight))
  {
    var es := before + [e];
    forall j | 0 <= j < |before| ensures !(es[j].Arrive? && es[j].id == e.id) {
      if before[j].Arrive? && before[j].id == e.id { ArrivalsRecorded(size, before, j); }
    }
    assert es[|before|] == e;
  }

  /** In every run each load is charged exactly the weight it asked for, bounded, from the queue to its release. */
  lemma {:induction false} WeightsAreCharged(size: int, es: seq<Event>)
    requires size >= 1
    ensures FairlyCharged(Run(Fresh(size), es), es, size)
    decreases |es|
  {
    if es != [] {
      var before, e := es[..|es| - 1], es[|es| - 1];
      assert before + [e] == es;
      WeightsAreCharged(size, before);
      RunSnoc(Fresh(size), before, e);
      RunKeepsInv(Fresh(size), before);
      SizeFixed(Fresh(size), before);
      NextCharges(size, before, e);
    }
  }

  lemma StillCharged(size: int, s: State, before: seq<Event>, e: Event)
    requires FairlyCharged(s, before, size)
    ensures FairlyCharged(s, before + [e], size)
  {
    forall id | id in s.held ensures ChargedFor(before + [e], size, id, s.held[id]) {
      ChargedStays(before, e, size, id, s.held[id]);
    }
    forall i | 0 <= i < |s.waiters| ensures ChargedFor(before + [e], size, s.waiters[i].id, s.waiters[i].n) {
      ChargedStays(before, e, size, s.waiters[i].id, s.waiters[i].n);
    }
  }

  lemma ServeCharges(s: State, es: seq<Event>, size: int)
    requires Sound(s) && FairlyCharged(s, es, size)
    ensures FairlyCharged(Serve(s), es, size)
  {
    var r := Serve(s);
    ServeGrantsWaiters(s);
    ServeFacts(s);
    forall id | id in r.held ensures ChargedFor(es, size, id, r.held[id]) {
      if id !in s.held {
        var i :| 0 <= i < |s.waiters| && s.waiters[i] == Waiter(id, r.held[id]);
        assert ChargedFor(es, size, s.waiters[i].id, s.waiters[i].n);
      }
    }
    forall i | 0 <= i < |r.waiters| ensures ChargedFor(es, size, r.waiters[i].id, r.waiters[i].n) {
      assert r.waiters[i] == s.waiters[|s.waiters| - |r.waiters| + i];
    }
  }

  lemma NextCharges(size: int, before: seq<Event>, e: Event)
    requires size >= 1 && FairlyCharged(Run(Fresh(size), before), before, size)
    requires Inv(Run(Fresh(size), before)) && Run(Fresh(size), before).size == size
    ensures FairlyCharged(Next(Run(Fresh(size), before), e), before + [e], size)
  {
    var s := Run(Fresh(size), before);
    StillCharged(size, s, before, e);
    if e.Arrive? && e.id !in s.arrivals {
      NewlyCharged(size, before, e);
      AcquireCharges(s, before + [e], size, e.id, Clamp(size, e.weight));
    } else if e.Leave? && e.id in s.held {
      ReleaseCharges(s, before + [e], size, e.id);
    }
  }

  lemma AcquireCharges(s: State, es: seq<Event>, size: int, id: Id, n: int)
    requires FairlyCharged(s, es, size) && ChargedFor(es, size, id, n)
    ensures FairlyCharged(Acquire(s, id, n), es, size)
  {
  }

  lemma ReleaseCharges(s: State, es: seq<Event>, size: int, id: Id)
    requires Inv(s) && FairlyCharged(s, es, size) && id in s.held
    ensures FairlyCharged(Release(s, id), es, size)
  {
    TotalWithout(s.held, id);
    var left := s.(cur := s.cur - s.held[id], held := s.held - {id});
    assert FairlyCharged(left, es, size);
    ServeCharges(left, es, size);
  }

  /** Once every running load has released, without new arrivals, nobody is left waiting. */
  lemma DrainedWhenIdle(s: State)
    requires Inv(s) && s.held == map[]
    ensures s.waiters == [] && s.granted == s.arrivals
  {
    assert Total(s.held) == 0;
    assert s.granted + [] == s.granted;
  }

  /** The semaphore itself. `held`, `arrivals` and `granted` record who was let in; the source keeps only the rest. */
  class WeightedSemaphore {
    const size: int
    var cur: int
    var waiters: seq<Waiter>
    ghost var held: map<Id, int>
    ghost var arrivals: seq<Id>
    ghost var granted: seq<Id>

    ghost function View(): State
      reads this
    {
      State(size, cur, waiters, held, arrivals, granted)
    }

    constructor (size: int)
      requires size >= 1
      ensures View() == Fresh(size) && Inv(View())
    {
      this.size := size;
      cur, waiters, held, arrivals, granted := 0, [], map[], [], [];
    }

    /** Returns whether the caller was let in at once; otherwise it blocks until a release grants it. */
    method TryEnter(id: Id, n: int) returns (entered: bool)
      requires Inv(View()) && id !in arrivals && 1 <= n <= size
      modifies this
      ensures Inv(View()) && View() == Acquire(old(View()), id, n)
      ensures entered <==> id in held
      ensures entered <==> old(waiters) == [] && old(cur) + n <= size
      ensures if entered then held == old(held)[id := n] && cur == old(cur) + n && waiters == old(waiters)
              else held == old(held) && cur == old(cur) && waiters == old(waiters) + [Waiter(id, n)]
    {
      AcquireKeepsInv(View(), id, n);
      arrivals := arrivals + [id];
      if waiters == [] && cur + n <= size {
        cur := cur + n;
        held := held[id := n];
        granted := granted + [id];
        return true;
      }
      waiters := waiters + [Waiter(id, n)];
      return false;
    }

    /** Gives back the weight of `id` and wakes waiters in order, each with its weight already taken. */
    method Leave(id: Id, n: int)
      requires Inv(View()) && id in held && held[id] == n
      modifies this
      ensures Inv(View()) && View() == Release(old(View()), id)
      ensures id !in held
      ensures forall other :: other in old(held) && other != id ==> other in held && held[other] == old(held)[other]
    {
      ReleaseKeepsInv(View(), id);
      ReleaseFrees(View(), id);
      cur := cur - n;
      held := held - {id};
      Wake();
    }

    /** Lets waiters in from the head of the queue while they fit. */
    method Wake()
      modifies this`cur, this`waiters, this`held, this`granted
      ensures View() == Serve(old(View()))
    {
      while waiters != []
        invariant Serve(View()) == Serve(old(View())) && arrivals == old(arrivals)
        decreases |waiters|
      {
        var w := waiters[0];
        if cur + w.n > size {
          break;
        }
        waiters := waiters[1..];
        cur := cur + w.n;
        held := held[w.id := w.n];
        granted := granted + [w.id];
      }
    }
  }
}
