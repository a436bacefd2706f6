/** The slot suppliers of a recoverable worker: intake closes first, and only then is occupancy judged, one supplier
    after the other, while reservations, marks and releases go on. */
module Slots {
  import opened Wrappers

  type Permit = nat

  /** `tokens` is the number of items in the channel; `transit` counts reservations between taking a token and being
      issued a permit. A permit maps to whether it is executing. */
  datatype Supplier = Supplier(
    capacity: nat, tokens: nat, transit: nat, permits: map<Permit, bool>, closed: bool, nextPermit: nat)

  function NewSupplier(capacity: nat): Supplier {
    Supplier(capacity, 0, 0, map[], false, 0)
  }

  datatype SlotEvent = Take | Issue | Mark(p: Permit) | Release(p: Permit) | Close

  /** The channel send succeeds while there is room, even if intake has closed meanwhile. */
  function TakeStep(s: Supplier): Supplier {
    if s.tokens < s.capacity then s.(tokens := s.tokens + 1, transit := s.transit + 1) else s
  }

  /** Receiving from an empty channel would block; see `NothingBlocks`. */
  function Receive(s: Supplier): Supplier {
    if s.tokens == 0 then s else s.(tokens := s.tokens - 1)
  }

  function IssueStep(s: Supplier): Supplier {
    if s.transit == 0 then s
    else if s.closed then Receive(s.(transit := s.transit - 1))
    else s.(transit := s.transit - 1, permits := s.permits[s.nextPermit := false], nextPermit := s.nextPermit + 1)
  }

  function MarkStep(s: Supplier, p: Permit): Supplier {
    if p in s.permits then s.(permits := s.permits[p := true]) else s
  }

  function ReleaseStep(s: Supplier, p: Permit): Supplier {
    if p in s.permits then Receive(s.(permits := s.permits - {p})) else s
  }

  function SupplierNext(s: Supplier, e: SlotEvent): Supplier {
    match e
    case Take => TakeStep(s)
    case Issue => IssueStep(s)
    case Mark(p) => MarkStep(s, p)
    case Release(p) => ReleaseStep(s, p)
    case Close => s.(closed := true)
  }

  ghost predicate SupplierInv(s: Supplier) {
    && s.tokens == |s.permits| + s.transit
    && s.tokens <= s.capacity
    && forall p :: p in s.permits ==> p < s.nextPermit
  }

  lemma RemovedCount(m: map<Permit, bool>, p: Permit)
    ensures p in m ==> |m - {p}| == |m| - 1
    ensures p !in m ==> m - {p} == m
  {
    if p in m { assert m.Keys == (m - {p}).Keys + {p}; }
  }

  lemma AddedCount(m: map<Permit, bool>, p: Permit, used: bool)
    ensures |m[p := used]| == if p in m then |m| else |m| + 1
  {
    assert m[p := used].Keys == m.Keys + {p};
    if p in m { assert m.Keys + {p} == m.Keys; }
  }

  /** Tokens are issued permits plus reservations in transit, never more than the capacity. */
  lemma SupplierKeeps(s: Supplier, e: SlotEvent)
    requires SupplierInv(s)
    ensures SupplierInv(SupplierNext(s, e)) && SupplierNext(s, e).capacity == s.capacity
  {
    match e
    case Issue => AddedCount(s.permits, s.nextPermit, false);
    case Mark(p) => AddedCount(s.permits, p, true);
    case Release(p) => RemovedCount(s.permits, p);
    case _ =>
  }

  /** No step ever receives from an empty channel, and releasing twice is releasing once. */
  lemma NothingBlocks(s: Supplier, p: Permit)
    requires SupplierInv(s)
    ensures p in s.permits ==> s.tokens > 0 && ReleaseStep(s, p).tokens == s.tokens - 1
    ensures s.transit > 0 && s.closed ==> s.tokens > 0 && IssueStep(s).tokens == s.tokens - 1
    ensures ReleaseStep(ReleaseStep(s, p), p) == ReleaseStep(s, p)
  {
    RemovedCount(s.permits, p);
  }

  /** After intake closed: no permit appears, none goes back from executing to reserved, and intake stays closed. */
  ghost predicate OnlyShrinks(a: Supplier, b: Supplier) {
    && b.closed
    && b.permits.Keys <= a.permits.Keys
    && forall p :: p in b.permits && a.permits[p] ==> b.permits[p]
  }

  lemma ClosedOnlyShrinks(s: Supplier, e: SlotEvent)
    requires s.closed
    ensures OnlyShrinks(s, SupplierNext(s, e))
  {
  }

  // ---- Several suppliers, judged one by one ----

  /** A call of `drained` or `accountedAfterStop` that has found the suppliers before `next` in order. */
  datatype Check = Draining(next: nat) | Accounting(next: nat, abandoned: nat)

  datatype System = System(suppliers: seq<Option<Supplier>>, checks: map<nat, Check>)

  datatype Event =
    | Slot(i: nat, e: SlotEvent) | StartDrain(c: nat) | StartAccount(c: nat, coverage: bool) | Visit(c: nat)

  function Reserved(s: Supplier): set<Permit> {
    set p | p in s.permits && !s.permits[p]
  }

  function Executing(s: Supplier): set<Permit> {
    set p | p in s.permits && s.permits[p]
  }

  /** What `drained` demands of one supplier. */
  predicate Drained(s: Option<Supplier>) {
    s.None? || (s.value.closed && |Reserved(s.value)| + |Executing(s.value)| == 0)
  }

  /** What `accountedAfterStop` demands of supplier `i`: only workflow tasks, supplier 0, may still be executing. */
  predicate Accounted(s: Option<Supplier>, i: nat) {
    s.None? || (s.value.closed && |Reserved(s.value)| == 0 && (i != 0 ==> |Executing(s.value)| == 0))
  }

  /** One locked snapshot: the check moves on, counts what it may tolerate, or ends with the answer no. */
  function VisitStep(s: System, c: nat): System {
    if c !in s.checks || s.checks[c].next >= |s.suppliers| then s else
    var check := s.checks[c];
    var supplier := s.suppliers[check.next];
    match check
    case Draining(i) =>
      if Drained(supplier) then s.(checks := s.checks[c := Draining(i + 1)]) else s.(checks := s.checks - {c})
    case Accounting(i, abandoned) =>
      if Accounted(supplier, i) then
        s.(checks := s.checks[c := Accounting(
          i + 1, if i == 0 && supplier.Some? then |Executing(supplier.value)| else abandoned)])
      else s.(checks := s.checks - {c})
  }

  function Next(s: System, e: Event): System {
    match e
    case Slot(i, se) =>
      if i < |s.suppliers| && s.suppliers[i].Some? then
        s.(suppliers := s.suppliers[i := Some(SupplierNext(s.suppliers[i].value, se))])
      else s
    case StartDrain(c) => if c in s.checks then s else s.(checks := s.checks[c := Draining(0)])
    case StartAccount(c, coverage) =>
      if c in s.checks || !coverage then s else s.(checks := s.checks[c := Accounting(0, 0)])
    case Visit(c) => VisitStep(s, c)
  }

  function Run(s: System, es: seq<Event>): System
    decreases |es|
  {
    if es == [] then s else Run(Next(s, es[0]), es[1..])
  }

  ghost predicate CheckSound(suppliers: seq<Option<Supplier>>, check: Check) {
    && check.next <= |suppliers|
    && (check.Draining? ==> forall i :: 0 <= i < check.next ==> Drained(suppliers[i]))
    && (check.Accounting? ==>
          && (forall i :: 0 <= i < check.next ==> Accounted(suppliers[i], i))
          && (check.next > 0 && suppliers[0].Some? ==> |Executing(suppliers[0].value)| <= check.abandoned))
  }

  ghost predicate Inv(s: System) {
    && (forall i :: 0 <= i < |s.suppliers| && s.suppliers[i].Some? ==> SupplierInv(s.suppliers[i].value))
    && (forall c :: c in s.checks ==> CheckSound(s.suppliers, s.checks[c]))
  }

  /** Suppliers as they start out, `None` where there is none; nothing has been asked yet. */
  function FreshSystem(capacities: seq<Option<nat>>): System {
    System(seq(|capacities|, i requires 0 <= i < |capacities| =>
             if capacities[i].None? then None else Some(NewSupplier(capacities[i].value))), map[])
  }

  lemma FreshInv(capacities: seq<Option<nat>>)
    ensures Inv(FreshSystem(capacities))
  {
  }

  lemma SubsetCount(a: set<Permit>, b: set<Permit>)
    requires a <= b
    ensures |a| <= |b|
  {
    assert b == a + (b - a);
  }

  /** A supplier once judged drained or accounted for stays so, whatever happens to it. */
  lemma JudgementsStand(s: Supplier, e: SlotEvent, i: nat)
    ensures Drained(Some(s)) ==> Drained(Some(SupplierNext(s, e)))
    ensures Accounted(Some(s), i) ==>
              && Accounted(Some(SupplierNext(s, e)), i)
              && |Executing(SupplierNext(s, e))| <= |Executing(s)|
  {
    var s' := SupplierNext(s, e);
    if s.closed {
      ClosedOnlyShrinks(s, e);
      if |Reserved(s)| == 0 {
        assert Reserved(s) == {};
        forall p | p in s'.permits ensures p in Executing(s) {
          assert p !in Reserved(s);
        }
        assert Reserved(s') == {};
        SubsetCount(Executing(s'), Executing(s));
      }
    }
  }

  lemma SlotKeepsCheck(s: System, i: nat, e: SlotEvent, check: Check)
    requires i < |s.suppliers| && s.suppliers[i].Some? && CheckSound(s.suppliers, check)
    ensures CheckSound(Next(s, Slot(i, e)).suppliers, check)
  {
    var after := Next(s, Slot(i, e)).suppliers;
    JudgementsStand(s.suppliers[i].value, e, i);
    assert forall j :: 0 <= j < |after| && j != i ==> after[j] == s.suppliers[j];
  }

  lemma NextKeepsInv(s: System, e: Event)
    requires Inv(s)
    ensures Inv(Next(s, e))
  {
    match e
    case Slot(i, se) =>
      if i < |s.suppliers| && s.suppliers[i].Some? {
        SupplierKeeps(s.suppliers[i].value, se);
        forall c | c in s.checks ensures CheckSound(Next(s, e).suppliers, s.checks[c]) {
          SlotKeepsCheck(s, i, se, s.checks[c]);
        }
      }
    case Visit(c) =>
      if c in s.checks && s.checks[c].next < |s.suppliers| {
        var supplier := s.suppliers[s.checks[c].next];
        assert CheckSound(s.suppliers, s.checks[c]);
      }
    case _ =>
  }

  lemma {:induction false} RunKeepsInv(s: System, es: seq<Event>)
    requires Inv(s)
    ensures Inv(Run(s, es)) && |Run(s, es).suppliers| == |s.suppliers|
    decreases |es|
  {
    if es != [] {
      NextKeepsInv(s, es[0]);
      RunKeepsInv(Next(s, es[0]), es[1..]);
    }
  }

  lemma {:induction false} CheckStays(s: System, es: seq<Event>, c: nat)
    requires c in s.checks && s.checks[c].next == |s.suppliers|
    ensures c in Run(s, es).checks && Run(s, es).checks[c] == s.checks[c]
    decreases |es|
  {
    if es != [] {
      CheckStays(Next(s, es[0]), es[1..], c);
    }
  }

  /** If `drained` answered yes, then from that moment on no supplier holds a permit or can issue one, although the
      suppliers were looked at one after the other and nothing stopped between the looks. */
  lemma DrainedForever(s: System, es: seq<Event>, c: nat, i: nat)
    requires Inv(s) && c in s.checks && s.checks[c] == Draining(|s.suppliers|)
    requires i < |s.suppliers| && s.suppliers[i].Some?
    ensures i < |Run(s, es).suppliers|
    ensures
      var r := Run(s, es).suppliers[i];
      r.Some? && r.value.closed && r.value.permits == map[] && r.value.tokens == r.value.transit
  {
    RunKeepsInv(s, es);
    CheckStays(s, es, c);
    SuppliersStay(s, es, i);
    var r := Run(s, es).suppliers[i];
    assert CheckSound(Run(s, es).suppliers, Draining(|s.suppliers|));
    assert Drained(r);
    assert r.value.permits.Keys == Reserved(r.value) + Executing(r.value);
  }

  lemma {:induction false} SuppliersStay(s: System, es: seq<Event>, i: nat)
    requires i < |s.suppliers| && s.suppliers[i].Some?
    ensures i < |Run(s, es).suppliers| && Run(s, es).suppliers[i].Some?
    decreases |es|
  {
    if es != [] {
      SuppliersStay(Next(s, es[0]), es[1..], i);
    }
  }

  /** If `accountedAfterStop` answered safe, then from that moment on only workflow-task permits are out, all of them
      executing and at most as many as it reported. */
  lemma OnlyWorkflowTasksRemain(s: System, es: seq<Event>, c: nat, abandoned: nat, i: nat)
    requires Inv(s) && c in s.checks && s.checks[c] == Accounting(|s.suppliers|, abandoned)
    requires i < |s.suppliers| && s.suppliers[i].Some?
    ensures i < |Run(s, es).suppliers|
    ensures
      var r := Run(s, es).suppliers[i];
      && r.Some? && r.value.closed
      && (forall p :: p in r.value.permits ==> i == 0 && r.value.permits[p])
      && |r.value.permits| <= (if i == 0 then abandoned else 0)
  {
    RunKeepsInv(s, es);
    CheckStays(s, es, c);
    SuppliersStay(s, es, i);
    var r := Run(s, es).suppliers[i];
    assert CheckSound(Run(s, es).suppliers, Accounting(|s.suppliers|, abandoned));
    assert Accounted(r, i);
    assert Reserved(r.value) == {};
    forall p | p in r.value.permits ensures r.value.permits[p] { assert p !in Reserved(r.value); }
    assert r.value.permits.Keys == Executing(r.value);
    if i != 0 { assert Executing(r.value) == {}; }
  }

  /** No interleaving issues a permit once intake is closed. */
  lemma {:induction false} NoPermitAfterClose(s: System, es: seq<Event>, i: nat)
    requires i < |s.suppliers| && s.suppliers[i].Some? && s.suppliers[i].value.closed
    ensures i < |Run(s, es).suppliers| && Run(s, es).suppliers[i].Some?
    ensures OnlyShrinks(s.suppliers[i].value, Run(s, es).suppliers[i].value)
    decreases |es|
  {
    if es != [] {
      var next := Next(s, es[0]);
      if es[0].Slot? && es[0].i == i { ClosedOnlyShrinks(s.suppliers[i].value, es[0].e); }
      NoPermitAfterClose(next, es[1..], i);
    }
  }

  lemma NoneIn(s: Supplier)
    ensures |Reserved(s)| == 0 <==> forall p :: p in s.permits ==> s.permits[p]
    ensures |Executing(s)| == 0 <==> forall p :: p in s.permits ==> !s.permits[p]
  {
    if |Reserved(s)| == 0 { forall p | p in s.permits ensures s.permits[p] { assert p !in Reserved(s); } }
    if |Executing(s)| == 0 { forall p | p in s.permits ensures !s.permits[p] { assert p !in Executing(s); } }
    if forall p :: p in s.permits ==> s.permits[p] { assert Reserved(s) == {}; }
    if forall p :: p in s.permits ==> !s.permits[p] { assert Executing(s) == {}; }
  }

  lemma DrainedIff(s: Supplier)
    ensures Drained(Some(s)) <==> s.closed && s.permits == map[]
  {
    NoneIn(s);
    if forall p :: p in s.permits ==> s.permits[p] && !s.permits[p] { assert s.permits == map[]; }
  }

  lemma AccountedIff(s: Supplier, i: nat)
    ensures Accounted(Some(s), i) <==> s.closed && forall p :: p in s.permits ==> i == 0 && s.permits[p]
  {
    NoneIn(s);
  }

  // ---- The objects ----

  class RecoverySlots {
    const capacity: nat
    var available: nat
    var closed: bool
    var permits: map<Permit, bool>
    var nextPermit: nat
    ghost var transit: nat

    ghost function View(): Supplier
      reads this
    {
      Supplier(capacity, available, transit, permits, closed, nextPermit)
    }

    constructor (capacity: nat)
      requires capacity >= 1
      ensures View() == NewSupplier(capacity) && SupplierInv(View())
    {
      this.capacity := capacity;
      available, closed, permits, nextPermit, transit := 0, false, map[], 0, 0;
    }

    /** The channel send of a reservation. `preferClosing` is the choice `select` makes when both cases are ready. */
    method TakeToken(preferClosing: bool) returns (taken: bool)
      requires SupplierInv(View())
      modifies this
      ensures SupplierInv(View())
      ensures taken <==> !(old(closed) && preferClosing) && old(available) < capacity
      ensures View() == if taken then TakeStep(old(View())) else old(View())
      ensures taken ==> available == old(available) + 1 && transit == old(transit) + 1 && permits == old(permits)
    {
      SupplierKeeps(View(), Take);
      if (closed && preferClosing) || available >= capacity {
        return false;
      }
      available := available + 1;
      transit := transit + 1;
      taken := true;
    }

    /** The locked half of a reservation that holds a token. */
    method IssuePermit() returns (permit: Option<Permit>)
      requires SupplierInv(View()) && transit > 0
      modifies this
      ensures SupplierInv(View()) && View() == IssueStep(old(View()))
      ensures permit == if old(closed) then None else Some(old(nextPermit))
      ensures closed == old(closed) && transit == old(transit) - 1
      ensures permit.Some? ==>
                && permit.value !in old(permits) && permits == old(permits)[permit.value := false]
                && available == old(available)
      ensures permit.None? ==> permits == old(permits) && available == old(available) - 1
    {
      SupplierKeeps(View(), SlotEvent.Issue);
      transit := transit - 1;
      if closed {
        available := available - 1;
        return None;
      }
      permit := Some(nextPermit);
      permits := permits[nextPermit := false];
      nextPermit := nextPermit + 1;
    }

    method MarkSlotUsed(p: Permit)
      requires SupplierInv(View())
      modifies this`permits
      ensures SupplierInv(View()) && View() == MarkStep(old(View()), p)
      ensures permits.Keys == old(permits).Keys && (p in permits ==> permits[p])
      ensures forall q :: q in permits && q != p ==> permits[q] == old(permits)[q]
    {
      SupplierKeeps(View(), Mark(p));
      if p in permits {
        permits := permits[p := true];
      }
    }

    method ReleaseSlot(p: Permit)
      requires SupplierInv(View())
      modifies this`permits, this`available
      ensures SupplierInv(View()) && View() == ReleaseStep(old(View()), p)
      ensures permits == old(permits) - {p}
      ensures available == old(available) - if p in old(permits) then 1 else 0
    {
      SupplierKeeps(View(), Release(p));
      NothingBlocks(View(), p);
      if p in permits {
        permits := permits - {p};
        available := available - 1;
      }
    }

    method CloseIntake()
      requires SupplierInv(View())
      modifies this`closed
      ensures SupplierInv(View()) && View() == old(View()).(closed := true)
    {
      if !closed {
        closed := true;
      }
    }

    method Snapshot() returns (reserved: nat, executing: nat, isClosed: bool)
      ensures reserved == |Reserved(View())| && executing == |Executing(View())| && isClosed == closed
    {
      reserved, executing := 0, 0;
      var rest := permits.Keys;
      while rest != {}
        invariant rest <= permits.Keys
        invariant reserved == |set p | p in permits && p !in rest && !permits[p]|
        invariant executing == |set p | p in permits && p !in rest && permits[p]|
        decreases rest
      {
        var p :| p in rest;
        ghost var r0 := set q | q in permits && q !in rest && !permits[q];
        ghost var e0 := set q | q in permits && q !in rest && permits[q];
        rest := rest - {p};
        if permits[p] {
          executing := executing + 1;
          assert (set q | q in permits && q !in rest && permits[q]) == e0 + {p};
          assert (set q | q in permits && q !in rest && !permits[q]) == r0;
        } else {
          reserved := reserved + 1;
          assert (set q | q in permits && q !in rest && !permits[q]) == r0 + {p};
          assert (set q | q in permits && q !in rest && permits[q]) == e0;
        }
      }
      assert (set p | p in permits && p !in rest && !permits[p]) == Reserved(View());
      assert (set p | p in permits && p !in rest && permits[p]) == Executing(View());
      isClosed := closed;
    }
  }

  class RecoveryTuner {
    const suppliers: seq<RecoverySlots?>

    constructor (suppliers: seq<RecoverySlots?>)
      ensures this.suppliers == suppliers
    {
      this.suppliers := suppliers;
    }

    ghost function ViewOf(i: nat): Option<Supplier>
      requires i < |suppliers|
      reads suppliers[i]
    {
      if suppliers[i] == null then None else Some(suppliers[i].View())
    }

    method IsDrained() returns (drained: bool)
      ensures drained <==> forall i :: 0 <= i < |suppliers| ==> Drained(ViewOf(i))
      ensures drained <==> forall i :: 0 <= i < |suppliers| && suppliers[i] != null ==>
                             suppliers[i].closed && suppliers[i].permits == map[]
    {
      forall i | 0 <= i < |suppliers| && suppliers[i] != null
        ensures Drained(ViewOf(i)) <==> suppliers[i].closed && suppliers[i].permits == map[]
      {
        DrainedIff(suppliers[i].View());
      }
      for i := 0 to |suppliers|
        invariant forall j :: 0 <= j < i ==> Drained(ViewOf(j))
      {
        if suppliers[i] != null {
          var reserved, executing, isClosed := suppliers[i].Snapshot();
          if !isClosed || reserved + executing != 0 {
            assert !Drained(ViewOf(i));
            return false;
          }
        }
      }
      assert forall i :: 0 <= i < |suppliers| && suppliers[i] != null ==> Drained(ViewOf(i));
      return true;
    }

    method AccountedAfterStop(coverageConfirmed: bool) returns (abandoned: nat, safe: bool)
      ensures safe <==> coverageConfirmed && forall i :: 0 <= i < |suppliers| ==> Accounted(ViewOf(i), i)
      ensures safe <==> coverageConfirmed && forall i :: 0 <= i < |suppliers| && suppliers[i] != null ==>
                          && suppliers[i].closed
                          && forall p :: p in suppliers[i].permits ==> i == 0 && suppliers[i].permits[p]
      ensures abandoned ==
              if safe && |suppliers| > 0 && suppliers[0] != null then |Executing(suppliers[0].View())| else 0
    {
      forall i | 0 <= i < |suppliers| && suppliers[i] != null
        ensures Accounted(ViewOf(i), i) <==>
                suppliers[i].closed && forall p :: p in suppliers[i].permits ==> i == 0 && suppliers[i].permits[p]
      {
        AccountedIff(suppliers[i].View(), i);
      }
      if !coverageConfirmed {
        return 0, false;
      }
      abandoned := 0;
      for i := 0 to |suppliers|
        invariant forall j :: 0 <= j < i ==> Accounted(ViewOf(j), j)
        invariant abandoned == if i > 0 && suppliers[0] != null then |Executing(suppliers[0].View())| else 0
      {
        if suppliers[i] != null {
          var reserved, executing, isClosed := suppliers[i].Snapshot();
          if !isClosed || reserved != 0 || (i != 0 && executing != 0) {
            assert !Accounted(ViewOf(i), i);
            return 0, false;
          }
          if i == 0 {
            abandoned := executing;
          }
        }
      }
      assert forall i :: 0 <= i < |suppliers| && suppliers[i] != null ==> Accounted(ViewOf(i), i);
      return abandoned, true;
    }
  }
}
