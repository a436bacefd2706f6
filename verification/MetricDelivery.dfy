/** What the metric exporter delivers: which answers of the receiver take a body from the queue, and when a collection
    is taken into it. */
module MetricDelivery {
  import opened Wrappers
  import opened Lists
  import opened MetricSplit
  import opened MetricExporter

  // ---- Flushing, pass by pass ----

  /** How many of the passes found the receiver accepting. */
  ghost function Accepts(passes: seq<Pass>): nat {
    if passes == [] then 0 else (if passes[0].rpc.Accepted? then 1 else 0) + Accepts(passes[1..])
  }

  /** The pass comes to the call: the head's epoch can still be retried, and a lapsing token was renewed for the same
      identity first. */
  ghost predicate Calls(p: Pass, head: Identity) {
    p.now < head.retryUntil && (p.lapsing ==> p.renewed.Some? && p.renewed.value.identity == head)
  }

  /** The pass ends the flush with `e`. */
  ghost predicate Stops(p: Pass, head: Identity, e: Error) {
    match e
    case EpochExpired => p.now >= head.retryUntil
    case GrantUnavailable => p.now < head.retryUntil && p.lapsing && p.renewed.None?
    case IdentityChanged =>
      p.now < head.retryUntil && p.lapsing && p.renewed.Some? && p.renewed.value.identity != head
    case Rejected => Calls(p, head) && (p.rpc.Partial? || p.rpc.Fatal?)
    case _ => false
  }

  /** Each of the first `n` passes called the receiver with the body at the head by then, which it accepted or could not
      take yet. */
  ghost predicate Spent(queue: seq<Queued>, passes: seq<Pass>, n: nat) {
    && n <= |passes|
    && forall m :: 0 <= m < n ==>
         && Accepts(passes[..m]) < |queue| && Calls(passes[m], queue[Accepts(passes[..m])].grant.identity)
         && (passes[m].rpc.Accepted? || passes[m].rpc.Transient?)
  }

  /** A body accepted by a pass that renewed the token was sent with that token. */
  ghost predicate SentRenewed(sent: seq<Queued>, passes: seq<Pass>, n: nat)
    requires n <= |passes|
  {
    forall m :: 0 <= m < n && passes[m].rpc.Accepted? && passes[m].lapsing && passes[m].renewed.Some? ==>
      Accepts(passes[..m]) < |sent| && sent[Accepts(passes[..m])].grant == passes[m].renewed.value
  }

  ghost predicate FlushedBy(s: State, passes: seq<Pass>, r: State, err: Option<Error>, n: nat) {
    && Spent(s.queue, passes, n)
    && var k := Accepts(passes[..n]);
    && k <= |s.queue| && s.delivered <= r.delivered
    && SameButTokens(s.queue[..k], r.delivered[|s.delivered|..]) && SameButTokens(s.queue[k..], r.queue)
    && SentRenewed(r.delivered[|s.delivered|..], passes, n)
    && (err.None? <==> k == |s.queue|)
    && (err.Some? && n == |passes| ==> err.value == Deadline)
    && (err.Some? && n < |passes| ==> Stops(passes[n], s.queue[k].grant.identity, err.value))
  }

  lemma AcceptsCons(passes: seq<Pass>, m: nat)
    requires m < |passes|
    ensures Accepts(passes[..m + 1]) == (if passes[0].rpc.Accepted? then 1 else 0) + Accepts(passes[1..][..m])
  {
    assert passes[..m + 1][1..] == passes[1..][..m];
  }

  lemma SpentCons(queue: seq<Queued>, rest: seq<Queued>, passes: seq<Pass>, n: nat)
    requires passes != [] && queue != [] && Calls(passes[0], queue[0].grant.identity)
    requires if passes[0].rpc.Accepted? then SameButTokens(queue[1..], rest)
             else passes[0].rpc.Transient? && SameButTokens(queue, rest)
    requires Spent(rest, passes[1..], n)
    ensures Spent(queue, passes, n + 1)
  {
    forall m | 0 <= m < n + 1
      ensures Accepts(passes[..m]) < |queue| && Calls(passes[m], queue[Accepts(passes[..m])].grant.identity)
      ensures passes[m].rpc.Accepted? || passes[m].rpc.Transient?
    {
      if m > 0 { AcceptsCons(passes, m - 1); }
    }
  }

  lemma TakesAgree(a: seq<Queued>, b: seq<Queued>, k: nat)
    requires SameButTokens(a, b) && k <= |a|
    ensures SameButTokens(a[..k], b[..k]) && SameButTokens(a[k..], b[k..])
  {
  }

  lemma AgreeTwice(a: seq<Queued>, b: seq<Queued>, d: seq<Queued>)
    requires SameButTokens(a, b) && SameButTokens(b, d)
    ensures SameButTokens(a, d)
  {
  }

  lemma AgreeCons(a: seq<Queued>, head: Queued, b: seq<Queued>)
    requires a != [] && SameButTokens(a[1..], b) && head.body == a[0].body && head.grant.identity == a[0].grant.identity
    ensures SameButTokens(a, [head] + b)
  {
  }

  lemma FlushedTransient(s: State, passes: seq<Pass>, s': State, r: State, err: Option<Error>, n: nat)
    requires passes != [] && s.queue != [] && Calls(passes[0], s.queue[0].grant.identity) && passes[0].rpc.Transient?
    requires SameButTokens(s.queue, s'.queue) && s'.delivered == s.delivered
    requires FlushedBy(s', passes[1..], r, err, n)
    ensures FlushedBy(s, passes, r, err, n + 1)
  {
    SpentCons(s.queue, s'.queue, passes, n);
    AcceptsCons(passes, n);
    var k, sent := Accepts(passes[..n + 1]), r.delivered[|s.delivered|..];
    TakesAgree(s.queue, s'.queue, k);
    AgreeTwice(s.queue[..k], s'.queue[..k], sent);
    AgreeTwice(s.queue[k..], s'.queue[k..], r.queue);
    forall m | 0 <= m < n + 1 && passes[m].rpc.Accepted? && passes[m].lapsing && passes[m].renewed.Some?
      ensures Accepts(passes[..m]) < |sent| && sent[Accepts(passes[..m])].grant == passes[m].renewed.value
    {
      AcceptsCons(passes, m - 1);
      assert passes[1..][m - 1] == passes[m];
    }
  }

  lemma FlushedAccepted(s: State, passes: seq<Pass>, head: Queued, s': State, r: State, err: Option<Error>, n: nat)
    requires passes != [] && s.queue != [] && Calls(passes[0], s.queue[0].grant.identity) && passes[0].rpc.Accepted?
    requires head.body == s.queue[0].body && head.grant.identity == s.queue[0].grant.identity
    requires passes[0].lapsing ==> head.grant == passes[0].renewed.value
    requires SameButTokens(s.queue[1..], s'.queue) && s'.delivered == s.delivered + [head]
    requires FlushedBy(s', passes[1..], r, err, n)
    ensures FlushedBy(s, passes, r, err, n + 1)
  {
    SpentCons(s.queue, s'.queue, passes, n);
    AcceptsCons(passes, n);
    var k := Accepts(passes[..n + 1]);
    var sent, rest := r.delivered[|s.delivered|..], r.delivered[|s'.delivered|..];
    assert s'.delivered[|s.delivered|] == head;
    assert sent == [head] + rest;
    var tail := s.queue[1..];
    TakesAgree(tail, s'.queue, k - 1);
    AgreeTwice(tail[..k - 1], s'.queue[..k - 1], rest);
    AgreeTwice(tail[k - 1..], s'.queue[k - 1..], r.queue);
    assert s.queue[..k][1..] == tail[..k - 1] && s.queue[k..] == tail[k - 1..];
    AgreeCons(s.queue[..k], head, rest);
    SentCons(head, rest, passes, n);
  }

  lemma SentCons(head: Queued, rest: seq<Queued>, passes: seq<Pass>, n: nat)
    requires passes != [] && passes[0].rpc.Accepted? && n < |passes| && SentRenewed(rest, passes[1..], n)
    requires passes[0].lapsing && passes[0].renewed.Some? ==> head.grant == passes[0].renewed.value
    ensures SentRenewed([head] + rest, passes, n + 1)
  {
    var sent := [head] + rest;
    forall m | 0 <= m < n + 1 && passes[m].rpc.Accepted? && passes[m].lapsing && passes[m].renewed.Some?
      ensures Accepts(passes[..m]) < |sent| && sent[Accepts(passes[..m])].grant == passes[m].renewed.value
    {
      if m > 0 {
        AcceptsCons(passes, m - 1);
        assert passes[1..][m - 1] == passes[m];
      }
    }
  }

  /** A flush delivers, in order, exactly the bodies that a pass of their own found accepted, each in time and under its
      identity; it succeeds exactly when that was all of them, and otherwise says which pass stopped it. What is not
      accepted stays queued. */
  lemma {:induction false} FlushIff(c: Config, s: State, passes: seq<Pass>) returns (n: nat)
    requires Accounted(c, s)
    ensures var (r, err) := Flush(c, s, passes); FlushedBy(s, passes, r, err, n)
    decreases |passes|
  {
    n := 0;
    if s.queue == [] || passes == [] || !Continues(passes[0], s.queue[0].grant.identity) {
      FlushStops(c, s, passes);
    } else {
      var s' := Called(s, passes[0]);
      var (r, err) := Flush(c, s, passes);
      CalledFacts(c, s, passes[0]);
      FlushContinues(c, s, passes);
      if passes[0].rpc.Accepted? {
        DeliverKeeps(c, s');
        n := FlushIff(c, DeliverHead(c, s'), passes[1..]);
        FlushedAccepted(s, passes, s'.queue[0], DeliverHead(c, s'), r, err, n);
      } else {
        n := FlushIff(c, s', passes[1..]);
        FlushedTransient(s, passes, s', r, err, n);
      }
      n := n + 1;
    }
  }

  ghost predicate Continues(p: Pass, head: Identity) {
    Calls(p, head) && (p.rpc.Accepted? || p.rpc.Transient?)
  }

  lemma FlushStops(c: Config, s: State, passes: seq<Pass>)
    requires s.queue == [] || passes == [] || !Continues(passes[0], s.queue[0].grant.identity)
    ensures var (r, err) := Flush(c, s, passes); FlushedBy(s, passes, r, err, 0)
  {
    assert passes[..0] == [] && s.delivered[|s.delivered|..] == s.queue[..0] == [] && s.queue[0..] == s.queue;
  }

  lemma FlushContinues(c: Config, s: State, passes: seq<Pass>)
    requires s.queue != [] && passes != [] && Continues(passes[0], s.queue[0].grant.identity)
    ensures
      var s' := Called(s, passes[0]);
      Flush(c, s, passes) == Flush(c, if passes[0].rpc.Accepted? then DeliverHead(c, s') else s', passes[1..])
  {
  }

  ghost function Called(s: State, p: Pass): State
    requires s.queue != [] && Calls(p, s.queue[0].grant.identity)
  {
    if p.lapsing then RenewHead(s, p.renewed.value) else s
  }

  lemma CalledFacts(c: Config, s: State, p: Pass)
    requires Accounted(c, s) && s.queue != [] && Calls(p, s.queue[0].grant.identity)
    ensures
      var r := Called(s, p);
      && Accounted(c, r) && SameButTokens(s.queue, r.queue) && r.delivered == s.delivered
      && SameButTokens(s.queue[1..], r.queue[1..])
      && (p.lapsing ==> r.queue[0].grant == p.renewed.value)
  {
    if p.lapsing { RenewKeeps(c, s, p.renewed.value); }
  }

  /** The conditions decide: once the receiver accepted as many passes as there are bodies, the queue is empty. */
  lemma {:induction false} SpentEmpties(c: Config, s: State, passes: seq<Pass>, n: nat)
    requires Accounted(c, s) && Spent(s.queue, passes, n) && Accepts(passes[..n]) == |s.queue|
    ensures Flush(c, s, passes).1.None?
    decreases |passes|
  {
    if s.queue != [] {
      assert passes[..0] == [] && n > 0;
      assert Calls(passes[0], s.queue[Accepts(passes[..0])].grant.identity);
      CalledFacts(c, s, passes[0]);
      var s' := Called(s, passes[0]);
      AcceptsCons(passes, n - 1);
      SpentTail(s.queue, if passes[0].rpc.Accepted? then s'.queue[1..] else s'.queue, passes, n - 1);
      if passes[0].rpc.Accepted? {
        DeliverKeeps(c, s');
        SpentEmpties(c, DeliverHead(c, s'), passes[1..], n - 1);
      } else {
        SpentEmpties(c, s', passes[1..], n - 1);
      }
    }
  }

  lemma SpentTail(queue: seq<Queued>, rest: seq<Queued>, passes: seq<Pass>, n: nat)
    requires queue != [] && Spent(queue, passes, n + 1)
    requires SameButTokens(if passes[0].rpc.Accepted? then queue[1..] else queue, rest)
    ensures Spent(rest, passes[1..], n)
  {
    forall m | 0 <= m < n
      ensures
        var p, k := passes[1..][m], Accepts(passes[1..][..m]);
        && k < |rest| && Calls(p, rest[k].grant.identity) && (p.rpc.Accepted? || p.rpc.Transient?)
    {
      AcceptsCons(passes, m);
      assert Calls(passes[m + 1], queue[Accepts(passes[..m + 1])].grant.identity);
    }
  }

  // ---- Over runs ----

  /** What is new in `r` was accepted, by passes of its own. */
  ghost predicate Received(s: State, r: State, passes: seq<Pass>) {
    && s.delivered <= r.delivered && |r.delivered| - |s.delivered| <= Accepts(passes)
    && forall i :: |s.delivered| <= i < |r.delivered| ==> AcceptedBy(r.delivered[i], passes)
  }

  ghost predicate AcceptedBy(q: Queued, passes: seq<Pass>) {
    exists p :: p in passes && p.rpc.Accepted? && p.now < q.grant.identity.retryUntil
                && (p.lapsing ==> p.renewed == Some(q.grant))
  }

  lemma {:induction false} AcceptsAppend(a: seq<Pass>, b: seq<Pass>)
    ensures Accepts(a + b) == Accepts(a) + Accepts(b)
  {
    if a == [] {
      assert a + b == b;
    } else {
      assert (a + b)[1..] == a[1..] + b;
      AcceptsAppend(a[1..], b);
    }
  }

  lemma MoreAccept(q: Queued, passes: seq<Pass>, more: seq<Pass>)
    requires AcceptedBy(q, passes) && forall p :: p in passes ==> p in more
    ensures AcceptedBy(q, more)
  {
  }

  lemma ReceivedThen(s: State, r: State, t: State, a: seq<Pass>, b: seq<Pass>)
    requires Received(s, r, a) && Received(r, t, b)
    ensures Received(s, t, a + b)
  {
    AcceptsAppend(a, b);
    forall i | |s.delivered| <= i < |t.delivered| ensures AcceptedBy(t.delivered[i], a + b) {
      MoreAccept(t.delivered[i], if i < |r.delivered| then a else b, a + b);
    }
  }

  lemma {:induction false} AcceptsAt(passes: seq<Pass>, n: nat, k: nat) returns (m: nat)
    requires n <= |passes| && k < Accepts(passes[..n])
    ensures m < n && passes[m].rpc.Accepted? && Accepts(passes[..m]) == k
  {
    assert passes[..n] != [];
    AcceptsCons(passes, n - 1);
    if passes[0].rpc.Accepted? && k == 0 {
      assert passes[..0] == [];
      m := 0;
    } else {
      m := AcceptsAt(passes[1..], n - 1, if passes[0].rpc.Accepted? then k - 1 else k);
      AcceptsCons(passes, m);
      m := m + 1;
    }
  }

  lemma {:induction false} AcceptsTake(passes: seq<Pass>, n: nat)
    requires n <= |passes|
    ensures Accepts(passes[..n]) <= Accepts(passes)
  {
    AcceptsAppend(passes[..n], passes[n..]);
    assert passes[..n] + passes[n..] == passes;
  }

  lemma FlushReceives(c: Config, s: State, passes: seq<Pass>)
    requires Accounted(c, s)
    ensures Received(s, Flush(c, s, passes).0, passes)
  {
    var n := FlushIff(c, s, passes);
    var r := Flush(c, s, passes).0;
    AcceptsTake(passes, n);
    var sent := r.delivered[|s.delivered|..];
    forall i | |s.delivered| <= i < |r.delivered| ensures AcceptedBy(r.delivered[i], passes) {
      var k := i - |s.delivered|;
      var m := AcceptsAt(passes, n, k);
      assert passes[m] in passes && sent[k] == r.delivered[i];
      assert s.queue[..Accepts(passes[..n])][k] == s.queue[k];
    }
  }

  function Passes(e: Event): seq<Pass> {
    match e
    case Collected(x) => x.makeRoom + x.after
    case ForceFlush(passes) => passes
    case ShutDown(passes) => passes
  }

  function AllPasses(es: seq<Event>): seq<Pass> {
    if es == [] then [] else Passes(es[0]) + AllPasses(es[1..])
  }

  lemma EnqueueReceives(c: Config, s: State, bodies: seq<Body>, x: Collection)
    requires Accounted(c, s)
    ensures Received(s, Enqueue(c, s, bodies, x).0, x.makeRoom + x.after)
  {
    FlushReceives(c, s, x.makeRoom);
    FlushFacts(c, s, x.makeRoom);
    var (s1, err) := if NoRoom(c, s, bodies) && s.queue != [] then Flush(c, s, x.makeRoom) else (s, None);
    assert Received(s, s1, x.makeRoom);
    if err.None? && !NoRoom(c, s1, bodies) {
      AdmitKeeps(c, s1, bodies);
      FlushReceives(c, Admit(c, s1, bodies), x.after);
      ReceivedThen(s, s1, Enqueue(c, s, bodies, x).0, x.makeRoom, x.after);
    } else {
      ReceivedThen(s, s1, s1, x.makeRoom, x.after);
    }
  }

  lemma NothingReceived(s: State, r: State, passes: seq<Pass>)
    requires r.delivered == s.delivered
    ensures Received(s, r, passes)
  {
  }

  lemma ReceivedSince(s: State, s1: State, r: State, passes: seq<Pass>)
    requires Received(s1, r, passes) && s1.delivered == s.delivered
    ensures Received(s, r, passes)
  {
  }

  lemma CollectReceives(c: Config, s: State, x: Collection)
    requires Accounted(c, s)
    ensures Received(s, Collect(c, s, x).0, x.makeRoom + x.after)
  {
    CollectIs(c, s, x);
    NothingReceived(s, s, x.makeRoom + x.after);
    if Collect(c, s, x).0 != s {
      var s1 := s.(nextSequence := s.nextSequence + RequestCount(x.data.value));
      AccountsOnly(c, s, s1);
      var bodies := RequestBodies(c.size, c.maxRpc, NumberRequest(x.data.value, s.nextSequence));
      if bodies.Ok? { EnqueueReceives(c, s1, bodies.value, x); }
    }
  }

  lemma ExportReceives(c: Config, s: State, x: Collection)
    requires Accounted(c, s)
    ensures Received(s, Export(c, s, x).0, x.makeRoom + x.after)
  {
    NothingReceived(s, s, x.makeRoom + x.after);
    if !s.closed && RenewCurrent(s, x).Ok? {
      var s1 := RenewCurrent(s, x).value;
      if Rotate(s1, x).Ok? {
        var s2 := Rotate(s1, x).value;
        AccountsOnly(c, s, s2);
        CollectReceives(c, s2, x);
      }
    }
  }

  lemma NextReceives(c: Config, s: State, e: Event)
    requires Accounted(c, s)
    ensures Received(s, Next(c, s, e), Passes(e))
  {
    match e
    case Collected(x) => ExportReceives(c, s, x);
    case ForceFlush(passes) => FlushReceives(c, s, passes);
    case ShutDown(passes) =>
      AccountsOnly(c, s, s.(closed := true));
      FlushReceives(c, s.(closed := true), passes);
  }

  /** Over any run, whatever left the queue was accepted: in time for its epoch, with a renewed token where the old one
      was about to lapse, and no more bodies left than passes were accepted. */
  lemma {:induction false} DeliveredIsAccepted(c: Config, s: State, es: seq<Event>)
    requires Accounted(c, s)
    ensures Received(s, Run(c, s, es), AllPasses(es))
    decreases |es|
  {
    if es != [] {
      NextReceives(c, s, es[0]);
      NextKeepsAccounts(c, s, es[0]);
      DeliveredIsAccepted(c, Next(c, s, es[0]), es[1..]);
      ReceivedThen(s, Next(c, s, es[0]), Run(c, s, es), Passes(es[0]), AllPasses(es[1..]));
    }
  }

  // ---- Taking a collection ----

  /** The grant in force for a collection: a lapsing token is renewed, and an epoch that is over makes way for a fresh
      one that is not. `base` is the last number used in it. */
  ghost predicate InForce(s: State, x: Collection, g: Grant, base: nat) {
    var current := if x.lapsing && x.renewed.Some? then x.renewed.value else s.current;
    && !s.closed && (x.lapsing ==> x.renewed.Some? && x.renewed.value.identity == s.current.identity)
    && if x.now < s.current.identity.notAfter then g == current && base == s.nextSequence
       else x.acquired == Some(g) && g.identity.epoch != s.current.identity.epoch && x.acquiredAt < g.identity.notAfter
            && base == 0
  }

  /** The points are good for the grant and can be numbered and split. */
  ghost predicate Splits(c: Config, x: Collection, g: Grant, base: nat, bodies: seq<Body>) {
    && x.data.Some? && (forall p :: p in RequestParts(x.data.value) ==> p.point.end <= g.identity.notAfter * NANOS)
    && base + |RequestParts(x.data.value)| <= 0x100_0000
    && RequestBodies(c.size, c.maxRpc, NumberRequest(x.data.value, base)) == Ok(bodies)
  }

  ghost predicate Drains(queue: seq<Queued>, passes: seq<Pass>) {
    exists n: nat :: Spent(queue, passes, n) && Accepts(passes[..n]) == |queue|
  }

  lemma DrainsIff(c: Config, s: State, passes: seq<Pass>)
    requires Accounted(c, s)
    ensures Drains(s.queue, passes) <==> Flush(c, s, passes).1.None?
    ensures Drains(s.queue, passes) ==> Flush(c, s, passes).0.queue == [] && Flush(c, s, passes).0.retained == 0
  {
    var n := FlushIff(c, s, passes);
    FlushFacts(c, s, passes);
    if Drains(s.queue, passes) {
      var k: nat :| Spent(s.queue, passes, k) && Accepts(passes[..k]) == |s.queue|;
      SpentEmpties(c, s, passes, k);
    }
  }

  /** The bodies fit beside what is queued, or by themselves once everything queued was delivered to make room. */
  ghost predicate HasRoom(c: Config, s: State, x: Collection, bodies: seq<Body>) {
    && |bodies| <= c.maxPending && TotalLen(c, bodies) <= c.maxRetained
    && (|| (|s.queue| + |bodies| <= c.maxPending && s.retained + TotalLen(c, bodies) <= c.maxRetained)
        || Drains(s.queue, x.makeRoom))
  }

  /** The bodies were admitted behind everything before them, under a grant for the current epoch. */
  ghost predicate Took(s: State, r: State, bodies: seq<Body>) {
    exists g :: r.admitted == s.admitted + Queue(bodies, g) && g.identity.epoch == s.current.identity.epoch
  }

  lemma RoomMade(c: Config, s: State, bodies: seq<Body>, x: Collection)
    requires Accounted(c, s)
    ensures
      var (s1, err) := if NoRoom(c, s, bodies) && s.queue != [] then Flush(c, s, x.makeRoom) else (s, None);
      && (HasRoom(c, s, x, bodies) <==> err.None? && !NoRoom(c, s1, bodies))
      && OnlyFlushed(s, s1) && Accounted(c, s1) && (s1.current == s.current || NoRoom(c, s, bodies))
  {
    DrainsIff(c, s, x.makeRoom);
    FlushFacts(c, s, x.makeRoom);
  }

  lemma EnqueueTakes(c: Config, s: State, bodies: seq<Body>, x: Collection)
    requires Accounted(c, s)
    ensures
      var (r, err) := Enqueue(c, s, bodies, x);
      if HasRoom(c, s, x, bodies)
      then Took(s, r, bodies) && (err.None? <==> r.queue == []) && err != Some(BufferFull)
      else r.admitted == s.admitted && err == Some(BufferFull)
  {
    RoomMade(c, s, bodies, x);
    var (s1, err) := if NoRoom(c, s, bodies) && s.queue != [] then Flush(c, s, x.makeRoom) else (s, None);
    if HasRoom(c, s, x, bodies) {
      AdmitKeeps(c, s1, bodies);
      FlushFacts(c, Admit(c, s1, bodies), x.after);
      var n := FlushIff(c, Admit(c, s1, bodies), x.after);
    }
  }

  /** The collection can be taken, as `bodies` under `g`. */
  ghost predicate Takes(c: Config, s: State, x: Collection, g: Grant, base: nat, bodies: seq<Body>) {
    Splits(c, x, g, base, bodies) && HasRoom(c, s, x, bodies)
  }

  lemma CollectTakes(c: Config, s: State, x: Collection, bodies: seq<Body>)
    requires Accounted(c, s) && Takes(c, s, x, s.current, s.nextSequence, bodies)
    ensures
      var (r, err) := Collect(c, s, x);
      Took(s, r, bodies) && (err.None? <==> r.queue == []) && err != Some(BufferFull)
  {
    var s1 := s.(nextSequence := s.nextSequence + RequestCount(x.data.value));
    CollectEnqueues(c, s, x, bodies);
    AccountsOnly(c, s, s1);
    EnqueueTakes(c, s1, bodies, x);
  }

  lemma CollectEnqueues(c: Config, s: State, x: Collection, bodies: seq<Body>)
    requires Splits(c, x, s.current, s.nextSequence, bodies)
    ensures
      var s1 := s.(nextSequence := s.nextSequence + RequestCount(x.data.value));
      Collect(c, s, x) == Enqueue(c, s1, bodies, x)
  {
    NumberedRequest(x.data.value, s.nextSequence);
  }

  lemma CollectStops(c: Config, s: State, x: Collection)
    requires forall bodies :: !Splits(c, x, s.current, s.nextSequence, bodies)
    ensures Collect(c, s, x).0.admitted == s.admitted && Collect(c, s, x).1.Some?
  {
    if x.data.Some? {
      NumberedRequest(x.data.value, s.nextSequence);
      var split := RequestBodies(c.size, c.maxRpc, NumberRequest(x.data.value, s.nextSequence));
      assert split.Ok? ==> !Splits(c, x, s.current, s.nextSequence, split.value);
    }
  }

  lemma CollectRefuses(c: Config, s: State, x: Collection)
    requires Accounted(c, s) && forall bodies :: !Takes(c, s, x, s.current, s.nextSequence, bodies)
    ensures var (r, err) := Collect(c, s, x); r.admitted == s.admitted && err.Some?
  {
    if bodies :| Splits(c, x, s.current, s.nextSequence, bodies) {
      var s1 := s.(nextSequence := s.nextSequence + RequestCount(x.data.value));
      CollectEnqueues(c, s, x, bodies);
      AccountsOnly(c, s, s1);
      EnqueueTakes(c, s1, bodies, x);
      assert !Takes(c, s, x, s.current, s.nextSequence, bodies);
    } else {
      CollectStops(c, s, x);
    }
  }

  /** The state an export collects in, when it comes to that. */
  ghost predicate Enters(s: State, x: Collection, s2: State) {
    && InForce(s, x, s2.current, s2.nextSequence)
    && s2 == s.(current := s2.current, nextSequence := s2.nextSequence, trail := s2.trail)
  }

  lemma ExportEnters(c: Config, s: State, x: Collection)
    ensures (exists g, base :: InForce(s, x, g, base)) ==>
              exists s2 :: Enters(s, x, s2) && Export(c, s, x) == Collect(c, s2, x)
    ensures (forall g, base :: !InForce(s, x, g, base)) ==>
              Export(c, s, x).0.admitted == s.admitted && Export(c, s, x).1.Some?
  {
    if !s.closed && RenewCurrent(s, x).Ok? {
      var s1 := RenewCurrent(s, x).value;
      if Rotate(s1, x).Ok? {
        var s2 := Rotate(s1, x).value;
        assert Enters(s, x, s2);
      }
    }
  }

  lemma InForceOnce(s: State, x: Collection, g: Grant, base: nat, g': Grant, base': nat)
    requires InForce(s, x, g, base) && InForce(s, x, g', base')
    ensures g == g' && base == base'
  {
  }

  /** A collection is taken whole exactly when the exporter is open, a grant is in force, the points end in its time and
      can be numbered and split, and there is or can be made room; success means that it, and everything before it, was
      delivered. Otherwise none of it is taken, and that is an error. */
  lemma TakenIff(c: Config, s: State, x: Collection)
    requires Accounted(c, s)
    ensures
      var (r, err) := Export(c, s, x);
      if exists g, base, bodies :: InForce(s, x, g, base) && Takes(c, s, x, g, base, bodies)
      then (exists g, g', base, bodies ::
              && InForce(s, x, g, base) && Takes(c, s, x, g, base, bodies)
              && r.admitted == s.admitted + Queue(bodies, g') && g'.identity.epoch == g.identity.epoch)
           && (err.None? <==> r.queue == [])
      else r.admitted == s.admitted && err.Some?
  {
    var (r, err) := Export(c, s, x);
    ExportEnters(c, s, x);
    if exists g, base :: InForce(s, x, g, base) {
      var s2 :| Enters(s, x, s2) && Export(c, s, x) == Collect(c, s2, x);
      AccountsOnly(c, s, s2);
      if exists g, base, bodies :: InForce(s, x, g, base) && Takes(c, s, x, g, base, bodies) {
        var g, base, bodies :| InForce(s, x, g, base) && Takes(c, s, x, g, base, bodies);
        InForceOnce(s, x, g, base, s2.current, s2.nextSequence);
        assert Takes(c, s2, x, s2.current, s2.nextSequence, bodies);
        CollectTakes(c, s2, x, bodies);
      } else {
        forall bodies ensures !Takes(c, s2, x, s2.current, s2.nextSequence, bodies) {
          assert Takes(c, s2, x, s2.current, s2.nextSequence, bodies) ==>
              InForce(s, x, s2.current, s2.nextSequence) && Takes(c, s, x, s2.current, s2.nextSequence, bodies);
        }
        CollectRefuses(c, s2, x);
      }
    }
  }
}
