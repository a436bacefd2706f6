/** Whether admitted points end within the epoch they are sent under. A queued body's renewal may replace the current
    grant by its own after the points were checked, so this too depends on epochs not becoming current twice. */
module MetricDeadlines {
  import opened Wrappers
  import opened Lists
  import opened MetricSplit
  import opened MetricExporter

  /** Every point of the body ends by the end of the epoch it is admitted under. */
  ghost predicate Timely(q: Queued) {
    forall p :: p in q.body.parts ==> p.point.end <= q.grant.identity.notAfter * NANOS
  }

  ghost predicate AllTimely(q: seq<Queued>) {
    forall i :: 0 <= i < |q| ==> Timely(q[i])
  }

  // ---- While no epoch becomes current twice ----

  /** Queued bodies are of epochs that were current; those of the current one share its identity. */
  ghost predicate Consistent(s: State) {
    && OnTrail(s)
    && forall i :: 0 <= i < |s.queue| ==>
         var g := s.queue[i].grant;
         && g.identity.epoch in s.trail
         && (g.identity.epoch == s.current.identity.epoch ==> g.identity == s.current.identity)
  }

  ghost predicate InTime(s: State) {
    Consistent(s) && AllTimely(s.admitted)
  }

  lemma RenewIsConsistent(s: State, g: Grant)
    requires InTime(s) && s.queue != [] && g.identity == s.queue[0].grant.identity
    ensures InTime(RenewHead(s, g)) && RenewHead(s, g).current.identity == s.current.identity
  {
  }

  lemma DeliverIsConsistent(c: Config, s: State)
    requires InTime(s) && s.queue != []
    ensures InTime(DeliverHead(c, s)) && DeliverHead(c, s).current.identity == s.current.identity
  {
  }

  lemma {:induction false} FlushInTime(c: Config, s: State, passes: seq<Pass>)
    requires InTime(s)
    ensures InTime(Flush(c, s, passes).0) && Flush(c, s, passes).0.current.identity == s.current.identity
    decreases |passes|
  {
    if s.queue != [] && passes != [] {
      var p := passes[0];
      if p.now < s.queue[0].grant.identity.retryUntil && (p.lapsing ==> p.renewed.Some?) &&
         (p.lapsing ==> p.renewed.value.identity == s.queue[0].grant.identity) {
        var s' := if p.lapsing then RenewHead(s, p.renewed.value) else s;
        if p.lapsing { RenewIsConsistent(s, p.renewed.value); }
        if p.rpc.Accepted? {
          DeliverIsConsistent(c, s');
          FlushInTime(c, DeliverHead(c, s'), passes[1..]);
        } else if p.rpc.Transient? {
          FlushInTime(c, s', passes[1..]);
        }
      }
    }
  }

  lemma AdmitInTime(c: Config, s: State, bodies: seq<Body>)
    requires InTime(s) && AllTimely(Queue(bodies, s.current))
    ensures InTime(Admit(c, s, bodies))
  {
  }

  lemma EnqueueInTime(c: Config, s: State, bodies: seq<Body>, x: Collection)
    requires InTime(s) && AllTimely(Queue(bodies, s.current))
    ensures InTime(Enqueue(c, s, bodies, x).0)
  {
    FlushInTime(c, s, x.makeRoom);
    var (s1, err) := if NoRoom(c, s, bodies) && s.queue != [] then Flush(c, s, x.makeRoom) else (s, None);
    if err.None? && !NoRoom(c, s1, bodies) {
      forall i | 0 <= i < |bodies| ensures Timely(Queue(bodies, s1.current)[i]) {
        assert Timely(Queue(bodies, s.current)[i]);
      }
      AdmitInTime(c, s1, bodies);
      FlushInTime(c, Admit(c, s1, bodies), x.after);
    }
  }

  lemma {:induction false} PartsWithin(bodies: seq<Body>, i: nat, p: Part)
    requires i < |bodies| && p in bodies[i].parts
    ensures p in PartsOf(bodies)
  {
    if i > 0 { PartsWithin(bodies[1..], i - 1, p); }
  }

  lemma SplitInTime(c: Config, request: Request, n: nat, bodies: seq<Body>, g: Grant)
    requires WithinEpoch(request, g) && RequestBodies(c.size, c.maxRpc, NumberRequest(request, n)) == Ok(bodies)
    ensures AllTimely(Queue(bodies, g))
  {
    RequestSplits(c.size, c.maxRpc, NumberRequest(request, n));
    NumberedRequest(request, n);
    forall i, p | 0 <= i < |bodies| && p in bodies[i].parts ensures p.point.end <= g.identity.notAfter * NANOS {
      PartsWithin(bodies, i, p);
      NumberedEnds(RequestParts(request), n, p, g.identity.notAfter * NANOS);
    }
  }

  lemma NumberedEnds(parts: seq<Part>, n: nat, p: Part, end: int)
    requires p in NumberParts(parts, n) && forall q :: q in parts ==> q.point.end <= end
    ensures p.point.end <= end
  {
    var k :| 0 <= k < |parts| && NumberParts(parts, n)[k] == p;
    assert parts[k] in parts;
  }

  lemma CollectInTime(c: Config, s: State, x: Collection)
    requires InTime(s)
    ensures InTime(Collect(c, s, x).0)
  {
    CollectIs(c, s, x);
    var r := Collect(c, s, x).0;
    if r != s {
      CollectedWithin(c, s, x);
      NumberedInTime(c, s, x, r);
    }
  }

  lemma CollectedWithin(c: Config, s: State, x: Collection)
    requires Collect(c, s, x).0 != s
    ensures x.data.Some? && WithinEpoch(x.data.value, s.current)
  {
  }

  lemma NumberedInTime(c: Config, s: State, x: Collection, r: State)
    requires InTime(s) && r != s && CollectedAs(c, s, x, r) && x.data.Some? && WithinEpoch(x.data.value, s.current)
    ensures InTime(r)
  {
    var n := s.nextSequence;
    var s1 := s.(nextSequence := n + RequestCount(x.data.value));
    var bodies := RequestBodies(c.size, c.maxRpc, NumberRequest(x.data.value, n));
    assert InTime(s1);
    if bodies.Ok? {
      SplitInTime(c, x.data.value, n, bodies.value, s.current);
      EnqueueInTime(c, s1, bodies.value, x);
    }
  }

  lemma RotateInTime(s: State, x: Collection)
    requires InTime(s) && Rotate(s, x).Ok? && Distinct(Rotate(s, x).value.trail)
    ensures InTime(Rotate(s, x).value)
  {
    if Rotates(s, x) { DistinctParts(s.trail, [x.acquired.value.identity.epoch]); }
  }

  lemma ExportInTime(c: Config, s: State, x: Collection)
    requires Accounted(c, s) && InTime(s) && Distinct(Export(c, s, x).0.trail)
    ensures InTime(Export(c, s, x).0)
  {
    if !s.closed && RenewCurrent(s, x).Ok? {
      var s1 := RenewCurrent(s, x).value;
      assert InTime(s1);
      if Rotate(s1, x).Ok? {
        var s2 := Rotate(s1, x).value;
        AccountsOnly(c, s, s2);
        CollectTrail(c, s2, x);
        RotateInTime(s1, x);
        CollectInTime(c, s2, x);
      }
    }
  }

  lemma NextInTime(c: Config, s: State, e: Event)
    requires Accounted(c, s) && InTime(s) && Distinct(Next(c, s, e).trail)
    ensures InTime(Next(c, s, e))
  {
    match e
    case Collected(x) => ExportInTime(c, s, x);
    case ForceFlush(passes) => FlushInTime(c, s, passes);
    case ShutDown(passes) =>
      assert InTime(s.(closed := true));
      FlushInTime(c, s.(closed := true), passes);
  }

  lemma {:induction false} RunInTime(c: Config, s: State, es: seq<Event>)
    requires Accounted(c, s) && InTime(s) && Distinct(Run(c, s, es).trail)
    ensures InTime(Run(c, s, es))
    decreases |es|
  {
    if es != [] {
      var next := Next(c, s, es[0]);
      NextKeepsAccounts(c, s, es[0]);
      RunTrail(c, next, es[1..]);
      DistinctPrefix(next.trail, Run(c, s, es).trail);
      NextInTime(c, s, es[0]);
      RunInTime(c, next, es[1..]);
    }
  }

  // ---- When one does ----

  const TIGHT: Config := Config((header: string, parts: seq<Part>) => 1, 10, 10, 1)

  lemma {:induction false} RunThen(c: Config, s: State, a: seq<Event>, b: seq<Event>)
    ensures Run(c, s, a + b) == Run(c, Run(c, s, a), b)
    decreases |a|
  {
    if a == [] {
      assert a + b == b;
    } else {
      assert (a + b)[1..] == a[1..] + b;
      RunThen(c, Next(c, s, a[0]), a[1..], b);
    }
  }

  /** Epoch `k` is current, whatever grant of it. */
  ghost predicate At(s: State, epochs: seq<string>, k: nat) {
    && k < |epochs| && !s.closed && s.trail == epochs[..k + 1]
    && s.current.identity.epoch == epochs[k] && s.current.identity.notAfter <= k + 1
  }

  /** From epoch to epoch without collecting anything. */
  lemma {:induction false} Walk(s: State, epochs: seq<string>, i: nat, j: nat) returns (es: seq<Event>)
    requires Changes(epochs) && At(s, epochs, i) && i <= j < |epochs|
    ensures At(Run(TIGHT, s, es), epochs, j)
    ensures Run(TIGHT, s, es) == if i == j then s else
              s.(current := NthGrant(epochs, j), nextSequence := 0, trail := epochs[..j + 1])
    decreases j - i
  {
    if i == j {
      es := [];
    } else {
      var g := NthGrant(epochs, i + 1);
      var x := Collection(i + 1, false, None, Some(g), i + 1, None, [], []);
      var next := Next(TIGHT, s, Collected(x));
      assert epochs[..i + 2] == epochs[..i + 1] + [epochs[i + 1]];
      assert next == s.(current := g, nextSequence := 0, trail := epochs[..i + 2]);
      var rest := Walk(next, epochs, i + 1, j);
      es := [Collected(x)] + rest;
    }
  }

  function PointAt(end: nat): Request {
    [Resource("r", [Scope("s", [Metric("m", Gauge, [Point(0, end, "")])])])]
  }

  function BodyAt(n: nat, end: nat): Body {
    Body("r", [Part("s", "m", Gauge, Point(n, end, ""))])
  }

  lemma PointAtBodies(end: nat, n: nat)
    ensures RequestBodies(TIGHT.size, TIGHT.maxRpc, NumberRequest(PointAt(end), n)) == Ok([BodyAt(n + 1, end)])
    ensures RequestCount(PointAt(end)) == 1 && RequestParts(PointAt(end)) == [Part("s", "m", Gauge, Point(0, end, ""))]
  {
    var scopes := PointAt(end)[0].scopes;
    NumberedScopes(scopes, n);
    assert MetricParts("s", scopes[0].metrics[0]) == [Part("s", "m", Gauge, Point(0, end, ""))];
    assert ScopeParts("s", scopes[0].metrics) == MetricParts("s", scopes[0].metrics[0]);
    assert ResourceParts(scopes) == [Part("s", "m", Gauge, Point(0, end, ""))];
    var numbered := NumberScopes(scopes, n);
    var part := Part("s", "m", Gauge, Point(n + 1, end, ""));
    assert ResourceParts(numbered) == [part];
    assert NumberRequest(PointAt(end), n) == [Resource("r", numbered)];
    assert [] + [part] == [part];
    assert Greedy(TIGHT.size, TIGHT.maxRpc, "r", [], [part]) == Ok([BodyAt(n + 1, end)]);
    assert RequestBodies(TIGHT.size, TIGHT.maxRpc, []) == Ok([]);
    assert [BodyAt(n + 1, end)] + [] == [BodyAt(n + 1, end)];
  }

  /** A point admitted under the k-th grant and kept: the deadline comes before any call. */
  lemma Hold(s: State, epochs: seq<string>, k: nat) returns (e: Event)
    requires k < |epochs| && s.current == NthGrant(epochs, k) && !s.closed && s.nextSequence == 0
    requires s.queue == [] && s.retained == 0 && s.admitted == []
    ensures
      var q := Queued(BodyAt(1, 0), s.current);
      Next(TIGHT, s, e) == s.(nextSequence := 1, queue := [q], retained := 1, admitted := [q])
  {
    var x := Collection(0, false, None, None, 0, Some(PointAt(0)), [], []);
    PointAtBodies(0, 0);
    HoldOne(s.(nextSequence := 1), x);
    e := Collected(x);
  }

  lemma HoldOne(s: State, x: Collection)
    requires s.queue == [] && s.retained == 0 && s.admitted == [] && x.after == []
    ensures
      var q := Queued(BodyAt(1, 0), s.current);
      Enqueue(TIGHT, s, [BodyAt(1, 0)], x).0 == s.(queue := [q], retained := 1, admitted := [q])
  {
    var bodies := [BodyAt(1, 0)];
    assert BodyLen(TIGHT, bodies[0]) == 1 && bodies[1..] == [] && TotalLen(TIGHT, bodies) == 1;
    assert Queue(bodies, s.current) == [Queued(BodyAt(1, 0), s.current)];
    assert [] + Queue(bodies, s.current) == Queue(bodies, s.current);
    assert !NoRoom(TIGHT, s, bodies);
  }

  /** A point checked against the k-th grant while the held body, of the same epoch but an earlier grant, makes room. */
  lemma Late(s: State, epochs: seq<string>, i: nat, k: nat) returns (e: Event)
    requires i < k < |epochs| && epochs[i] == epochs[k] && s.current == NthGrant(epochs, k) && At(s, epochs, k)
    requires s.nextSequence == 0 && s.queue == [Queued(BodyAt(1, 0), NthGrant(epochs, i))] && s.retained == 1
    ensures
      var r := Next(TIGHT, s, e);
      && At(r, epochs, k)
      && r.admitted == s.admitted + [Queued(BodyAt(1, (k + 1) * NANOS), NthGrant(epochs, i))]
  {
    var end := (k + 1) * NANOS;
    var g := NthGrant(epochs, i);
    var x := Collection(0, false, None, None, 0, Some(PointAt(end)), [Pass(0, true, Some(g), Accepted)], []);
    e := Collected(x);
    PointAtBodies(end, 0);
    var s1 := s.(nextSequence := 1);
    var bodies := [BodyAt(1, end)];
    assert BodyLen(TIGHT, bodies[0]) == 1 && bodies[1..] == [] && TotalLen(TIGHT, bodies) == 1;
    assert Queue(bodies, g) == [Queued(BodyAt(1, end), g)];
    MakesRoom(s1, g);
    var s2 := Flush(TIGHT, s1, x.makeRoom).0;
    assert Next(TIGHT, s, e) == Enqueue(TIGHT, s1, bodies, x).0;
    assert Enqueue(TIGHT, s1, bodies, x).0 == Flush(TIGHT, Admit(TIGHT, s2, bodies), []).0;
  }

  lemma MakesRoom(s: State, g: Grant)
    requires s.queue == [Queued(BodyAt(1, 0), g)] && s.retained == 1 && s.current.identity.epoch == g.identity.epoch
    requires g.identity.retryUntil == 1
    ensures
      Flush(TIGHT, s, [Pass(0, true, Some(g), Accepted)]) ==
      (s.(queue := [], retained := 0, current := g, delivered := s.delivered + s.queue), None)
  {
    var passes := [Pass(0, true, Some(g), Accepted)];
    assert BodyLen(TIGHT, s.queue[0].body) == 1;
    assert RenewHead(s, g) == s.(current := g);
    var r := s.(queue := [], retained := 0, current := g, delivered := s.delivered + s.queue);
    assert DeliverHead(TIGHT, s.(current := g)) == r;
    assert passes[1..] == [] && Flush(TIGHT, r, []) == (r, None);
  }

  ghost predicate LateAlong(c: Config, g: Grant, es: seq<Event>, epochs: seq<string>) {
    Run(c, Start(g), es).trail == epochs && !AllTimely(Run(c, Start(g), es).admitted)
  }

  lemma RunCons(c: Config, s: State, e: Event, es: seq<Event>)
    ensures Run(c, s, [e] + es) == Run(c, Next(c, s, e), es)
  {
    assert ([e] + es)[1..] == es;
  }

  /** To the first of two equal epochs, where a body is kept. */
  lemma Early(epochs: seq<string>, i: nat) returns (es: seq<Event>)
    requires Changes(epochs) && i < |epochs|
    ensures
      var s := Run(TIGHT, Start(NthGrant(epochs, 0)), es);
      var q := Queued(BodyAt(1, 0), NthGrant(epochs, i));
      At(s, epochs, i) && s.queue == [q] && s.retained == 1 && s.admitted == [q]
  {
    var s0 := Start(NthGrant(epochs, 0));
    assert epochs[..1] == [epochs[0]];
    var a := Walk(s0, epochs, 0, i);
    var hold := Hold(Run(TIGHT, s0, a), epochs, i);
    RunAppend(TIGHT, s0, a, hold);
    es := a + [hold];
  }

  /** From there to the last epoch, past the second of the two. */
  lemma Onwards(s: State, epochs: seq<string>, i: nat, k: nat) returns (es: seq<Event>)
    requires Changes(epochs) && i < k < |epochs| && epochs[i] == epochs[k] && At(s, epochs, i)
    requires s.queue == [Queued(BodyAt(1, 0), NthGrant(epochs, i))] && s.retained == 1
    ensures
      var r := Run(TIGHT, s, es);
      && r.trail == epochs && r.admitted == s.admitted + [Queued(BodyAt(1, (k + 1) * NANOS), NthGrant(epochs, i))]
  {
    var b := Walk(s, epochs, i, k);
    var s3 := Run(TIGHT, s, b);
    var late := Late(s3, epochs, i, k);
    var s4 := Next(TIGHT, s3, late);
    var d := Walk(s4, epochs, k, |epochs| - 1);
    RunThen(TIGHT, s, b, [late] + d);
    RunCons(TIGHT, s3, late, d);
    es := b + ([late] + d);
    assert epochs[..|epochs|] == epochs;
  }

  lemma RepeatedEpochIsLate(epochs: seq<string>)
    requires Changes(epochs) && !Distinct(epochs)
    ensures exists c, g, es :: LateAlong(c, g, es, epochs)
  {
    DistinctIff(epochs);
    var i, k :| 0 <= i < k < |epochs| && epochs[i] == epochs[k];
    var s0 := Start(NthGrant(epochs, 0));
    var a := Early(epochs, i);
    var b := Onwards(Run(TIGHT, s0, a), epochs, i, k);
    RunThen(TIGHT, s0, a, b);
    LastIsLate(Run(TIGHT, s0, a + b), epochs, i, k);
    assert LateAlong(TIGHT, NthGrant(epochs, 0), a + b, epochs);
  }

  lemma LastIsLate(r: State, epochs: seq<string>, i: nat, k: nat)
    requires i < k < |epochs| && r.admitted != []
    requires r.admitted[|r.admitted| - 1] == Queued(BodyAt(1, (k + 1) * NANOS), NthGrant(epochs, i))
    ensures !AllTimely(r.admitted)
  {
    var q := r.admitted[|r.admitted| - 1];
    assert q.body.parts[0] in q.body.parts;
    assert !Timely(q);
  }

  /** Some run through exactly these epochs admits a point under an epoch that ends before it if and only if one of them
      became current twice. */
  lemma LateIff(epochs: seq<string>)
    ensures (exists c, g, es :: LateAlong(c, g, es, epochs)) <==> Changes(epochs) && !Distinct(epochs)
  {
    if c, g, es :| LateAlong(c, g, es, epochs) {
      StartIsGood(c, g);
      RunTrail(c, Start(g), es);
      if Distinct(epochs) { RunInTime(c, Start(g), es); }
    }
    if Changes(epochs) && !Distinct(epochs) {
      RepeatedEpochIsLate(epochs);
    }
  }
}
