/** The metric exporter: a bounded queue of immutable RPC bodies with byte accounting, epoch rotation and dense point
    sequence numbers. All operations hold the export gate, so each is one step; what the grant provider, the receiver
    and the clock answer is chosen by the environment. */
module MetricExporter {
  import opened Wrappers
  import opened Lists
  import opened MetricSplit

  const MAX_POINTS_PER_EPOCH: nat := 0x100_0000
  const NANOS: nat := 1_000_000_000

  /** Everything of a grant but its token: fixed for the life of an epoch. */
  datatype Identity = Identity(
    resource: string, producer: string, epoch: string, startedAt: int, notAfter: int, retryUntil: int)

  datatype Grant = Grant(token: string, identity: Identity)

  datatype Queued = Queued(body: Body, grant: Grant)

  datatype Config = Config(size: Size, maxRetained: nat, maxRpc: nat, maxPending: nat)

  /** `admitted`, `delivered` and `trail` record the run: what ever entered the queue, what left it and under which
      grant, and every epoch that was ever current. */
  datatype State = State(
    queue: seq<Queued>, retained: nat, closed: bool, current: Grant, nextSequence: nat,
    admitted: seq<Queued>, delivered: seq<Queued>, trail: seq<string>)

  datatype Error =
    | Shutdown | GrantUnavailable | IdentityChanged | EpochNotFresh | InvalidData | PointAfterEpoch
    | SequenceExhausted | TooLarge | BufferFull | EpochExpired | Rejected | Deadline

  function Start(g: Grant): State {
    State([], 0, false, g, 0, [], [], [g.identity.epoch])
  }

  // ---- Flushing ----

  datatype Rpc = Accepted | Partial | Transient | Fatal

  /** One pass of the retry loop: the clock, whether the token is about to lapse, and what the two services answer
      (`None` for a failed or invalid renewal). When no pass is left the deadline has come. */
  datatype Pass = Pass(now: int, lapsing: bool, renewed: Option<Grant>, rpc: Rpc)

  function BodyLen(c: Config, b: Body): nat {
    (c.size)(b.header, b.parts)
  }

  /** Renewal replaces only the token of the head, and of the current grant when it is the same epoch. */
  function RenewHead(s: State, g: Grant): State
    requires s.queue != []
  {
    s.(queue := [s.queue[0].(grant := g)] + s.queue[1..],
       current := if s.current.identity.epoch == g.identity.epoch then g else s.current)
  }

  function DeliverHead(c: Config, s: State): State
    requires s.queue != []
  {
    var n := BodyLen(c, s.queue[0].body);
    s.(queue := s.queue[1..], retained := if n <= s.retained then s.retained - n else 0,
       delivered := s.delivered + [s.queue[0]])
  }

  function Flush(c: Config, s: State, passes: seq<Pass>): (State, Option<Error>)
    decreases |passes|
  {
    if s.queue == [] then (s, None)
    else if passes == [] then (s, Some(Deadline))
    else
      var p := passes[0];
      if p.now >= s.queue[0].grant.identity.retryUntil then (s, Some(EpochExpired))
      else if p.lapsing && p.renewed.None? then (s, Some(GrantUnavailable))
      else if p.lapsing && p.renewed.value.identity != s.queue[0].grant.identity then (s, Some(IdentityChanged))
      else
        var s' := if p.lapsing then RenewHead(s, p.renewed.value) else s;
        match p.rpc
        case Accepted => Flush(c, DeliverHead(c, s'), passes[1..])
        case Transient => Flush(c, s', passes[1..])
        case Partial => (s', Some(Rejected))
        case Fatal => (s', Some(Rejected))
  }

  // ---- Numbering ----

  function NumberPoints(points: seq<Point>, n: nat): seq<Point> {
    seq(|points|, i requires 0 <= i < |points| => points[i].(identity := n + i + 1))
  }

  function NumberMetrics(ms: seq<Metric>, n: nat): seq<Metric> {
    if ms == [] then [] else
    [ms[0].(points := NumberPoints(ms[0].points, n))] + NumberMetrics(ms[1..], n + |ms[0].points|)
  }

  function MetricsCount(ms: seq<Metric>): nat {
    if ms == [] then 0 else |ms[0].points| + MetricsCount(ms[1..])
  }

  function NumberScopes(scopes: seq<Scope>, n: nat): seq<Scope> {
    if scopes == [] then [] else
    [scopes[0].(metrics := NumberMetrics(scopes[0].metrics, n))]
    + NumberScopes(scopes[1..], n + MetricsCount(scopes[0].metrics))
  }

  function ScopesCount(scopes: seq<Scope>): nat {
    if scopes == [] then 0 else MetricsCount(scopes[0].metrics) + ScopesCount(scopes[1..])
  }

  /** `assignPointSequences`: points are numbered densely in the order they are met. */
  function NumberRequest(request: Request, n: nat): Request {
    if request == [] then [] else
    [request[0].(scopes := NumberScopes(request[0].scopes, n))]
    + NumberRequest(request[1..], n + ScopesCount(request[0].scopes))
  }

  function RequestCount(request: Request): nat {
    if request == [] then 0 else ScopesCount(request[0].scopes) + RequestCount(request[1..])
  }

  function NumberParts(parts: seq<Part>, n: nat): seq<Part> {
    seq(|parts|, i requires 0 <= i < |parts| => parts[i].(point := parts[i].point.(identity := n + i + 1)))
  }

  // ---- Exporting ----

  /** What the environment answers during one `Export`. `data` is `None` when the collection is not representable. */
  datatype Collection = Collection(
    now: int, lapsing: bool, renewed: Option<Grant>, acquired: Option<Grant>, acquiredAt: int,
    data: Option<Request>, makeRoom: seq<Pass>, after: seq<Pass>)

  predicate WithinEpoch(request: Request, g: Grant) {
    forall p :: p in RequestParts(request) ==> p.point.end <= g.identity.notAfter * NANOS
  }

  function RenewCurrent(s: State, x: Collection): Result<State, Error> {
    if !x.lapsing then Ok(s)
    else if x.renewed.None? then Err(GrantUnavailable)
    else if x.renewed.value.identity != s.current.identity then Err(IdentityChanged)
    else Ok(s.(current := x.renewed.value))
  }

  predicate Rotates(s: State, x: Collection) {
    x.now >= s.current.identity.notAfter
  }

  /** The check against reuse compares the acquired epoch with the current one only. */
  function Rotate(s: State, x: Collection): Result<State, Error> {
    if !Rotates(s, x) then Ok(s)
    else if x.acquired.None? then Err(GrantUnavailable)
    else
      var g := x.acquired.value;
      if g.identity.epoch == s.current.identity.epoch || x.acquiredAt >= g.identity.notAfter then Err(EpochNotFresh)
      else Ok(s.(current := g, nextSequence := 0, trail := s.trail + [g.identity.epoch]))
  }

  function TotalLen(c: Config, bodies: seq<Body>): nat {
    if bodies == [] then 0 else BodyLen(c, bodies[0]) + TotalLen(c, bodies[1..])
  }

  predicate Overfull(c: Config, bodies: seq<Body>) {
    |bodies| > c.maxPending || TotalLen(c, bodies) > c.maxRetained
  }

  predicate NoRoom(c: Config, s: State, bodies: seq<Body>) {
    Overfull(c, bodies) || s.retained + TotalLen(c, bodies) > c.maxRetained || |s.queue| + |bodies| > c.maxPending
  }

  function Queue(bodies: seq<Body>, g: Grant): seq<Queued> {
    seq(|bodies|, i requires 0 <= i < |bodies| => Queued(bodies[i], g))
  }

  function Admit(c: Config, s: State, bodies: seq<Body>): State {
    s.(queue := s.queue + Queue(bodies, s.current), retained := s.retained + TotalLen(c, bodies),
       admitted := s.admitted + Queue(bodies, s.current))
  }

  /** Room is made by retrying the oldest bodies; they are never dropped for newer ones. */
  function Enqueue(c: Config, s: State, bodies: seq<Body>, x: Collection): (State, Option<Error>) {
    var (s1, err) := if NoRoom(c, s, bodies) && s.queue != [] then Flush(c, s, x.makeRoom) else (s, None);
    if err.Some? || NoRoom(c, s1, bodies) then (s1, Some(BufferFull))
    else Flush(c, Admit(c, s1, bodies), x.after)
  }

  function Collect(c: Config, s: State, x: Collection): (State, Option<Error>) {
    if x.data.None? then (s, Some(InvalidData))
    else if !WithinEpoch(x.data.value, s.current) then (s, Some(PointAfterEpoch))
    else
      var n := RequestCount(x.data.value);
      if s.nextSequence > MAX_POINTS_PER_EPOCH || n > MAX_POINTS_PER_EPOCH - s.nextSequence then
        (s, Some(SequenceExhausted))
      else
        var s1 := s.(nextSequence := s.nextSequence + n);
        match RequestBodies(c.size, c.maxRpc, NumberRequest(x.data.value, s.nextSequence))
        case Err(_) => (s1, Some(TooLarge))
        case Ok(bodies) => Enqueue(c, s1, bodies, x)
  }

  function Export(c: Config, s: State, x: Collection): (State, Option<Error>) {
    if s.closed then (s, Some(Shutdown)) else
    match RenewCurrent(s, x)
    case Err(e) => (s, Some(e))
    case Ok(s1) =>
      match Rotate(s1, x)
      case Err(e) => (s1, Some(e))
      case Ok(s2) => Collect(c, s2, x)
  }

  datatype Event = Collected(x: Collection) | ForceFlush(passes: seq<Pass>) | ShutDown(passes: seq<Pass>)

  function Next(c: Config, s: State, e: Event): State {
    match e
    case Collected(x) => Export(c, s, x).0
    case ForceFlush(passes) => Flush(c, s, passes).0
    case ShutDown(passes) => Flush(c, s.(closed := true), passes).0
  }

  function Run(c: Config, s: State, es: seq<Event>): State
    decreases |es|
  {
    if es == [] then s else Run(c, Next(c, s, es[0]), es[1..])
  }

  // ---- Accounting ----

  function Bodies(q: seq<Queued>): seq<Body> {
    seq(|q|, i requires 0 <= i < |q| => q[i].body)
  }

  /** What was admitted is what was delivered, then what is queued: same bodies, same order, same identities. The byte
      count is exact and both ceilings hold. */
  ghost predicate Accounted(c: Config, s: State) {
    && s.retained == TotalLen(c, Bodies(s.queue)) && s.retained <= c.maxRetained && |s.queue| <= c.maxPending
    && SameButTokens(s.admitted, s.delivered + s.queue)
  }

  /** The same bodies in the same order, each under a grant of the same identity. */
  ghost predicate SameButTokens(a: seq<Queued>, b: seq<Queued>) {
    && |a| == |b|
    && forall i :: 0 <= i < |a| ==> a[i].body == b[i].body && a[i].grant.identity == b[i].grant.identity
  }

  lemma {:induction false} TotalLenAppend(c: Config, a: seq<Body>, b: seq<Body>)
    ensures TotalLen(c, a + b) == TotalLen(c, a) + TotalLen(c, b)
  {
    if a == [] {
      assert a + b == b;
    } else {
      assert (a + b)[1..] == a[1..] + b;
      TotalLenAppend(c, a[1..], b);
    }
  }

  lemma HeadLen(c: Config, s: State)
    requires Accounted(c, s) && s.queue != []
    ensures BodyLen(c, s.queue[0].body) <= s.retained
    ensures TotalLen(c, Bodies(s.queue[1..])) == s.retained - BodyLen(c, s.queue[0].body)
    ensures Bodies(s.queue) == [s.queue[0].body] + Bodies(s.queue[1..])
  {
    assert Bodies(s.queue) == [s.queue[0].body] + Bodies(s.queue[1..]);
    assert Bodies(s.queue)[1..] == Bodies(s.queue[1..]);
  }

  lemma DeliverKeeps(c: Config, s: State)
    requires Accounted(c, s) && s.queue != []
    ensures Accounted(c, DeliverHead(c, s))
  {
    HeadLen(c, s);
    var r := DeliverHead(c, s);
    assert r.delivered + r.queue == s.delivered + s.queue;
  }

  lemma RenewKeeps(c: Config, s: State, g: Grant)
    requires Accounted(c, s) && s.queue != [] && g.identity == s.queue[0].grant.identity
    ensures Accounted(c, RenewHead(s, g))
  {
    var r := RenewHead(s, g);
    assert Bodies(r.queue) == Bodies(s.queue);
    assert forall i :: 0 <= i < |s.queue| ==>
      r.queue[i].body == s.queue[i].body && r.queue[i].grant.identity == s.queue[i].grant.identity;
  }

  /** Nothing changed but what a flush may: the queue shrank, deliveries grew, tokens were renewed. */
  ghost predicate OnlyFlushed(s: State, r: State) {
    && r.admitted == s.admitted && r.nextSequence == s.nextSequence && r.trail == s.trail && r.closed == s.closed
    && r.current.identity.epoch == s.current.identity.epoch
    && s.delivered <= r.delivered
  }

  /** Flushing delivers a prefix of the queue, unchanged and in order, and stops with success only when it is empty. */
  lemma {:induction false} FlushFacts(c: Config, s: State, passes: seq<Pass>)
    requires Accounted(c, s)
    ensures
      var (r, err) := Flush(c, s, passes);
      Accounted(c, r) && OnlyFlushed(s, r) && (err.None? <==> r.queue == [])
    decreases |passes|
  {
    if s.queue != [] && passes != [] {
      var p := passes[0];
      if p.now < s.queue[0].grant.identity.retryUntil && (p.lapsing ==> p.renewed.Some?) &&
         (p.lapsing ==> p.renewed.value.identity == s.queue[0].grant.identity) {
        var s' := if p.lapsing then RenewHead(s, p.renewed.value) else s;
        if p.lapsing { RenewKeeps(c, s, p.renewed.value); }
        if p.rpc.Accepted? {
          DeliverKeeps(c, s');
          FlushFacts(c, DeliverHead(c, s'), passes[1..]);
        } else if p.rpc.Transient? {
          FlushFacts(c, s', passes[1..]);
        }
      }
    }
  }

  lemma QueueBodies(bodies: seq<Body>, g: Grant)
    ensures Bodies(Queue(bodies, g)) == bodies
  {
  }

  lemma BodiesAppend(a: seq<Queued>, b: seq<Queued>)
    ensures Bodies(a + b) == Bodies(a) + Bodies(b)
  {
  }

  lemma AdmitKeeps(c: Config, s: State, bodies: seq<Body>)
    requires Accounted(c, s) && !NoRoom(c, s, bodies)
    ensures Accounted(c, Admit(c, s, bodies))
  {
    var r := Admit(c, s, bodies);
    QueueBodies(bodies, s.current);
    BodiesAppend(s.queue, Queue(bodies, s.current));
    TotalLenAppend(c, Bodies(s.queue), bodies);
    assert r.delivered + r.queue == s.delivered + s.queue + Queue(bodies, s.current);
  }

  lemma EnqueueKeeps(c: Config, s: State, bodies: seq<Body>, x: Collection)
    requires Accounted(c, s)
    ensures Accounted(c, Enqueue(c, s, bodies, x).0)
  {
    FlushFacts(c, s, x.makeRoom);
    var (s1, err) := if NoRoom(c, s, bodies) && s.queue != [] then Flush(c, s, x.makeRoom) else (s, None);
    if err.None? && !NoRoom(c, s1, bodies) {
      AdmitKeeps(c, s1, bodies);
      FlushFacts(c, Admit(c, s1, bodies), x.after);
    }
  }

  /** Fields the accounts do not mention may change. */
  lemma AccountsOnly(c: Config, s: State, s': State)
    requires Accounted(c, s)
    requires s'.queue == s.queue && s'.retained == s.retained
    requires s'.admitted == s.admitted && s'.delivered == s.delivered
    ensures Accounted(c, s')
  {
  }

  /** A collection is turned down, or leaves a numbered state, or enqueues its bodies on it. */
  ghost predicate CollectedAs(c: Config, s: State, x: Collection, r: State) {
    r == s
    || (&& x.data.Some? && s.nextSequence + RequestCount(x.data.value) <= MAX_POINTS_PER_EPOCH
        && var s1 := s.(nextSequence := s.nextSequence + RequestCount(x.data.value));
           var bodies := RequestBodies(c.size, c.maxRpc, NumberRequest(x.data.value, s.nextSequence));
           r == if bodies.Ok? then Enqueue(c, s1, bodies.value, x).0 else s1)
  }

  lemma CollectIs(c: Config, s: State, x: Collection)
    ensures CollectedAs(c, s, x, Collect(c, s, x).0)
  {
  }

  lemma CollectKeeps(c: Config, s: State, x: Collection)
    requires Accounted(c, s)
    ensures Accounted(c, Collect(c, s, x).0)
  {
    CollectIs(c, s, x);
    if Collect(c, s, x).0 != s {
      var s1 := s.(nextSequence := s.nextSequence + RequestCount(x.data.value));
      AccountsOnly(c, s, s1);
      var bodies := RequestBodies(c.size, c.maxRpc, NumberRequest(x.data.value, s.nextSequence));
      if bodies.Ok? { EnqueueKeeps(c, s1, bodies.value, x); }
    }
  }

  lemma ExportKeeps(c: Config, s: State, x: Collection)
    requires Accounted(c, s)
    ensures Accounted(c, Export(c, s, x).0)
  {
    if !s.closed && RenewCurrent(s, x).Ok? {
      var s1 := RenewCurrent(s, x).value;
      AccountsOnly(c, s, s1);
      if Rotate(s1, x).Ok? {
        AccountsOnly(c, s, Rotate(s1, x).value);
        CollectKeeps(c, Rotate(s1, x).value, x);
      }
    }
  }

  lemma NextKeepsAccounts(c: Config, s: State, e: Event)
    requires Accounted(c, s)
    ensures Accounted(c, Next(c, s, e))
  {
    match e
    case Collected(x) => ExportKeeps(c, s, x);
    case ForceFlush(passes) => FlushFacts(c, s, passes);
    case ShutDown(passes) =>
      assert Accounted(c, s.(closed := true));
      FlushFacts(c, s.(closed := true), passes);
  }

  /** Over any run: no body is lost, changed, reordered or sent twice to success, the accounts are exact, and a queued
      body keeps the identity it was admitted under. */
  lemma {:induction false} RunConserves(c: Config, s: State, es: seq<Event>)
    requires Accounted(c, s)
    ensures Accounted(c, Run(c, s, es))
    decreases |es|
  {
    if es != [] {
      NextKeepsAccounts(c, s, es[0]);
      RunConserves(c, Next(c, s, es[0]), es[1..]);
    }
  }

  // ---- Sequence numbers ----

  lemma NumberPartsAppend(a: seq<Part>, b: seq<Part>, n: nat)
    ensures NumberParts(a + b, n) == NumberParts(a, n) + NumberParts(b, n + |a|)
  {
  }

  lemma NumberedMetric(scope: string, m: Metric, n: nat)
    ensures MetricParts(scope, m.(points := NumberPoints(m.points, n))) == NumberParts(MetricParts(scope, m), n)
    ensures |MetricParts(scope, m)| == |m.points|
  {
  }

  lemma {:induction false} NumberedMetrics(scope: string, ms: seq<Metric>, n: nat)
    ensures ScopeParts(scope, NumberMetrics(ms, n)) == NumberParts(ScopeParts(scope, ms), n)
    ensures |ScopeParts(scope, ms)| == MetricsCount(ms)
  {
    if ms != [] {
      NumberedMetrics(scope, ms[1..], n + |ms[0].points|);
      NumberedMetric(scope, ms[0], n);
      assert NumberMetrics(ms, n)[1..] == NumberMetrics(ms[1..], n + |ms[0].points|);
      NumberPartsAppend(MetricParts(scope, ms[0]), ScopeParts(scope, ms[1..]), n);
    }
  }

  lemma {:induction false} NumberedScopes(scopes: seq<Scope>, n: nat)
    ensures ResourceParts(NumberScopes(scopes, n)) == NumberParts(ResourceParts(scopes), n)
    ensures |ResourceParts(scopes)| == ScopesCount(scopes)
  {
    if scopes != [] {
      var s := scopes[0];
      NumberedMetrics(s.name, s.metrics, n);
      NumberedScopes(scopes[1..], n + MetricsCount(s.metrics));
      assert NumberScopes(scopes, n)[1..] == NumberScopes(scopes[1..], n + MetricsCount(s.metrics));
      NumberPartsAppend(ScopeParts(s.name, s.metrics), ResourceParts(scopes[1..]), n);
    }
  }

  /** Numbering touches nothing but identities, which run densely from `n + 1` over all the request's points. */
  lemma {:induction false} NumberedRequest(request: Request, n: nat)
    ensures RequestParts(NumberRequest(request, n)) == NumberParts(RequestParts(request), n)
    ensures |RequestParts(request)| == RequestCount(request)
  {
    if request != [] {
      var r := request[0];
      NumberedScopes(r.scopes, n);
      NumberedRequest(request[1..], n + ScopesCount(r.scopes));
      assert NumberRequest(request, n)[1..] == NumberRequest(request[1..], n + ScopesCount(r.scopes));
      NumberPartsAppend(ResourceParts(r.scopes), RequestParts(request[1..]), n);
    }
  }

  /** The point identity the receiver sees: an epoch and a number within it. */
  datatype Token = Token(epoch: string, number: nat)

  function BodyTokens(b: Body, epoch: string): seq<Token> {
    seq(|b.parts|, i requires 0 <= i < |b.parts| => Token(epoch, b.parts[i].point.identity))
  }

  /** The identities of all admitted points, in the order of admission. */
  function Tokens(q: seq<Queued>): seq<Token> {
    if q == [] then [] else Tokens(q[..|q| - 1]) + BodyTokens(q[|q| - 1].body, q[|q| - 1].grant.identity.epoch)
  }

  lemma TokensSnoc(q: seq<Queued>, e: Queued)
    ensures Tokens(q + [e]) == Tokens(q) + BodyTokens(e.body, e.grant.identity.epoch)
  {
    assert (q + [e])[..|q|] == q;
  }

  lemma {:induction false} TokensAppend(a: seq<Queued>, b: seq<Queued>)
    ensures Tokens(a + b) == Tokens(a) + Tokens(b)
    decreases |b|
  {
    if b == [] {
      assert a + b == a;
    } else {
      var init, last := b[..|b| - 1], b[|b| - 1];
      TokensAppend(a, init);
      TokensSnoc(a + init, last);
      TokensSnoc(init, last);
      assert b == init + [last] && a + b == a + init + [last];
    }
  }

  lemma {:induction false} TokensOfBodies(bodies: seq<Body>, g: Grant)
    ensures
      var parts := PartsOf(bodies);
      Tokens(Queue(bodies, g)) ==
      seq(|parts|, i requires 0 <= i < |parts| => Token(g.identity.epoch, parts[i].point.identity))
    decreases |bodies|
  {
    if bodies != [] {
      var first, rest := bodies[0], bodies[1..];
      TokensOfBodies(rest, g);
      assert Queue(bodies, g) == [Queued(first, g)] + Queue(rest, g);
      TokensAppend([Queued(first, g)], Queue(rest, g));
      assert Tokens([Queued(first, g)]) == BodyTokens(first, g.identity.epoch) by {
        assert [Queued(first, g)][..0] == [];
      }
    }
  }

  /** Within one epoch numbers only grow, up to the epoch's limit; `upTo` bounds those of the current epoch. */
  ghost predicate Ascending(tokens: seq<Token>, epochs: seq<string>, current: string, upTo: nat) {
    && (forall i, j :: 0 <= i < j < |tokens| && tokens[i].epoch == tokens[j].epoch ==>
          tokens[i].number < tokens[j].number)
    && (forall i :: 0 <= i < |tokens| ==>
          && 1 <= tokens[i].number <= MAX_POINTS_PER_EPOCH && tokens[i].epoch in epochs
          && (tokens[i].epoch == current ==> tokens[i].number <= upTo))
    && current in epochs
  }

  ghost predicate Sequenced(s: State) {
    && Ascending(Tokens(s.admitted), s.trail, s.current.identity.epoch, s.nextSequence)
    && s.nextSequence <= MAX_POINTS_PER_EPOCH
  }

  lemma AscendingExtended(tokens: seq<Token>, epochs: seq<string>, epoch: string, n: nat, more: seq<Token>)
    requires Ascending(tokens, epochs, epoch, n) && n + |more| <= MAX_POINTS_PER_EPOCH
    requires forall i :: 0 <= i < |more| ==> more[i] == Token(epoch, n + i + 1)
    ensures Ascending(tokens + more, epochs, epoch, n + |more|)
  {
  }

  lemma AdmittedTokens(c: Config, request: Request, n: nat, bodies: seq<Body>, g: Grant)
    requires RequestBodies(c.size, c.maxRpc, NumberRequest(request, n)) == Ok(bodies)
    ensures
      var more := Tokens(Queue(bodies, g));
      |more| == RequestCount(request) && forall i :: 0 <= i < |more| ==> more[i] == Token(g.identity.epoch, n + i + 1)
  {
    RequestSplits(c.size, c.maxRpc, NumberRequest(request, n));
    NumberedRequest(request, n);
    TokensOfBodies(bodies, g);
  }

  lemma AdmitSequences(c: Config, s: State, request: Request, bodies: seq<Body>, n: nat)
    requires Ascending(Tokens(s.admitted), s.trail, s.current.identity.epoch, n)
    requires s.nextSequence == n + RequestCount(request) <= MAX_POINTS_PER_EPOCH
    requires RequestBodies(c.size, c.maxRpc, NumberRequest(request, n)) == Ok(bodies)
    ensures Sequenced(Admit(c, s, bodies))
  {
    AdmittedTokens(c, request, n, bodies, s.current);
    TokensAppend(s.admitted, Queue(bodies, s.current));
    AscendingExtended(Tokens(s.admitted), s.trail, s.current.identity.epoch, n, Tokens(Queue(bodies, s.current)));
  }

  /** Flushing leaves everything the sequence numbers depend on. */
  lemma FlushSequences(c: Config, s: State, passes: seq<Pass>)
    requires Accounted(c, s)
    ensures
      var r := Flush(c, s, passes).0;
      && (Sequenced(s) ==> Sequenced(r))
      && r.admitted == s.admitted && r.nextSequence == s.nextSequence && r.trail == s.trail
      && r.current.identity.epoch == s.current.identity.epoch && Accounted(c, r)
  {
    FlushFacts(c, s, passes);
  }

  lemma CountedSequenced(s: State, n: nat)
    requires Sequenced(s) && s.nextSequence + n <= MAX_POINTS_PER_EPOCH
    ensures Sequenced(s.(nextSequence := s.nextSequence + n))
  {
  }

  lemma EnqueueSequences(
      c: Config, s: State, s1: State, request: Request, bodies: seq<Body>, x: Collection, r: State)
    requires Accounted(c, s) && Sequenced(s)
    requires s1 == s.(nextSequence := s.nextSequence + RequestCount(request))
    requires s1.nextSequence <= MAX_POINTS_PER_EPOCH && r == Enqueue(c, s1, bodies, x).0
    requires RequestBodies(c.size, c.maxRpc, NumberRequest(request, s.nextSequence)) == Ok(bodies)
    ensures Sequenced(r)
  {
    AccountsOnly(c, s, s1);
    CountedSequenced(s, RequestCount(request));
    FlushSequences(c, s1, x.makeRoom);
    var (s2, err) := if NoRoom(c, s1, bodies) && s1.queue != [] then Flush(c, s1, x.makeRoom) else (s1, None);
    if err.None? && !NoRoom(c, s2, bodies) {
      AdmitKeeps(c, s2, bodies);
      AdmitSequences(c, s2, request, bodies, s.nextSequence);
      FlushSequences(c, Admit(c, s2, bodies), x.after);
    }
  }

  // ---- The epochs that became current ----

  /** The trail only grows, by epochs that differ from the one before. */
  ghost predicate Trailed(before: State, after: State) {
    && before.trail <= after.trail
    && (OnTrail(before) ==> OnTrail(after))
  }

  ghost predicate Changes(trail: seq<string>) {
    trail != [] && forall i :: 1 <= i < |trail| ==> trail[i - 1] != trail[i]
  }

  ghost predicate OnTrail(s: State) {
    Changes(s.trail) && s.trail[|s.trail| - 1] == s.current.identity.epoch
  }

  lemma EnqueueTrail(c: Config, s: State, bodies: seq<Body>, x: Collection)
    requires Accounted(c, s)
    ensures
      var r := Enqueue(c, s, bodies, x).0;
      r.trail == s.trail && r.current.identity.epoch == s.current.identity.epoch
  {
    FlushFacts(c, s, x.makeRoom);
    var (s1, err) := if NoRoom(c, s, bodies) && s.queue != [] then Flush(c, s, x.makeRoom) else (s, None);
    if err.None? && !NoRoom(c, s1, bodies) {
      AdmitKeeps(c, s1, bodies);
      FlushFacts(c, Admit(c, s1, bodies), x.after);
    }
  }

  lemma CollectTrail(c: Config, s: State, x: Collection)
    requires Accounted(c, s)
    ensures Collect(c, s, x).0.trail == s.trail && Collect(c, s, x).0.current.identity.epoch == s.current.identity.epoch
  {
    CollectIs(c, s, x);
    if x.data.Some? {
      var s1 := s.(nextSequence := s.nextSequence + RequestCount(x.data.value));
      AccountsOnly(c, s, s1);
      var bodies := RequestBodies(c.size, c.maxRpc, NumberRequest(x.data.value, s.nextSequence));
      if bodies.Ok? { EnqueueTrail(c, s1, bodies.value, x); }
    }
  }

  lemma RotateTrail(s: State, x: Collection)
    requires Rotate(s, x).Ok?
    ensures Trailed(s, Rotate(s, x).value)
  {
  }

  lemma RenewTrail(s: State, x: Collection)
    requires RenewCurrent(s, x).Ok?
    ensures Trailed(s, RenewCurrent(s, x).value)
  {
  }

  lemma TrailedTrans(a: State, b: State, c: State)
    requires Trailed(a, b) && Trailed(b, c)
    ensures Trailed(a, c)
  {
  }

  lemma ExportTrail(c: Config, s: State, x: Collection)
    requires Accounted(c, s)
    ensures Trailed(s, Export(c, s, x).0)
  {
    if !s.closed && RenewCurrent(s, x).Ok? {
      var s1 := RenewCurrent(s, x).value;
      RenewTrail(s, x);
      if Rotate(s1, x).Ok? {
        var s2 := Rotate(s1, x).value;
        RotateTrail(s1, x);
        AccountsOnly(c, s, s2);
        CollectTrail(c, s2, x);
        TrailedTrans(s, s1, s2);
        TrailedTrans(s, s2, Export(c, s, x).0);
      }
    }
  }

  lemma NextTrail(c: Config, s: State, e: Event)
    requires Accounted(c, s)
    ensures Trailed(s, Next(c, s, e))
  {
    match e
    case Collected(x) => ExportTrail(c, s, x);
    case ForceFlush(passes) => FlushFacts(c, s, passes);
    case ShutDown(passes) =>
      AccountsOnly(c, s, s.(closed := true));
      FlushFacts(c, s.(closed := true), passes);
  }

  lemma {:induction false} RunTrail(c: Config, s: State, es: seq<Event>)
    requires Accounted(c, s)
    ensures Trailed(s, Run(c, s, es))
    decreases |es|
  {
    if es != [] {
      NextTrail(c, s, es[0]);
      NextKeepsAccounts(c, s, es[0]);
      RunTrail(c, Next(c, s, es[0]), es[1..]);
    }
  }

  // ---- Sequences over a run ----

  lemma CollectSequences(c: Config, s: State, x: Collection, r: State)
    requires Accounted(c, s) && Sequenced(s) && CollectedAs(c, s, x, r)
    ensures Sequenced(r)
  {
    if r != s {
      var request := x.data.value;
      var s1 := s.(nextSequence := s.nextSequence + RequestCount(request));
      var bodies := RequestBodies(c.size, c.maxRpc, NumberRequest(request, s.nextSequence));
      NumberedSequences(c, s, s1, request, bodies, x, r);
    }
  }

  lemma NumberedSequences(
      c: Config, s: State, s1: State, request: Request, bodies: Result<seq<Body>, SplitError>, x: Collection, r: State)
    requires Accounted(c, s) && Sequenced(s) && s1.nextSequence <= MAX_POINTS_PER_EPOCH
    requires s1 == s.(nextSequence := s.nextSequence + RequestCount(request))
    requires bodies == RequestBodies(c.size, c.maxRpc, NumberRequest(request, s.nextSequence))
    requires r == if bodies.Ok? then Enqueue(c, s1, bodies.value, x).0 else s1
    ensures Sequenced(r)
  {
    if bodies.Ok? {
      EnqueueSequences(c, s, s1, request, bodies.value, x, r);
    } else {
      CountedSequenced(s, RequestCount(request));
    }
  }

  lemma RotateSequences(s: State, x: Collection)
    requires Sequenced(s) && Rotate(s, x).Ok? && Distinct(Rotate(s, x).value.trail)
    ensures Sequenced(Rotate(s, x).value)
  {
    if Rotates(s, x) { DistinctParts(s.trail, [x.acquired.value.identity.epoch]); }
  }

  lemma ExportSequences(c: Config, s: State, x: Collection)
    requires Accounted(c, s) && Sequenced(s) && Distinct(Export(c, s, x).0.trail)
    ensures Sequenced(Export(c, s, x).0)
  {
    if !s.closed && RenewCurrent(s, x).Ok? {
      var s1 := RenewCurrent(s, x).value;
      assert Sequenced(s1);
      if Rotate(s1, x).Ok? {
        var s2 := Rotate(s1, x).value;
        AccountsOnly(c, s, s2);
        CollectTrail(c, s2, x);
        RotateSequences(s1, x);
        CollectIs(c, s2, x);
        CollectSequences(c, s2, x, Collect(c, s2, x).0);
      }
    }
  }

  lemma NextSequences(c: Config, s: State, e: Event)
    requires Accounted(c, s) && Sequenced(s) && Distinct(Next(c, s, e).trail)
    ensures Sequenced(Next(c, s, e))
  {
    match e
    case Collected(x) => ExportSequences(c, s, x);
    case ForceFlush(passes) => FlushFacts(c, s, passes);
    case ShutDown(passes) =>
      AccountsOnly(c, s, s.(closed := true));
      FlushFacts(c, s.(closed := true), passes);
  }

  /** As long as no epoch becomes current twice, identities along the admitted bodies ascend within their epoch. */
  lemma {:induction false} RunKeepsSequences(c: Config, s: State, es: seq<Event>)
    requires Accounted(c, s) && Sequenced(s) && Distinct(Run(c, s, es).trail)
    ensures Sequenced(Run(c, s, es))
    decreases |es|
  {
    if es != [] {
      var next := Next(c, s, es[0]);
      NextKeepsAccounts(c, s, es[0]);
      RunTrail(c, next, es[1..]);
      DistinctPrefix(next.trail, Run(c, s, es).trail);
      NextSequences(c, s, es[0]);
      RunKeepsSequences(c, next, es[1..]);
    }
  }

  lemma StartIsGood(c: Config, g: Grant)
    ensures Accounted(c, Start(g)) && Sequenced(Start(g)) && OnTrail(Start(g))
  {
  }

  /** If no epoch became current twice, no two admitted points share an identity, and within an epoch identities ascend
      in admission order up to 2^24. */
  lemma IdentitiesAreUnique(c: Config, g: Grant, es: seq<Event>, i: nat, j: nat)
    requires Distinct(Run(c, Start(g), es).trail)
    requires i < j < |Tokens(Run(c, Start(g), es).admitted)|
    ensures
      var tokens := Tokens(Run(c, Start(g), es).admitted);
      && tokens[i] != tokens[j]
      && (tokens[i].epoch == tokens[j].epoch ==> 1 <= tokens[i].number < tokens[j].number <= 0x100_0000)
  {
    StartIsGood(c, g);
    RunKeepsSequences(c, Start(g), es);
  }

  // ---- When an epoch is re-issued ----

  const ONE_POINT: Request := [Resource("r", [Scope("s", [Metric("m", Gauge, [Point(0, 0, "")])])])]

  const ROOMY: Config := Config((header: string, parts: seq<Part>) => 1, 10, 10, 10)

  function OneBody(n: nat): Body {
    Body("r", [Part("s", "m", Gauge, Point(n, 0, ""))])
  }

  lemma OnePointBodies(n: nat)
    ensures RequestBodies(ROOMY.size, ROOMY.maxRpc, NumberRequest(ONE_POINT, n)) == Ok([OneBody(n + 1)])
    ensures RequestCount(ONE_POINT) == 1 && RequestParts(ONE_POINT) == [Part("s", "m", Gauge, Point(0, 0, ""))]
  {
    var scopes := ONE_POINT[0].scopes;
    NumberedScopes(scopes, n);
    assert MetricParts("s", scopes[0].metrics[0]) == [Part("s", "m", Gauge, Point(0, 0, ""))];
    assert ScopeParts("s", scopes[0].metrics) == MetricParts("s", scopes[0].metrics[0]);
    assert ResourceParts(scopes) == [Part("s", "m", Gauge, Point(0, 0, ""))];
    var numbered := NumberScopes(scopes, n);
    var part := Part("s", "m", Gauge, Point(n + 1, 0, ""));
    assert ResourceParts(numbered) == [part];
    assert NumberRequest(ONE_POINT, n) == [Resource("r", numbered)];
    assert [] + [part] == [part];
    assert Greedy(ROOMY.size, ROOMY.maxRpc, "r", [], [part]) == Ok([OneBody(n + 1)]);
    assert RequestBodies(ROOMY.size, ROOMY.maxRpc, []) == Ok([]);
    assert [OneBody(n + 1)] + [] == [OneBody(n + 1)];
  }

  /** One body flushed at time 0 by a receiver that accepts it. */
  lemma FlushOne(s: State, body: Body)
    requires s.queue == [Queued(body, s.current)] && s.retained == 1 && s.current.identity.retryUntil > 0
    ensures Flush(ROOMY, s, [Pass(0, false, None, Accepted)]) ==
            (s.(queue := [], retained := 0, delivered := s.delivered + s.queue), None)
  {
    var passes := [Pass(0, false, None, Accepted)];
    assert BodyLen(ROOMY, body) == 1;
    var r := DeliverHead(ROOMY, s);
    assert r == s.(queue := [], retained := 0, delivered := s.delivered + s.queue);
    assert Flush(ROOMY, s, passes) == Flush(ROOMY, r, passes[1..]);
  }

  lemma EnqueueOne(s: State, body: Body, x: Collection)
    requires s.queue == [] && s.retained == 0 && s.current.identity.retryUntil > 0
    requires x.after == [Pass(0, false, None, Accepted)]
    ensures Enqueue(ROOMY, s, [body], x) ==
            (s.(admitted := s.admitted + [Queued(body, s.current)],
                delivered := s.delivered + [Queued(body, s.current)]), None)
  {
    assert TotalLen(ROOMY, [body]) == 1 by {
      assert BodyLen(ROOMY, body) == 1 && TotalLen(ROOMY, []) == 0;
    }
    assert !NoRoom(ROOMY, s, [body]);
    assert Queue([body], s.current) == [Queued(body, s.current)];
    FlushOne(Admit(ROOMY, s, [body]), body);
  }

  /** One point collected into an empty exporter is admitted under the next number and delivered. */
  lemma CollectOne(s: State, x: Collection)
    requires s.queue == [] && s.retained == 0 && s.nextSequence < MAX_POINTS_PER_EPOCH
    requires x.data == Some(ONE_POINT) && x.after == [Pass(0, false, None, Accepted)]
    requires s.current.identity.notAfter >= 0 && s.current.identity.retryUntil > 0
    ensures Collect(ROOMY, s, x).0 == Counted(s)
  {
    OnePointBodies(s.nextSequence);
    var s1 := s.(nextSequence := s.nextSequence + 1);
    EnqueueOne(s1, OneBody(s.nextSequence + 1), x);
    assert WithinEpoch(ONE_POINT, s.current);
  }

  /** `s` after one more point came and went. */
  function Counted(s: State): State {
    s.(nextSequence := s.nextSequence + 1,
       admitted := s.admitted + [Queued(OneBody(s.nextSequence + 1), s.current)],
       delivered := s.delivered + [Queued(OneBody(s.nextSequence + 1), s.current)])
  }

  /** An export that moves an empty exporter to grant `g` and then takes one point. */
  function Reset(s: State, g: Grant): State {
    Counted(s.(current := g, nextSequence := 0, trail := s.trail + [g.identity.epoch]))
  }

  lemma ExportReset(s: State, g: Grant, x: Collection)
    requires s.queue == [] && s.retained == 0 && !s.closed
    requires x == Collection(s.current.identity.notAfter, false, None, Some(g), s.current.identity.notAfter,
                             Some(ONE_POINT), [], [Pass(0, false, None, Accepted)])
    requires g.identity.epoch != s.current.identity.epoch
    requires 0 <= s.current.identity.notAfter < g.identity.notAfter && g.identity.retryUntil > 0
    ensures Next(ROOMY, s, Collected(x)) == Reset(s, g)
  {
    CollectOne(s.(current := g, nextSequence := 0, trail := s.trail + [g.identity.epoch]), x);
  }

  lemma {:induction false} RunAppend(c: Config, s: State, es: seq<Event>, e: Event)
    ensures Run(c, s, es + [e]) == Next(c, Run(c, s, es), e)
    decreases |es|
  {
    if es == [] {
      assert es + [e] == [e] && [e][1..] == [];
      assert Run(c, Next(c, s, e), []) == Next(c, s, e);
    } else {
      assert (es + [e])[1..] == es[1..] + [e];
      RunAppend(c, Next(c, s, es[0]), es[1..], e);
    }
  }

  lemma ExportFirst(g: Grant, x: Collection)
    requires x == Collection(0, false, None, None, 0, Some(ONE_POINT), [], [Pass(0, false, None, Accepted)])
    requires g.identity.notAfter > 0 && g.identity.retryUntil > 0
    ensures Next(ROOMY, Start(g), Collected(x)) == Counted(Start(g))
  {
    CollectOne(Start(g), x);
  }

  lemma CountedTokens(s: State)
    ensures Tokens(Counted(s).admitted) == Tokens(s.admitted) + [Token(s.current.identity.epoch, s.nextSequence + 1)]
  {
    var body := OneBody(s.nextSequence + 1);
    assert BodyTokens(body, s.current.identity.epoch) == [Token(s.current.identity.epoch, s.nextSequence + 1)];
    TokensAppend(s.admitted, [Queued(body, s.current)]);
    assert [Queued(body, s.current)][..0] == [];
  }

  /** The k-th grant of a provider that issues `epochs` in turn, each for one second. */
  function NthGrant(epochs: seq<string>, k: nat): Grant
    requires k < |epochs|
  {
    Grant("", Identity("", "", epochs[k], 0, k + 1, 1))
  }

  /** An idle exporter under the k-th grant that has delivered one point in every epoch so far. */
  ghost predicate OnePointEach(s: State, epochs: seq<string>, k: nat)
    requires k < |epochs|
  {
    && s.queue == [] && s.retained == 0 && !s.closed && s.current == NthGrant(epochs, k) && s.trail == epochs[..k + 1]
    && |Tokens(s.admitted)| == k + 1 && forall i :: 0 <= i <= k ==> Tokens(s.admitted)[i] == Token(epochs[i], 1)
  }

  lemma FirstPoint(epochs: seq<string>)
    requires epochs != []
    ensures OnePointEach(Counted(Start(NthGrant(epochs, 0))), epochs, 0)
  {
    CountedTokens(Start(NthGrant(epochs, 0)));
  }

  lemma NextPoint(s: State, epochs: seq<string>, k: nat)
    requires k + 1 < |epochs| && OnePointEach(s, epochs, k)
    ensures OnePointEach(Reset(s, NthGrant(epochs, k + 1)), epochs, k + 1)
  {
    var g := NthGrant(epochs, k + 1);
    CountedTokens(s.(current := g, nextSequence := 0, trail := s.trail + [g.identity.epoch]));
    assert epochs[..k + 2] == epochs[..k + 1] + [epochs[k + 1]];
  }

  lemma {:induction false} VisitEpochs(epochs: seq<string>, k: nat) returns (es: seq<Event>)
    requires Changes(epochs) && k < |epochs|
    ensures OnePointEach(Run(ROOMY, Start(NthGrant(epochs, 0)), es), epochs, k)
  {
    var done := [Pass(0, false, None, Accepted)];
    var start := Start(NthGrant(epochs, 0));
    if k == 0 {
      var x := Collection(0, false, None, None, 0, Some(ONE_POINT), [], done);
      ExportFirst(NthGrant(epochs, 0), x);
      RunAppend(ROOMY, start, [], Collected(x));
      FirstPoint(epochs);
      es := [] + [Collected(x)];
    } else {
      var before := VisitEpochs(epochs, k - 1);
      var s := Run(ROOMY, start, before);
      var x := Collection(k, false, None, Some(NthGrant(epochs, k)), k, Some(ONE_POINT), [], done);
      ExportReset(s, NthGrant(epochs, k), x);
      RunAppend(ROOMY, start, before, Collected(x));
      NextPoint(s, epochs, k - 1);
      es := before + [Collected(x)];
    }
  }

  /** Two admitted points carry the same identity. */
  ghost predicate IdentityRepeats(s: State) {
    exists i, j :: 0 <= i < j < |Tokens(s.admitted)| && Tokens(s.admitted)[i] == Tokens(s.admitted)[j]
  }

  ghost predicate RepeatsAlong(c: Config, g: Grant, es: seq<Event>, epochs: seq<string>) {
    Run(c, Start(g), es).trail == epochs && IdentityRepeats(Run(c, Start(g), es))
  }

  /** The epochs that became current decide: some run through exactly these admits two points with one identity if and
      only if one of them became current twice. The exporter itself only sees to it that neighbours differ. */
  lemma ReissueIff(epochs: seq<string>)
    ensures (exists c, g, es :: RepeatsAlong(c, g, es, epochs)) <==> Changes(epochs) && !Distinct(epochs)
  {
    if c, g, es :| RepeatsAlong(c, g, es, epochs) {
      StartIsGood(c, g);
      RunTrail(c, Start(g), es);
      if Distinct(epochs) {
        var s := Run(c, Start(g), es);
        var i, j :| 0 <= i < j < |Tokens(s.admitted)| && Tokens(s.admitted)[i] == Tokens(s.admitted)[j];
        IdentitiesAreUnique(c, g, es, i, j);
      }
    }
    if Changes(epochs) && !Distinct(epochs) {
      RepeatedEpochRepeats(epochs);
    }
  }

  lemma RepeatedEpochRepeats(epochs: seq<string>)
    requires Changes(epochs) && !Distinct(epochs)
    ensures exists c, g, es :: RepeatsAlong(c, g, es, epochs)
  {
    var last := |epochs| - 1;
    var es := VisitEpochs(epochs, last);
    var g := NthGrant(epochs, 0);
    var s := Run(ROOMY, Start(g), es);
    assert s.trail == epochs;
    DistinctIff(epochs);
    var i, j :| 0 <= i < j < |epochs| && epochs[i] == epochs[j];
    assert Tokens(s.admitted)[i] == Tokens(s.admitted)[j];
    assert RepeatsAlong(ROOMY, g, es, epochs);
  }

  // ---- The object ----

  class MetricsExporter {
    const c: Config
    var queue: seq<Queued>
    var retained: nat
    var closed: bool
    var current: Grant
    var nextSequence: nat
    ghost var admitted: seq<Queued>
    ghost var delivered: seq<Queued>
    ghost var trail: seq<string>

    ghost function View(): State
      reads this
    {
      State(queue, retained, closed, current, nextSequence, admitted, delivered, trail)
    }

    constructor (c: Config, g: Grant)
      ensures this.c == c && View() == Start(g) && Accounted(c, View())
    {
      this.c := c;
      queue, retained, closed, current, nextSequence := [], 0, false, g, 0;
      admitted, delivered, trail := [], [], [g.identity.epoch];
    }

    method FlushQueue(passes: seq<Pass>) returns (err: Option<Error>)
      requires Accounted(c, View())
      modifies this`queue, this`retained, this`current, this`delivered
      ensures Accounted(c, View())
      ensures (View(), err) == Flush(c, old(View()), passes)
    {
      var next := 0;
      assert passes[0..] == passes;
      while true
        invariant 0 <= next <= |passes|
        invariant Accounted(c, View())
        invariant admitted == old(admitted) && trail == old(trail)
        invariant closed == old(closed) && nextSequence == old(nextSequence)
        invariant Flush(c, View(), passes[next..]) == Flush(c, old(View()), passes)
        decreases |passes| - next
      {
        if queue == [] {
          return None;
        }
        if next == |passes| {
          return Some(Deadline);
        }
        var p := passes[next];
        assert passes[next..][1..] == passes[next + 1..];
        next := next + 1;
        if p.now >= queue[0].grant.identity.retryUntil {
          return Some(EpochExpired);
        }
        if p.lapsing {
          if p.renewed.None? {
            return Some(GrantUnavailable);
          }
          if p.renewed.value.identity != queue[0].grant.identity {
            return Some(IdentityChanged);
          }
          RenewKeeps(c, View(), p.renewed.value);
          Renew(p.renewed.value);
        }
        match p.rpc
        case Accepted => DeliverOne();
        case Transient =>
        case Partial => return Some(Rejected);
        case Fatal => return Some(Rejected);
      }
    }

    method Renew(g: Grant)
      requires queue != []
      modifies this`queue, this`current
      ensures View() == RenewHead(old(View()), g)
    {
      queue := [queue[0].(grant := g)] + queue[1..];
      if current.identity.epoch == g.identity.epoch {
        current := g;
      }
    }

    method DeliverOne()
      requires queue != [] && Accounted(c, View())
      modifies this`queue, this`retained, this`delivered
      ensures Accounted(c, View()) && View() == DeliverHead(c, old(View()))
    {
      DeliverKeeps(c, View());
      HeadLen(c, View());
      retained := retained - BodyLen(c, queue[0].body);
      delivered := delivered + [queue[0]];
      queue := queue[1..];
    }

    /** The byte sum stops at the first body that cannot fit, so no subtraction ever goes below zero. */
    method Measure(bodies: seq<Body>) returns (intrinsicallyFull: bool, added: nat)
      ensures intrinsicallyFull <==> Overfull(c, bodies)
      ensures !intrinsicallyFull ==> added == TotalLen(c, bodies) <= c.maxRetained
    {
      intrinsicallyFull := |bodies| > c.maxPending;
      added := 0;
      assert bodies[..|bodies|] == bodies && bodies[..0] == [];
      for i := 0 to |bodies|
        invariant added == TotalLen(c, bodies[..i]) <= c.maxRetained
        invariant intrinsicallyFull <==> |bodies| > c.maxPending
      {
        assert bodies[..i + 1] == bodies[..i] + [bodies[i]];
        TotalLenAppend(c, bodies[..i], [bodies[i]]);
        assert [bodies[i]][1..] == [];
        var room: nat := c.maxRetained - added;
        if BodyLen(c, bodies[i]) > room {
          assert bodies == bodies[..i + 1] + bodies[i + 1..];
          TotalLenAppend(c, bodies[..i + 1], bodies[i + 1..]);
          return true, added;
        }
        added := added + BodyLen(c, bodies[i]);
      }
    }

    method EnqueueBodies(bodies: seq<Body>, x: Collection) returns (err: Option<Error>)
      requires Accounted(c, View())
      modifies this`queue, this`retained, this`current, this`delivered, this`admitted
      ensures (View(), err) == Enqueue(c, old(View()), bodies, x)
    {
      var intrinsicallyFull, added := Measure(bodies);
      var free: nat := c.maxRetained - retained;
      if (intrinsicallyFull || added > free || |bodies| > c.maxPending - |queue|) && queue != [] {
        err := FlushQueue(x.makeRoom);
        if err.Some? {
          return Some(BufferFull);
        }
      }
      free := c.maxRetained - retained;
      if intrinsicallyFull || added > free || |bodies| > c.maxPending - |queue| {
        return Some(BufferFull);
      }
      AdmitBodies(bodies, added);
      err := FlushQueue(x.after);
    }

    method AdmitBodies(bodies: seq<Body>, added: nat)
      requires Accounted(c, View()) && !NoRoom(c, View(), bodies) && added == TotalLen(c, bodies)
      modifies this`queue, this`retained, this`admitted
      ensures Accounted(c, View()) && View() == Admit(c, old(View()), bodies)
    {
      AdmitKeeps(c, View(), bodies);
      queue := queue + Queue(bodies, current);
      admitted := admitted + Queue(bodies, current);
      retained := retained + added;
    }

    method ExportCollection(x: Collection) returns (err: Option<Error>)
      requires Accounted(c, View())
      modifies this
      ensures Accounted(c, View())
      ensures (View(), err) == Export(c, old(View()), x)
    {
      ExportKeeps(c, View(), x);
      if closed {
        return Some(Shutdown);
      }
      err := RenewToken(x);
      if err.Some? {
        return;
      }
      err := RotateEpoch(x);
      if err.Some? {
        return;
      }
      AccountsOnly(c, old(View()), View());
      err := CollectPoints(x);
    }

    method RenewToken(x: Collection) returns (err: Option<Error>)
      modifies this`current
      ensures err == match RenewCurrent(old(View()), x) { case Err(e) => Some(e) case Ok(_) => None }
      ensures View() == match RenewCurrent(old(View()), x) { case Err(_) => old(View()) case Ok(s) => s }
    {
      if x.lapsing {
        if x.renewed.None? {
          return Some(GrantUnavailable);
        }
        if x.renewed.value.identity != current.identity {
          return Some(IdentityChanged);
        }
        current := x.renewed.value;
      }
      return None;
    }

    method RotateEpoch(x: Collection) returns (err: Option<Error>)
      modifies this`current, this`nextSequence, this`trail
      ensures err == match Rotate(old(View()), x) { case Err(e) => Some(e) case Ok(_) => None }
      ensures View() == match Rotate(old(View()), x) { case Err(_) => old(View()) case Ok(s) => s }
    {
      if x.now >= current.identity.notAfter {
        if x.acquired.None? {
          return Some(GrantUnavailable);
        }
        var g := x.acquired.value;
        if g.identity.epoch == current.identity.epoch || x.acquiredAt >= g.identity.notAfter {
          return Some(EpochNotFresh);
        }
        current := g;
        nextSequence := 0;
        trail := trail + [g.identity.epoch];
      }
      return None;
    }

    method CollectPoints(x: Collection) returns (err: Option<Error>)
      requires Accounted(c, View())
      modifies this
      ensures (View(), err) == Collect(c, old(View()), x)
    {
      if x.data.None? {
        return Some(InvalidData);
      }
      if !WithinEpoch(x.data.value, current) {
        return Some(PointAfterEpoch);
      }
      var n := RequestCount(x.data.value);
      if nextSequence > MAX_POINTS_PER_EPOCH || n > MAX_POINTS_PER_EPOCH - nextSequence {
        return Some(SequenceExhausted);
      }
      var request := NumberRequest(x.data.value, nextSequence);
      nextSequence := nextSequence + n;
      var bodies := MetricRpcBodies(c.size, c.maxRpc, request);
      if bodies.Err? {
        return Some(TooLarge);
      }
      AccountsOnly(c, old(View()), View());
      err := EnqueueBodies(bodies.value, x);
    }

    method ShutdownExporter(passes: seq<Pass>) returns (err: Option<Error>)
      requires Accounted(c, View())
      modifies this`closed, this`queue, this`retained, this`current, this`delivered
      ensures Accounted(c, View()) && closed
      ensures (View(), err) == Flush(c, old(View()).(closed := true), passes)
    {
      closed := true;
      AccountsOnly(c, old(View()), View());
      err := FlushQueue(passes);
      FlushFacts(c, old(View()).(closed := true), passes);
    }

    method PendingMetrics() returns (rpcs: nat, bytes: nat)
      requires Accounted(c, View())
      ensures rpcs == |queue| && bytes == TotalLen(c, Bodies(queue))
    {
      return |queue|, retained;
    }
  }
}
