/** Splitting one metric request into bounded RPC bodies between already identified points. */
module MetricSplit {
  import opened Wrappers

  /** A data point: its identity once assigned, the end of its interval, and everything else it carries. */
  datatype Point = Point(identity: nat, end: nat, payload: string)

  datatype Kind = Sum | Gauge | Histogram

  datatype Metric = Metric(name: string, kind: Kind, points: seq<Point>)

  datatype Scope = Scope(name: string, metrics: seq<Metric>)

  datatype Resource = Resource(header: string, scopes: seq<Scope>)

  type Request = seq<Resource>

  /** One point wrapped in its own scope and metric, the unit of splitting. */
  datatype Part = Part(scope: string, metric: string, kind: Kind, point: Point)

  datatype Body = Body(header: string, parts: seq<Part>)

  datatype SplitError = PointTooLarge

  const MAX_METRIC_RPC_POINTS := 63

  /** The serialized size of a request holding these parts of one resource. */
  type Size = (string, seq<Part>) -> nat

  function MetricParts(scope: string, m: Metric): seq<Part> {
    seq(|m.points|, i requires 0 <= i < |m.points| => Part(scope, m.name, m.kind, m.points[i]))
  }

  function ScopeParts(scope: string, ms: seq<Metric>): seq<Part> {
    if ms == [] then [] else MetricParts(scope, ms[0]) + ScopeParts(scope, ms[1..])
  }

  function ResourceParts(scopes: seq<Scope>): seq<Part> {
    if scopes == [] then [] else ScopeParts(scopes[0].name, scopes[0].metrics) + ResourceParts(scopes[1..])
  }

  predicate Fits(size: Size, limit: nat, header: string, q: seq<Part>) {
    size(header, q) <= limit && |q| <= MAX_METRIC_RPC_POINTS
  }

  /** The bodies still to come when `chunk` is being filled and `parts` remain. */
  function Greedy(size: Size, limit: nat, header: string, chunk: seq<Part>, parts: seq<Part>)
    : Result<seq<Body>, SplitError>
    decreases |parts|
  {
    if parts == [] then Ok(Flushed(header, chunk))
    else if Fits(size, limit, header, chunk + [parts[0]]) then
      Greedy(size, limit, header, chunk + [parts[0]], parts[1..])
    else if size(header, [parts[0]]) > limit then Err(PointTooLarge)
    else Prepend(Flushed(header, chunk), Greedy(size, limit, header, [parts[0]], parts[1..]))
  }

  function Flushed(header: string, chunk: seq<Part>): seq<Body> {
    if chunk == [] then [] else [Body(header, chunk)]
  }

  function Prepend(bodies: seq<Body>, rest: Result<seq<Body>, SplitError>): Result<seq<Body>, SplitError> {
    match rest case Ok(bs) => Ok(bodies + bs) case Err(e) => Err(e)
  }

  function RequestBodies(size: Size, limit: nat, request: Request): Result<seq<Body>, SplitError> {
    if request == [] then Ok([]) else
    match Greedy(size, limit, request[0].header, [], ResourceParts(request[0].scopes))
    case Ok(bs) => Prepend(bs, RequestBodies(size, limit, request[1..]))
    case Err(e) => Err(e)
  }

  // ---- Order and content ----

  function PartsOf(bodies: seq<Body>): seq<Part> {
    if bodies == [] then [] else bodies[0].parts + PartsOf(bodies[1..])
  }

  ghost predicate WellFormed(size: Size, limit: nat, header: string, bodies: seq<Body>) {
    forall i :: 0 <= i < |bodies| ==>
                  bodies[i].header == header && bodies[i].parts != [] && Fits(size, limit, header, bodies[i].parts)
  }

  lemma {:induction false} PartsOfAppend(a: seq<Body>, b: seq<Body>)
    ensures PartsOf(a + b) == PartsOf(a) + PartsOf(b)
  {
    if a == [] {
      assert a + b == b;
    } else {
      assert (a + b)[1..] == a[1..] + b;
      PartsOfAppend(a[1..], b);
    }
  }

  /** Splitting keeps every point, in order, in nonempty bodies within both limits. It needs no assumption on sizes, and
      it fails only over a point that is too large by itself. */
  lemma {:induction false} GreedySplits(size: Size, limit: nat, header: string, chunk: seq<Part>, parts: seq<Part>)
    requires chunk == [] || Fits(size, limit, header, chunk)
    ensures
      match Greedy(size, limit, header, chunk, parts)
      case Ok(bs) => PartsOf(bs) == chunk + parts && WellFormed(size, limit, header, bs)
      case Err(_) => SomeTooLarge(size, limit, header, parts)
    decreases |parts|
  {
    if parts == [] {
      assert PartsOf(Flushed(header, chunk)) == chunk;
    } else {
      var p, rest := parts[0], parts[1..];
      if Fits(size, limit, header, chunk + [p]) {
        GreedySplits(size, limit, header, chunk + [p], rest);
        assert chunk + [p] + rest == chunk + parts;
        if Greedy(size, limit, header, chunk + [p], rest).Err? { LaterTooLarge(size, limit, header, parts); }
      } else if size(header, [p]) <= limit {
        GreedySplits(size, limit, header, [p], rest);
        var tail := Greedy(size, limit, header, [p], rest);
        if tail.Ok? {
          PartsOfAppend(Flushed(header, chunk), tail.value);
          assert PartsOf(Flushed(header, chunk)) == chunk;
          assert chunk + ([p] + rest) == chunk + parts;
        } else {
          LaterTooLarge(size, limit, header, parts);
        }
      } else {
        assert size(header, [parts[0]]) > limit;
      }
    }
  }

  /** Some point is too large by itself. */
  ghost predicate SomeTooLarge(size: Size, limit: nat, header: string, parts: seq<Part>) {
    exists i :: 0 <= i < |parts| && size(header, [parts[i]]) > limit
  }

  lemma LaterTooLarge(size: Size, limit: nat, header: string, parts: seq<Part>)
    requires parts != [] && SomeTooLarge(size, limit, header, parts[1..])
    ensures SomeTooLarge(size, limit, header, parts)
  {
    var rest := parts[1..];
    var i :| 0 <= i < |rest| && size(header, [rest[i]]) > limit;
    assert parts[i + 1] == rest[i];
  }

  function RequestParts(request: Request): seq<Part> {
    if request == [] then [] else ResourceParts(request[0].scopes) + RequestParts(request[1..])
  }

  ghost predicate BodyBounded(size: Size, limit: nat, b: Body) {
    b.parts != [] && size(b.header, b.parts) <= limit && |b.parts| <= MAX_METRIC_RPC_POINTS
  }

  ghost predicate AllBounded(size: Size, limit: nat, bodies: seq<Body>) {
    forall i :: 0 <= i < |bodies| ==> BodyBounded(size, limit, bodies[i])
  }

  /** Some resource has a point that is too large by itself. */
  ghost predicate SomewhereTooLarge(size: Size, limit: nat, request: Request) {
    exists r :: 0 <= r < |request| && SomeTooLarge(size, limit, request[r].header, ResourceParts(request[r].scopes))
  }

  lemma {:induction false} RequestSplits(size: Size, limit: nat, request: Request)
    ensures
      match RequestBodies(size, limit, request)
      case Ok(bs) => PartsOf(bs) == RequestParts(request) && AllBounded(size, limit, bs)
      case Err(_) => SomewhereTooLarge(size, limit, request)
  {
    if request != [] {
      FirstSplits(size, limit, request);
      RequestSplits(size, limit, request[1..]);
      var first := Greedy(size, limit, request[0].header, [], ResourceParts(request[0].scopes));
      var rest := RequestBodies(size, limit, request[1..]);
      if first.Ok? && rest.Ok? {
        PartsOfAppend(first.value, rest.value);
      } else if first.Ok? {
        LaterRequestTooLarge(size, limit, request);
      }
    }
  }

  lemma FirstSplits(size: Size, limit: nat, request: Request)
    requires request != []
    ensures var first := Greedy(size, limit, request[0].header, [], ResourceParts(request[0].scopes));
            && (first.Ok? ==> PartsOf(first.value) == ResourceParts(request[0].scopes))
            && (first.Ok? ==> AllBounded(size, limit, first.value))
            && (first.Err? ==> SomewhereTooLarge(size, limit, request))
  {
    var parts := ResourceParts(request[0].scopes);
    GreedySplits(size, limit, request[0].header, [], parts);
    assert [] + parts == parts;
  }

  lemma LaterRequestTooLarge(size: Size, limit: nat, request: Request)
    requires request != [] && SomewhereTooLarge(size, limit, request[1..])
    ensures SomewhereTooLarge(size, limit, request)
  {
    var rest := request[1..];
    var r :| 0 <= r < |rest| && SomeTooLarge(size, limit, rest[r].header, ResourceParts(rest[r].scopes));
    assert request[r + 1] == rest[r];
  }

  // ---- Fewest bodies ----

  /** A contiguous part of a body is no larger than the body. */
  ghost predicate Monotone(size: Size) {
    forall header, q, i, j :: 0 <= i <= j <= |q| ==> size(header, q[i..j]) <= size(header, q)
  }

  lemma PieceFits(size: Size, limit: nat, header: string, q: seq<Part>, i: nat, j: nat)
    requires Monotone(size) && Fits(size, limit, header, q) && i <= j <= |q|
    ensures Fits(size, limit, header, q[i..j])
  {
  }

  ghost predicate AllFit(size: Size, limit: nat, header: string, parts: seq<Part>) {
    forall i :: 0 <= i < |parts| ==> size(header, [parts[i]]) <= limit
  }

  /** How many bodies `Greedy` still emits, when every point fits by itself. */
  function Count(size: Size, limit: nat, header: string, chunk: seq<Part>, parts: seq<Part>): nat
    decreases |parts|
  {
    if parts == [] then (if chunk == [] then 0 else 1)
    else if Fits(size, limit, header, chunk + [parts[0]]) then
      Count(size, limit, header, chunk + [parts[0]], parts[1..])
    else (if chunk == [] then 0 else 1) + Count(size, limit, header, [parts[0]], parts[1..])
  }

  /** With a monotone size, splitting fails exactly when some point is too large by itself. */
  lemma {:induction false} GreedyCounts(size: Size, limit: nat, header: string, chunk: seq<Part>, parts: seq<Part>)
    requires Monotone(size)
    requires chunk == [] || Fits(size, limit, header, chunk)
    ensures Greedy(size, limit, header, chunk, parts).Ok? <==> AllFit(size, limit, header, parts)
    ensures AllFit(size, limit, header, parts) ==>
              |Greedy(size, limit, header, chunk, parts).value| == Count(size, limit, header, chunk, parts)
    decreases |parts|
  {
    GreedySplits(size, limit, header, chunk, parts);
    if parts != [] {
      var p, rest := parts[0], parts[1..];
      assert AllFit(size, limit, header, parts)
        <==> size(header, [p]) <= limit && AllFit(size, limit, header, rest) by {
        if size(header, [p]) <= limit && AllFit(size, limit, header, rest) {
          forall i | 0 <= i < |parts| ensures size(header, [parts[i]]) <= limit {
            if i > 0 { assert parts[i] == rest[i - 1]; }
          }
        }
        if AllFit(size, limit, header, parts) {
          forall i | 0 <= i < |rest| ensures size(header, [rest[i]]) <= limit { assert rest[i] == parts[i + 1]; }
        }
      }
      if Fits(size, limit, header, chunk + [p]) {
        PieceFits(size, limit, header, chunk + [p], |chunk|, |chunk| + 1);
        assert (chunk + [p])[|chunk|..|chunk| + 1] == [p];
        GreedyCounts(size, limit, header, chunk + [p], rest);
      } else if size(header, [p]) <= limit {
        GreedyCounts(size, limit, header, [p], rest);
      }
    }
  }

  /** Starting from less (a suffix of the chunk) never costs more bodies. */
  lemma {:induction false} LessChunkFewer(
      size: Size, limit: nat, header: string, x: seq<Part>, y: seq<Part>, parts: seq<Part>)
    requires Monotone(size) && AllFit(size, limit, header, parts)
    requires Fits(size, limit, header, x + y) && Fits(size, limit, header, y)
    ensures Count(size, limit, header, y, parts) <= Count(size, limit, header, x + y, parts)
    decreases |parts|, 0
  {
    if parts != [] {
      var p, rest := parts[0], parts[1..];
      SingleFits(size, limit, header, parts);
      assert x + y + [p] == x + (y + [p]);
      if Fits(size, limit, header, x + y + [p]) {
        SuffixFits(size, limit, header, x, y + [p]);
        LessChunkFewer(size, limit, header, x, y + [p], rest);
      } else if Fits(size, limit, header, y + [p]) {
        CutCostsOne(size, limit, header, y, [p], rest);
      }
    }
  }

  /** Cutting a chunk in two costs at most one more body. */
  lemma {:induction false} CutCostsOne(
      size: Size, limit: nat, header: string, x: seq<Part>, y: seq<Part>, parts: seq<Part>)
    requires Monotone(size) && AllFit(size, limit, header, parts)
    requires Fits(size, limit, header, x + y) && (y == [] || Fits(size, limit, header, y))
    ensures Count(size, limit, header, x + y, parts) <= 1 + Count(size, limit, header, y, parts)
    decreases |parts|, 1
  {
    if parts != [] {
      var p, rest := parts[0], parts[1..];
      SingleFits(size, limit, header, parts);
      assert x + y + [p] == x + (y + [p]);
      if Fits(size, limit, header, x + y + [p]) {
        SuffixFits(size, limit, header, x, y + [p]);
        CutCostsOne(size, limit, header, x, y + [p], rest);
      } else if Fits(size, limit, header, y + [p]) {
        LessChunkFewer(size, limit, header, y, [p], rest);
      }
    }
  }

  lemma SingleFits(size: Size, limit: nat, header: string, parts: seq<Part>)
    requires AllFit(size, limit, header, parts) && parts != []
    ensures Fits(size, limit, header, [parts[0]]) && AllFit(size, limit, header, parts[1..])
  {
    forall i | 0 <= i < |parts[1..]| ensures size(header, [parts[1..][i]]) <= limit {
      assert parts[1..][i] == parts[i + 1];
    }
  }

  lemma SuffixFits(size: Size, limit: nat, header: string, x: seq<Part>, y: seq<Part>)
    requires Monotone(size) && Fits(size, limit, header, x + y)
    ensures Fits(size, limit, header, y)
  {
    PieceFits(size, limit, header, x + y, |x|, |x| + |y|);
    assert (x + y)[|x|..|x| + |y|] == y;
  }

  /** A block that fits is taken whole. */
  lemma {:induction false} BlockIsTaken(
      size: Size, limit: nat, header: string, chunk: seq<Part>, block: seq<Part>, rest: seq<Part>)
    requires Monotone(size) && Fits(size, limit, header, chunk + block)
    ensures Count(size, limit, header, chunk, block + rest) == Count(size, limit, header, chunk + block, rest)
    decreases |block|
  {
    if block == [] {
      assert block + rest == rest && chunk + block == chunk;
    } else {
      var p := block[0];
      assert (block + rest)[0] == p && (block + rest)[1..] == block[1..] + rest;
      assert chunk + [p] + block[1..] == chunk + block;
      PieceFits(size, limit, header, chunk + block, 0, |chunk| + 1);
      assert (chunk + block)[0..|chunk| + 1] == chunk + [p];
      BlockIsTaken(size, limit, header, chunk + [p], block[1..], rest);
    }
  }

  function Concat(blocks: seq<seq<Part>>): seq<Part> {
    if blocks == [] then [] else blocks[0] + Concat(blocks[1..])
  }

  lemma {:induction false} CountIsLeast(size: Size, limit: nat, header: string, blocks: seq<seq<Part>>)
    requires Monotone(size) && AllFit(size, limit, header, Concat(blocks))
    requires forall i :: 0 <= i < |blocks| ==> Fits(size, limit, header, blocks[i])
    ensures Count(size, limit, header, [], Concat(blocks)) <= |blocks|
  {
    if blocks != [] {
      var block, rest := blocks[0], Concat(blocks[1..]);
      assert AllFit(size, limit, header, rest) by {
        forall i | 0 <= i < |rest| ensures size(header, [rest[i]]) <= limit {
          assert Concat(blocks)[|block| + i] == rest[i];
        }
      }
      CountIsLeast(size, limit, header, blocks[1..]);
      assert [] + block == block && block + [] == block;
      BlockIsTaken(size, limit, header, [], block, rest);
      CutCostsOne(size, limit, header, block, [], rest);
    }
  }

  /** For a size that grows with the body, no way of cutting a resource's points into bodies that respect both limits
      uses fewer bodies than this one, and if there is such a way at all this one succeeds. */
  lemma SplitIsOptimal(size: Size, limit: nat, header: string, blocks: seq<seq<Part>>)
    requires Monotone(size)
    requires forall i :: 0 <= i < |blocks| ==> Fits(size, limit, header, blocks[i])
    ensures
      var r := Greedy(size, limit, header, [], Concat(blocks));
      r.Ok? && |r.value| <= |blocks|
  {
    PartsOfFittingBlocksFit(size, limit, header, blocks);
    GreedyCounts(size, limit, header, [], Concat(blocks));
    CountIsLeast(size, limit, header, blocks);
  }

  lemma {:induction false} PartsOfFittingBlocksFit(size: Size, limit: nat, header: string, blocks: seq<seq<Part>>)
    requires Monotone(size)
    requires forall i :: 0 <= i < |blocks| ==> Fits(size, limit, header, blocks[i])
    ensures AllFit(size, limit, header, Concat(blocks))
  {
    if blocks != [] {
      PartsOfFittingBlocksFit(size, limit, header, blocks[1..]);
      var q := Concat(blocks);
      forall i | 0 <= i < |q| ensures size(header, [q[i]]) <= limit {
        if i < |blocks[0]| {
          PieceFits(size, limit, header, blocks[0], i, i + 1);
          assert blocks[0][i..i + 1] == [q[i]];
        } else {
          assert q[i] == Concat(blocks[1..])[i - |blocks[0]|];
        }
      }
    }
  }

  // ---- The splitting loop ----

  lemma PrependTwice(a: seq<Body>, b: seq<Body>, rest: Result<seq<Body>, SplitError>)
    ensures Prepend(a, Prepend(b, rest)) == Prepend(a + b, rest)
  {
    if rest.Ok? { assert a + (b + rest.value) == a + b + rest.value; }
  }

  lemma PrependNothing(rest: Result<seq<Body>, SplitError>)
    ensures Prepend([], rest) == rest
  {
    if rest.Ok? { assert [] + rest.value == rest.value; }
  }

  /** Adds one part to the chunk being filled; an overflowing chunk is closed first. */
  method AddPart(size: Size, limit: nat, header: string, bodies: seq<Body>, chunk: seq<Part>, part: Part,
                 ghost rest: seq<Part>)
    returns (ok: bool, bodies': seq<Body>, chunk': seq<Part>)
    ensures ok ==> Prepend(bodies, Greedy(size, limit, header, chunk, [part] + rest)) ==
                   Prepend(bodies', Greedy(size, limit, header, chunk', rest))
    ensures !ok ==> Greedy(size, limit, header, chunk, [part] + rest) == Err(PointTooLarge)
  {
    assert ([part] + rest)[1..] == rest;
    bodies', chunk' := bodies, chunk + [part];
    if size(header, chunk') > limit || |chunk'| > MAX_METRIC_RPC_POINTS {
      bodies' := bodies' + Flushed(header, chunk);
      chunk' := [part];
      PrependTwice(bodies, Flushed(header, chunk), Greedy(size, limit, header, [part], rest));
      if size(header, chunk') > limit {
        return false, bodies', chunk';
      }
    }
    ok := true;
  }

  method SplitPoints(size: Size, limit: nat, header: string, scope: string, m: Metric, bodies: seq<Body>,
      chunk: seq<Part>,
                     ghost rest: seq<Part>)
    returns (ok: bool, bodies': seq<Body>, chunk': seq<Part>)
    ensures ok ==> Prepend(bodies, Greedy(size, limit, header, chunk, MetricParts(scope, m) + rest)) ==
                   Prepend(bodies', Greedy(size, limit, header, chunk', rest))
    ensures !ok ==> Greedy(size, limit, header, chunk, MetricParts(scope, m) + rest) == Err(PointTooLarge)
  {
    bodies', chunk' := bodies, chunk;
    ghost var parts := MetricParts(scope, m);
    assert parts[0..] == parts;
    for i := 0 to |m.points|
      invariant Prepend(bodies, Greedy(size, limit, header, chunk, parts + rest)) ==
                Prepend(bodies', Greedy(size, limit, header, chunk', parts[i..] + rest))
    {
      var part := Part(scope, m.name, m.kind, m.points[i]);
      assert parts[i..] + rest == [part] + (parts[i + 1..] + rest);
      ok, bodies', chunk' := AddPart(size, limit, header, bodies', chunk', part, parts[i + 1..] + rest);
      if !ok {
        return;
      }
    }
    assert parts[|m.points|..] + rest == rest;
    ok := true;
  }

  method SplitScope(size: Size, limit: nat, header: string, scope: Scope, bodies: seq<Body>, chunk: seq<Part>,
                    ghost later: seq<Part>)
    returns (ok: bool, bodies': seq<Body>, chunk': seq<Part>)
    ensures ok ==> Prepend(bodies, Greedy(size, limit, header, chunk, ScopeParts(scope.name, scope.metrics) + later)) ==
                   Prepend(bodies', Greedy(size, limit, header, chunk', later))
    ensures !ok ==>
              Greedy(size, limit, header, chunk, ScopeParts(scope.name, scope.metrics) + later) == Err(PointTooLarge)
  {
    bodies', chunk' := bodies, chunk;
    ghost var all := Prepend(bodies, Greedy(size, limit, header, chunk, ScopeParts(scope.name, scope.metrics) + later));
    assert scope.metrics[0..] == scope.metrics;
    for j := 0 to |scope.metrics|
      invariant all == Prepend(
                  bodies', Greedy(size, limit, header, chunk', ScopeParts(scope.name, scope.metrics[j..]) + later))
    {
      ghost var rest := ScopeParts(scope.name, scope.metrics[j + 1..]) + later;
      assert scope.metrics[j..][1..] == scope.metrics[j + 1..];
      assert ScopeParts(scope.name, scope.metrics[j..]) + later == MetricParts(scope.name, scope.metrics[j]) + rest;
      ok, bodies', chunk' := SplitPoints(size, limit, header, scope.name, scope.metrics[j], bodies', chunk', rest);
      if !ok {
        return;
      }
    }
    assert ScopeParts(scope.name, scope.metrics[|scope.metrics|..]) + later == later;
    ok := true;
  }

  method SplitResource(size: Size, limit: nat, resource: Resource) returns (ok: bool, bodies: seq<Body>)
    ensures ok ==> Greedy(size, limit, resource.header, [], ResourceParts(resource.scopes)) == Ok(bodies)
    ensures !ok ==> Greedy(size, limit, resource.header, [], ResourceParts(resource.scopes)) == Err(PointTooLarge)
  {
    var header, scopes := resource.header, resource.scopes;
    var chunk := [];
    bodies := [];
    ghost var all := Greedy(size, limit, header, [], ResourceParts(scopes));
    PrependNothing(all);
    assert scopes[0..] == scopes;
    for i := 0 to |scopes|
      invariant all == Prepend(bodies, Greedy(size, limit, header, chunk, ResourceParts(scopes[i..])))
    {
      ghost var later := ResourceParts(scopes[i + 1..]);
      assert scopes[i..][1..] == scopes[i + 1..];
      ok, bodies, chunk := SplitScope(size, limit, header, scopes[i], bodies, chunk, later);
      if !ok {
        return;
      }
    }
    bodies := bodies + Flushed(header, chunk);
    ok := true;
  }

  method MetricRpcBodies(size: Size, limit: nat, request: Request) returns (result: Result<seq<Body>, SplitError>)
    ensures result == RequestBodies(size, limit, request)
  {
    var bodies := [];
    assert request[0..] == request;
    PrependNothing(RequestBodies(size, limit, request));
    for i := 0 to |request|
      invariant RequestBodies(size, limit, request) == Prepend(bodies, RequestBodies(size, limit, request[i..]))
    {
      assert request[i..][1..] == request[i + 1..];
      var ok, more := SplitResource(size, limit, request[i]);
      if !ok {
        return Err(PointTooLarge);
      }
      PrependTwice(bodies, more, RequestBodies(size, limit, request[i + 1..]));
      bodies := bodies + more;
    }
    assert bodies + [] == bodies;
    result := Ok(bodies);
  }
}
