/** The recovery fence: a workflow task is acknowledged only after its recovery registrations are durable. Enqueues,
    redeliveries and any number of overlapping flushes interleave between the mutex-guarded steps. */
module Handoff {

  type Token = string
  type RunId = string

  datatype Input = Input(run: RunId, kind: string, dedupeKey: string, payload: map<string, string>)

  /** A queued registration; `id` stands for the identity of the queued pointer. */
  datatype Entry = Entry(id: nat, input: Input)

  /** The mutex-guarded fields. `nextId` numbers the pointers handed out so far. */
  datatype Core = Core(tokens: map<Token, RunId>, pending: map<RunId, seq<Entry>>, uncovered: int, nextId: nat)

  function Field(payload: map<string, string>, name: string): string {
    if name in payload then payload[name] else ""
  }

  predicate SameRegistration(a: Input, b: Input) {
    && a.kind == b.kind && a.dedupeKey == b.dedupeKey
    && Field(a.payload, "operation_key") == Field(b.payload, "operation_key")
    && Field(a.payload, "activity_queue") == Field(b.payload, "activity_queue")
  }

  function Queue<T>(m: map<RunId, seq<T>>, run: RunId): seq<T> {
    if run in m then m[run] else []
  }

  predicate Queued(c: Core, input: Input) {
    exists i :: 0 <= i < |Queue(c.pending, input.run)| && SameRegistration(Queue(c.pending, input.run)[i].input, input)
  }

  // ---- Mutex-guarded steps ----

  function EnqueueCore(c: Core, input: Input): Core {
    if Queued(c, input) then c else
    c.(pending := c.pending[input.run := Queue(c.pending, input.run) + [Entry(c.nextId, input)]],
       uncovered := c.uncovered + 1, nextId := c.nextId + 1)
  }

  /** A delivery replaces every earlier token of its run; deliveries without token or execution are ignored. */
  function RememberCore(c: Core, token: Token, run: RunId): Core {
    if token == "" then c else
    c.(tokens := (map t | t in c.tokens && c.tokens[t] != run :: c.tokens[t])[token := run])
  }

  function RemoveCore(c: Core, run: RunId, e: Entry): Core {
    var batch := Queue(c.pending, run);
    if batch == [] || batch[0] != e then c else
    c.(pending := if |batch| == 1 then c.pending - {run} else c.pending[run := batch[1..]],
       uncovered := c.uncovered - 1)
  }

  function ForgetCore(c: Core, token: Token): Core {
    c.(tokens := c.tokens - {token})
  }

  // ---- The protocol ----

  /** Where one `flush` stands between its critical sections. `Passed` remembers how many requests it fenced. */
  datatype Flush =
    | Looking(run: RunId) | Posting(run: RunId, e: Entry) | Posted(run: RunId, e: Entry)
    | Passed(run: RunId, upTo: nat)

  /** One call of `enqueue`, and the entry that covers it: its own or the equal one already queued. */
  datatype Request = Request(input: Input, entry: nat)

  /** An acknowledgement sent to the server, with what was durable at that moment. */
  datatype Completion = Completion(run: RunId, upTo: nat, durable: set<nat>)

  datatype State = State(
    core: Core,
    flushes: map<nat, Flush>,
    enqueued: map<RunId, seq<Entry>>,
    requests: seq<Request>,
    posted: set<nat>,
    sent: seq<Completion>)

  const INIT := State(Core(map[], map[], 0, 0), map[], map[], [], {}, [])

  datatype Event =
    | Enqueue(input: Input)
    | Remember(token: Token, run: RunId)
    | Begin(f: nat, token: Token)
    | Look(f: nat)
    | PostOk(f: nat)
    | Cancel(f: nat)
    | Remove(f: nat)
    | Send(f: nat)
    | Forget(token: Token)

  function CoveringEntry(c: Core, input: Input): nat {
    FirstSame(Queue(c.pending, input.run), input, c.nextId)
  }

  function FirstSame(q: seq<Entry>, input: Input, none: nat): nat {
    if q == [] then none else if SameRegistration(q[0].input, input) then q[0].id else FirstSame(q[1..], input, none)
  }

  function EnqueueStep(s: State, input: Input): State {
    var s' := s.(core := EnqueueCore(s.core, input),
                 requests := s.requests + [Request(input, CoveringEntry(s.core, input))]);
    if Queued(s.core, input) then s' else
    s'.(enqueued := s.enqueued[input.run := Queue(s.enqueued, input.run) + [Entry(s.core.nextId, input)]])
  }

  /** An unknown token ends the flush with an error, so nothing is sent. */
  function BeginStep(s: State, f: nat, token: Token): State {
    if f in s.flushes || token !in s.core.tokens then s else
    s.(flushes := s.flushes[f := Looking(s.core.tokens[token])])
  }

  function LookStep(s: State, f: nat): State {
    if f !in s.flushes || !s.flushes[f].Looking? then s else
    s.(flushes := s.flushes[f := LookAt(s, s.flushes[f].run)])
  }

  function LookAt(s: State, run: RunId): Flush {
    var batch := Queue(s.core.pending, run);
    if batch == [] then Passed(run, |s.requests|) else Posting(run, batch[0])
  }

  function PostOkStep(s: State, f: nat): State {
    if f !in s.flushes || !s.flushes[f].Posting? then s else
    var e := s.flushes[f].e;
    s.(flushes := s.flushes[f := Posted(s.flushes[f].run, e)], posted := s.posted + {e.id})
  }

  function RemoveStep(s: State, f: nat): State {
    if f !in s.flushes || !s.flushes[f].Posted? then s else
    var run := s.flushes[f].run;
    s.(core := RemoveCore(s.core, run, s.flushes[f].e), flushes := s.flushes[f := Looking(run)])
  }

  function SendStep(s: State, f: nat): State {
    if f !in s.flushes || !s.flushes[f].Passed? then s else
    s.(flushes := s.flushes - {f}, sent := s.sent + [Completion(s.flushes[f].run, s.flushes[f].upTo, s.posted)])
  }

  function Next(s: State, e: Event): State {
    match e
    case Enqueue(input) => EnqueueStep(s, input)
    case Remember(token, run) => s.(core := RememberCore(s.core, token, run))
    case Begin(f, token) => BeginStep(s, f, token)
    case Look(f) => LookStep(s, f)
    case PostOk(f) => PostOkStep(s, f)
    case Cancel(f) => s.(flushes := s.flushes - {f})
    case Remove(f) => RemoveStep(s, f)
    case Send(f) => SendStep(s, f)
    case Forget(token) => s.(core := ForgetCore(s.core, token))
  }

  function Run(s: State, es: seq<Event>): State
    decreases |es|
  {
    if es == [] then s else Run(Next(s, es[0]), es[1..])
  }

  // ---- What every step keeps ----

  ghost predicate OneTokenPerRun(tokens: map<Token, RunId>) {
    forall a, b :: a in tokens && b in tokens && tokens[a] == tokens[b] ==> a == b
  }

  /** One run's queue is the tail of everything ever queued for it, in order; what has left was posted. */
  ghost predicate QueueSound(pending: seq<Entry>, all: seq<Entry>, posted: set<nat>, nextId: nat) {
    && Tail(pending, all)
    && (forall i :: 0 <= i < |all| - |pending| ==> all[i].id in posted)
    && (forall i :: 0 <= i < |all| ==> all[i].id < nextId)
    && (forall i, j :: 0 <= i < j < |all| ==> all[i].id < all[j].id)
    && (forall i, j :: 0 <= i < j < |pending| ==> !SameRegistration(pending[i].input, pending[j].input))
  }

  ghost predicate Tail(pending: seq<Entry>, all: seq<Entry>) {
    |pending| <= |all| && forall i :: 0 <= i < |pending| ==> pending[i] == all[|all| - |pending| + i]
  }

  ghost predicate QueuesSound(s: State) {
    && (forall run {:trigger Queue(s.core.pending, run)} ::
          QueueSound(Queue(s.core.pending, run), Queue(s.enqueued, run), s.posted, s.core.nextId))
    && (forall run :: run in s.core.pending ==> s.core.pending[run] != [])
  }

  ghost predicate Covered(s: State, q: Request) {
    exists i :: 0 <= i < |Queue(s.enqueued, q.input.run)| && Queue(s.enqueued, q.input.run)[i].id == q.entry &&
                SameRegistration(Queue(s.enqueued, q.input.run)[i].input, q.input)
  }

  ghost predicate RequestsCovered(s: State) {
    forall i :: 0 <= i < |s.requests| ==> Covered(s, s.requests[i])
  }

  ghost predicate FencedUpTo(requests: seq<Request>, run: RunId, upTo: nat, durable: set<nat>) {
    upTo <= |requests| && forall i :: 0 <= i < upTo && requests[i].input.run == run ==> requests[i].entry in durable
  }

  ghost predicate FlushSound(s: State, p: Flush) {
    match p
    case Looking(_) => true
    case Posting(run, e) => true
    case Posted(_, e) => e.id in s.posted
    case Passed(run, upTo) => FencedUpTo(s.requests, run, upTo, s.posted)
  }

  ghost predicate Inv(s: State) {
    && QueuesSound(s) && RequestsCovered(s) && OneTokenPerRun(s.core.tokens)
    && (forall f :: f in s.flushes ==> FlushSound(s, s.flushes[f]))
    && (forall i :: 0 <= i < |s.sent| ==> FencedUpTo(s.requests, s.sent[i].run, s.sent[i].upTo, s.sent[i].durable))
    && s.core.uncovered == TotalPending(s.core.pending)
  }

  ghost function Pick<T>(m: map<RunId, T>): RunId
    requires m != map[]
    ensures Pick(m) in m
  {
    var r :| r in m;
    r
  }

  ghost function TotalPending(pending: map<RunId, seq<Entry>>): int {
    if pending == map[] then 0 else |pending[Pick(pending)]| + TotalPending(pending - {Pick(pending)})
  }

  lemma {:induction false} TotalWithout(pending: map<RunId, seq<Entry>>, run: RunId)
    ensures TotalPending(pending) == |Queue(pending, run)| + TotalPending(pending - {run})
    decreases |pending|
  {
    if run !in pending {
      assert pending - {run} == pending;
    } else {
      var first := Pick(pending);
      if first != run {
        TotalWithout(pending - {first}, run);
        TotalWithout(pending - {run}, first);
        assert pending - {first} - {run} == pending - {run} - {first};
      }
    }
  }

  lemma TotalUpdated(pending: map<RunId, seq<Entry>>, run: RunId, q: seq<Entry>)
    ensures TotalPending(pending[run := q]) == TotalPending(pending) - |Queue(pending, run)| + |q|
  {
    TotalWithout(pending, run);
    TotalWithout(pending[run := q], run);
    assert pending[run := q] - {run} == pending - {run};
  }

  lemma {:induction false} FirstSameFacts(q: seq<Entry>, input: Input, none: nat)
    ensures (exists i :: 0 <= i < |q| && SameRegistration(q[i].input, input)) ==>
              exists i :: 0 <= i < |q| && SameRegistration(q[i].input, input) && q[i].id == FirstSame(q, input, none)
    ensures (forall i :: 0 <= i < |q| ==> !SameRegistration(q[i].input, input)) ==> FirstSame(q, input, none) == none
  {
    if q != [] && !SameRegistration(q[0].input, input) {
      FirstSameFacts(q[1..], input, none);
      if i :| 0 <= i < |q| && SameRegistration(q[i].input, input) {
        assert q[1..][i - 1] == q[i];
        var t := q[1..];
        var j :| 0 <= j < |t| && SameRegistration(t[j].input, input) && t[j].id == FirstSame(t, input, none);
        assert q[j + 1] == t[j];
      }
    }
  }

  lemma QueueGrows(pending: seq<Entry>, all: seq<Entry>, posted: set<nat>, input: Input, nextId: nat)
    requires QueueSound(pending, all, posted, nextId)
    requires forall i :: 0 <= i < |pending| ==> !SameRegistration(pending[i].input, input)
    ensures QueueSound(pending + [Entry(nextId, input)], all + [Entry(nextId, input)], posted, nextId + 1)
  {
  }

  lemma QueueShrinks(pending: seq<Entry>, all: seq<Entry>, posted: set<nat>, nextId: nat)
    requires QueueSound(pending, all, posted, nextId) && pending != [] && pending[0].id in posted
    ensures QueueSound(pending[1..], all, posted, nextId)
  {
    assert all[|all| - |pending|] == pending[0];
  }

  lemma QueueKept(pending: seq<Entry>, all: seq<Entry>, posted: set<nat>, posted': set<nat>, nextId: nat, nextId': nat)
    requires QueueSound(pending, all, posted, nextId) && posted <= posted' && nextId <= nextId'
    ensures QueueSound(pending, all, posted', nextId')
  {
  }

  lemma QueueUpdated<T>(m: map<RunId, seq<T>>, run: RunId, q: seq<T>, r: RunId)
    ensures Queue(m[run := q], r) == if r == run then q else Queue(m, r)
  {
  }

  ghost predicate QueueSoundAt(s: State, run: RunId) {
    QueueSound(Queue(s.core.pending, run), Queue(s.enqueued, run), s.posted, s.core.nextId)
  }

  lemma NotQueued(s: State, input: Input)
    requires !Queued(s.core, input)
    ensures forall i :: 0 <= i < |Queue(s.core.pending, input.run)| ==>
                          !SameRegistration(Queue(s.core.pending, input.run)[i].input, input)
  {
  }

  /** What an enqueue does to the queue of `run`. */
  lemma EnqueuedQueue(s: State, input: Input, run: RunId)
    ensures
      var s', e := EnqueueStep(s, input), Entry(s.core.nextId, input);
      var p, a := Queue(s.core.pending, run), Queue(s.enqueued, run);
      && s'.posted == s.posted
      && if Queued(s.core, input) then
           Queue(s'.core.pending, run) == p && Queue(s'.enqueued, run) == a && s'.core.nextId == s.core.nextId
         else
           && s'.core.nextId == s.core.nextId + 1
           && Queue(s'.core.pending, run) == (if run == input.run then p + [e] else p)
           && Queue(s'.enqueued, run) == (if run == input.run then a + [e] else a)
  {
  }

  lemma EnqueueKeepsQueue(s: State, s': State, input: Input, run: RunId)
    requires QueueSoundAt(s, run) && s' == EnqueueStep(s, input)
    ensures QueueSoundAt(s', run)
  {
    EnqueuedQueue(s, input, run);
    if Queued(s.core, input) {
    } else if run == input.run {
      NotQueued(s, input);
      QueueGrows(Queue(s.core.pending, run), Queue(s.enqueued, run), s.posted, input, s.core.nextId);
    } else {
      var p, a := Queue(s.core.pending, run), Queue(s.enqueued, run);
      QueueKept(p, a, s.posted, s.posted, s.core.nextId, s.core.nextId + 1);
    }
  }

  lemma EnqueueKeepsQueues(s: State, input: Input)
    requires QueuesSound(s)
    ensures QueuesSound(EnqueueStep(s, input))
  {
    var s' := EnqueueStep(s, input);
    forall run {:trigger Queue(s'.core.pending, run)} | true
      ensures QueueSound(Queue(s'.core.pending, run), Queue(s'.enqueued, run), s'.posted, s'.core.nextId)
    {
      assert QueueSound(Queue(s.core.pending, run), Queue(s.enqueued, run), s.posted, s.core.nextId);
      EnqueueKeepsQueue(s, s', input, run);
    }
  }

  lemma RemoveKeepsQueues(s: State, f: nat)
    requires QueuesSound(s) && f in s.flushes && s.flushes[f].Posted? && s.flushes[f].e.id in s.posted
    ensures QueuesSound(RemoveStep(s, f))
  {
    var s' := RemoveStep(s, f);
    forall run {:trigger Queue(s'.core.pending, run)} | true
      ensures QueueSound(Queue(s'.core.pending, run), Queue(s'.enqueued, run), s'.posted, s'.core.nextId)
    {
      assert QueueSound(Queue(s.core.pending, run), Queue(s.enqueued, run), s.posted, s.core.nextId);
      RemoveKeepsQueue(s, s', f, run);
    }
  }

  /** What a removal does to the queue of `run`. */
  lemma RemovedQueue(c: Core, r: RunId, e: Entry, run: RunId)
    ensures
      var p := Queue(c.pending, run);
      Queue(RemoveCore(c, r, e).pending, run) == if run == r && p != [] && p[0] == e then p[1..] else p
    ensures RemoveCore(c, r, e).nextId == c.nextId
  {
  }

  lemma RemoveKeepsQueue(s: State, s': State, f: nat, run: RunId)
    requires QueueSoundAt(s, run) && s' == RemoveStep(s, f)
    requires f in s.flushes && s.flushes[f].Posted? && s.flushes[f].e.id in s.posted
    ensures QueueSoundAt(s', run)
  {
    var r, e := s.flushes[f].run, s.flushes[f].e;
    var p := Queue(s.core.pending, run);
    RemovedQueue(s.core, r, e, run);
    if run == r && p != [] && p[0] == e {
      QueueShrinks(p, Queue(s.enqueued, run), s.posted, s.core.nextId);
    }
  }

  lemma PostKeepsQueues(s: State, f: nat)
    requires QueuesSound(s)
    ensures QueuesSound(PostOkStep(s, f))
  {
    var s' := PostOkStep(s, f);
    forall run {:trigger Queue(s'.core.pending, run)} | true
      ensures QueueSound(Queue(s'.core.pending, run), Queue(s'.enqueued, run), s'.posted, s'.core.nextId)
    {
      QueueKept(Queue(s.core.pending, run), Queue(s.enqueued, run), s.posted, s'.posted, s.core.nextId, s'.core.nextId);
    }
  }

  /** A deduplicated enqueue leaves an equal registration pending; any other leaves its own. */
  lemma EnqueueLeavesEqualPending(s: State, input: Input)
    requires QueuesSound(s)
    ensures
      var q := Queue(EnqueueStep(s, input).core.pending, input.run);
      var covering := CoveringEntry(s.core, input);
      exists i :: 0 <= i < |q| && q[i].id == covering && SameRegistration(q[i].input, input)
  {
    FirstSameFacts(Queue(s.core.pending, input.run), input, s.core.nextId);
    if !Queued(s.core, input) {
      var q := Queue(EnqueueStep(s, input).core.pending, input.run);
      assert q[|q| - 1] == Entry(s.core.nextId, input);
    }
  }

  lemma CoveredStays(s: State, s': State, q: Request)
    requires Covered(s, q)
    requires Queue(s.enqueued, q.input.run) <= Queue(s'.enqueued, q.input.run)
    ensures Covered(s', q)
  {
    var a, b := Queue(s.enqueued, q.input.run), Queue(s'.enqueued, q.input.run);
    var i :| 0 <= i < |a| && a[i].id == q.entry && SameRegistration(a[i].input, q.input);
    assert b[i] == a[i];
  }

  lemma PendingEnqueued(pending: seq<Entry>, all: seq<Entry>, posted: set<nat>, nextId: nat, input: Input, id: nat)
    requires QueueSound(pending, all, posted, nextId)
    requires exists i :: 0 <= i < |pending| && pending[i].id == id && SameRegistration(pending[i].input, input)
    ensures exists i :: 0 <= i < |all| && all[i].id == id && SameRegistration(all[i].input, input)
  {
    var i :| 0 <= i < |pending| && pending[i].id == id && SameRegistration(pending[i].input, input);
    assert all[|all| - |pending| + i] == pending[i];
  }

  lemma NewRequestCovered(s: State, input: Input)
    requires QueuesSound(s)
    ensures
      var s' := EnqueueStep(s, input);
      Covered(s', Request(input, CoveringEntry(s.core, input)))
  {
    var pending, all := Queue(s.core.pending, input.run), Queue(s.enqueued, input.run);
    FirstSameFacts(pending, input, s.core.nextId);
    if Queued(s.core, input) {
      assert QueueSound(pending, all, s.posted, s.core.nextId);
      PendingEnqueued(pending, all, s.posted, s.core.nextId, input, CoveringEntry(s.core, input));
    } else {
      NotQueued(s, input);
      var e := Entry(s.core.nextId, input);
      QueueUpdated(s.enqueued, input.run, all + [e], input.run);
      assert (all + [e])[|all|] == e;
    }
  }

  lemma EnqueuedGrows(s: State, input: Input, run: RunId)
    ensures Queue(s.enqueued, run) <= Queue(EnqueueStep(s, input).enqueued, run)
  {
  }

  lemma EnqueueCovers(s: State, input: Input)
    requires QueuesSound(s) && RequestsCovered(s)
    ensures RequestsCovered(EnqueueStep(s, input))
  {
    var s' := EnqueueStep(s, input);
    assert s'.requests == s.requests + [Request(input, CoveringEntry(s.core, input))];
    forall j | 0 <= j < |s'.requests| ensures Covered(s', s'.requests[j]) {
      if j < |s.requests| {
        EnqueuedGrows(s, input, s.requests[j].input.run);
        CoveredStays(s, s', s.requests[j]);
      } else {
        NewRequestCovered(s, input);
      }
    }
  }

  lemma FenceKept(
      requests: seq<Request>, requests': seq<Request>, run: RunId, upTo: nat, durable: set<nat>, durable': set<nat>)
    requires FencedUpTo(requests, run, upTo, durable) && requests <= requests' && durable <= durable'
    ensures FencedUpTo(requests', run, upTo, durable')
  {
    forall i | 0 <= i < upTo && requests'[i].input.run == run ensures requests'[i].entry in durable' {
      assert requests'[i] == requests[i];
    }
  }

  /** The fence: with nothing pending for the run, everything ever requested for it is durable. */
  lemma EmptyQueueFences(s: State, run: RunId)
    requires QueuesSound(s) && RequestsCovered(s) && Queue(s.core.pending, run) == []
    ensures FencedUpTo(s.requests, run, |s.requests|, s.posted)
  {
    forall i | 0 <= i < |s.requests| && s.requests[i].input.run == run ensures s.requests[i].entry in s.posted {
      var q := s.requests[i];
      assert Covered(s, q);
      assert QueueSound(Queue(s.core.pending, run), Queue(s.enqueued, run), s.posted, s.core.nextId);
    }
  }

  /** Longer requests keep every fence that was passed before. */
  lemma RequestsGrow(s: State, s': State)
    requires Inv(s) && QueuesSound(s') && RequestsCovered(s')
    requires s'.core.tokens == s.core.tokens && s'.flushes == s.flushes && s'.posted == s.posted && s'.sent == s.sent
    requires s.requests <= s'.requests && s'.core.uncovered == TotalPending(s'.core.pending)
    ensures Inv(s')
  {
    forall f | f in s'.flushes ensures FlushSound(s', s'.flushes[f]) {
      assert FlushSound(s, s.flushes[f]);
      if s.flushes[f].Passed? {
        FenceKept(s.requests, s'.requests, s.flushes[f].run, s.flushes[f].upTo, s.posted, s'.posted);
      }
    }
    forall i | 0 <= i < |s'.sent| ensures FencedUpTo(s'.requests, s'.sent[i].run, s'.sent[i].upTo, s'.sent[i].durable) {
      FenceKept(s.requests, s'.requests, s.sent[i].run, s.sent[i].upTo, s.sent[i].durable, s.sent[i].durable);
    }
  }

  lemma EnqueueCounts(c: Core, input: Input)
    requires c.uncovered == TotalPending(c.pending)
    ensures EnqueueCore(c, input).uncovered == TotalPending(EnqueueCore(c, input).pending)
  {
    TotalUpdated(c.pending, input.run, Queue(c.pending, input.run) + [Entry(c.nextId, input)]);
  }

  lemma EnqueueKeeps(s: State, input: Input)
    requires Inv(s)
    ensures Inv(EnqueueStep(s, input))
  {
    EnqueueKeepsQueues(s, input);
    EnqueueCovers(s, input);
    EnqueueCounts(s.core, input);
    RequestsGrow(s, EnqueueStep(s, input));
  }

  lemma SameQueuesSound(s: State, s': State)
    requires QueuesSound(s) && RequestsCovered(s)
    requires s'.core.pending == s.core.pending && s'.core.nextId == s.core.nextId
    requires s'.enqueued == s.enqueued && s'.requests == s.requests && s'.posted == s.posted
    ensures QueuesSound(s') && RequestsCovered(s')
  {
    forall run {:trigger Queue(s'.core.pending, run)} | true
      ensures QueueSound(Queue(s'.core.pending, run), Queue(s'.enqueued, run), s'.posted, s'.core.nextId)
    {
      assert Queue(s.core.pending, run) == Queue(s'.core.pending, run);
    }
    forall j | 0 <= j < |s'.requests| ensures Covered(s', s'.requests[j]) {
      CoveredStays(s, s', s.requests[j]);
    }
  }

  /** A step that only moves flushes, tokens or completions. */
  lemma MoveKeeps(s: State, s': State)
    requires Inv(s)
    requires s'.core.pending == s.core.pending && s'.core.nextId == s.core.nextId
    requires s'.core.uncovered == s.core.uncovered
    requires s'.enqueued == s.enqueued && s'.requests == s.requests && s'.posted == s.posted
    requires OneTokenPerRun(s'.core.tokens)
    requires forall f :: f in s'.flushes ==>
                           (f in s.flushes && s'.flushes[f] == s.flushes[f]) || FlushSound(s, s'.flushes[f])
    requires forall i :: 0 <= i < |s'.sent| ==>
                           FencedUpTo(s.requests, s'.sent[i].run, s'.sent[i].upTo, s'.sent[i].durable)
    ensures Inv(s')
  {
    SameQueuesSound(s, s');
    forall f | f in s'.flushes ensures FlushSound(s', s'.flushes[f]) {
      assert FlushSound(s, s'.flushes[f]);
    }
  }

  lemma PostOkKeeps(s: State, f: nat)
    requires Inv(s)
    ensures Inv(PostOkStep(s, f))
  {
    var s' := PostOkStep(s, f);
    PostKeepsQueues(s, f);
    forall j | 0 <= j < |s'.requests| ensures Covered(s', s'.requests[j]) {
      CoveredStays(s, s', s.requests[j]);
    }
    forall g | g in s'.flushes ensures FlushSound(s', s'.flushes[g]) {
      if g in s.flushes { assert FlushSound(s, s.flushes[g]); }
      if s'.flushes[g].Passed? {
        FenceKept(s.requests, s'.requests, s.flushes[g].run, s.flushes[g].upTo, s.posted, s'.posted);
      }
    }
  }

  lemma RemoveKeeps(s: State, f: nat)
    requires Inv(s)
    ensures Inv(RemoveStep(s, f))
  {
    if f in s.flushes && s.flushes[f].Posted? {
      var s' := RemoveStep(s, f);
      var run := s.flushes[f].run;
      var batch := Queue(s.core.pending, run);
      assert FlushSound(s, s.flushes[f]);
      RemoveKeepsQueues(s, f);
      forall j | 0 <= j < |s'.requests| ensures Covered(s', s'.requests[j]) {
        CoveredStays(s, s', s.requests[j]);
      }
      forall g | g in s'.flushes ensures FlushSound(s', s'.flushes[g]) {
        if g != f { assert FlushSound(s, s.flushes[g]); }
      }
      if batch != [] {
        TotalWithout(s.core.pending, run);
        TotalUpdated(s.core.pending, run, batch[1..]);
      }
    }
  }

  lemma RememberKeepsTokens(c: Core, token: Token, run: RunId)
    requires OneTokenPerRun(c.tokens)
    ensures OneTokenPerRun(RememberCore(c, token, run).tokens)
  {
  }

  lemma TokensKeep(s: State, core: Core)
    requires Inv(s) && core == s.core.(tokens := core.tokens) && OneTokenPerRun(core.tokens)
    ensures Inv(s.(core := core))
  {
    MoveKeeps(s, s.(core := core));
  }

  lemma BeginKeeps(s: State, f: nat, token: Token)
    requires Inv(s)
    ensures Inv(BeginStep(s, f, token))
  {
    MoveKeeps(s, BeginStep(s, f, token));
  }

  lemma LookKeeps(s: State, f: nat)
    requires Inv(s)
    ensures Inv(LookStep(s, f))
  {
    if f in s.flushes && s.flushes[f].Looking? {
      LookAtSound(s, s.flushes[f].run);
      FlushMoves(s, f, LookAt(s, s.flushes[f].run));
    }
  }

  lemma LookAtSound(s: State, run: RunId)
    requires Inv(s)
    ensures FlushSound(s, LookAt(s, run))
  {
    if Queue(s.core.pending, run) == [] {
      EmptyQueueFences(s, run);
    }
  }

  lemma FlushMoves(s: State, f: nat, p: Flush)
    requires Inv(s) && FlushSound(s, p)
    ensures Inv(s.(flushes := s.flushes[f := p]))
  {
    MoveKeeps(s, s.(flushes := s.flushes[f := p]));
  }

  lemma SendKeeps(s: State, f: nat)
    requires Inv(s)
    ensures Inv(SendStep(s, f))
  {
    if f in s.flushes && s.flushes[f].Passed? {
      assert FlushSound(s, s.flushes[f]);
      MoveKeeps(s, SendStep(s, f));
    }
  }

  lemma CancelKeeps(s: State, f: nat)
    requires Inv(s)
    ensures Inv(s.(flushes := s.flushes - {f}))
  {
    MoveKeeps(s, s.(flushes := s.flushes - {f}));
  }

  lemma NextKeepsInv(s: State, e: Event)
    requires Inv(s)
    ensures Inv(Next(s, e))
  {
    match e
    case Enqueue(input) => EnqueueKeeps(s, input);
    case Remember(token, run) =>
      RememberKeepsTokens(s.core, token, run);
      TokensKeep(s, RememberCore(s.core, token, run));
    case Begin(f, token) => BeginKeeps(s, f, token);
    case Look(f) => LookKeeps(s, f);
    case PostOk(f) => PostOkKeeps(s, f);
    case Cancel(f) => CancelKeeps(s, f);
    case Remove(f) => RemoveKeeps(s, f);
    case Send(f) => SendKeeps(s, f);
    case Forget(token) => TokensKeep(s, ForgetCore(s.core, token));
  }

  lemma {:induction false} RunKeepsInv(s: State, es: seq<Event>)
    requires Inv(s)
    ensures Inv(Run(s, es))
    decreases |es|
  {
    if es != [] {
      NextKeepsInv(s, es[0]);
      RunKeepsInv(Next(s, es[0]), es[1..]);
    }
  }

  lemma InitInv()
    ensures Inv(INIT)
  {
    forall run {:trigger Queue(INIT.core.pending, run)} | true
      ensures QueueSound(Queue(INIT.core.pending, run), Queue(INIT.enqueued, run), INIT.posted, INIT.core.nextId)
    {
    }
  }

  // ---- What the fence is for ----

  /** Whatever overlaps, when an acknowledgement is sent the registration covering every request made for its run
      before the fence passed is already durable. */
  lemma AcknowledgedIsDurable(es: seq<Event>, c: nat, i: nat)
    requires c < |Run(INIT, es).sent|
    requires
      var s := Run(INIT, es);
      i < s.sent[c].upTo && i < |s.requests| && s.requests[i].input.run == s.sent[c].run
    ensures
      var s := Run(INIT, es);
      && s.requests[i].entry in s.sent[c].durable
      && Covered(s, s.requests[i])
      && exists e :: Stands(s, e, s.requests[i])
  {
    InitInv();
    RunKeepsInv(INIT, es);
    var s := Run(INIT, es);
    var q := Queue(s.enqueued, s.requests[i].input.run);
    var k :| 0 <= k < |q| && q[k].id == s.requests[i].entry && SameRegistration(q[k].input, s.requests[i].input);
    assert Stands(s, q[k], s.requests[i]);
  }

  /** Entry `e` was queued for the run of the request and registers the same operation. */
  ghost predicate Stands(s: State, e: Entry, q: Request) {
    && e in Queue(s.enqueued, q.input.run) && e.id == q.entry
    && e.input.kind == q.input.kind && e.input.dedupeKey == q.input.dedupeKey
    && Agree(e.input.payload, q.input.payload, "operation_key")
    && Agree(e.input.payload, q.input.payload, "activity_queue")
  }

  /** The payloads hold the same text under the name, a missing one counting as empty. */
  ghost predicate Agree(a: map<string, string>, b: map<string, string>, name: string) {
    if name in a && name in b then a[name] == b[name]
    else (name in a ==> a[name] == "") && (name in b ==> b[name] == "")
  }

  lemma TailLeaves(pending: seq<Entry>, all: seq<Entry>) returns (left: seq<Entry>)
    requires Tail(pending, all)
    ensures left + pending == all && left == all[..|all| - |pending|]
  {
    left := all[..|all| - |pending|];
  }

  /** Per run, what has left the queue followed by what is still in it is what was queued, in order and once each;
      everything that left was posted. The counter is the number of registrations still pending over all runs, and no
      run has two live tokens. */
  lemma QueuesConserve(es: seq<Event>, run: RunId) returns (left: seq<Entry>)
    ensures
      var s := Run(INIT, es);
      && left + Queue(s.core.pending, run) == Queue(s.enqueued, run)
      && (forall i :: 0 <= i < |left| ==> left[i].id in s.posted)
      && (forall i, j :: 0 <= i < j < |Queue(s.enqueued, run)| ==>
            Queue(s.enqueued, run)[i].id < Queue(s.enqueued, run)[j].id)
      && s.core.uncovered == TotalPending(s.core.pending)
      && OneTokenPerRun(s.core.tokens)
  {
    InitInv();
    RunKeepsInv(INIT, es);
    var s := Run(INIT, es);
    var pending, all := Queue(s.core.pending, run), Queue(s.enqueued, run);
    assert QueueSound(pending, all, s.posted, s.core.nextId);
    left := TailLeaves(pending, all);
  }

  lemma SameIff(a: Input, b: Input)
    ensures SameRegistration(a, b) <==>
            && a.kind == b.kind && a.dedupeKey == b.dedupeKey
            && Agree(a.payload, b.payload, "operation_key") && Agree(a.payload, b.payload, "activity_queue")
  {
  }

  /** However often registrations are repeated, no two pending ones of a run are of the same operation. */
  lemma PendingDiffer(es: seq<Event>, run: RunId, i: nat, j: nat)
    requires i < j < |Queue(Run(INIT, es).core.pending, run)|
    ensures
      var q := Queue(Run(INIT, es).core.pending, run);
      !(&& q[i].input.kind == q[j].input.kind && q[i].input.dedupeKey == q[j].input.dedupeKey
        && Agree(q[i].input.payload, q[j].input.payload, "operation_key")
        && Agree(q[i].input.payload, q[j].input.payload, "activity_queue"))
  {
    InitInv();
    RunKeepsInv(INIT, es);
    var s := Run(INIT, es);
    var q := Queue(s.core.pending, run);
    assert QueueSound(q, Queue(s.enqueued, run), s.posted, s.core.nextId);
    SameIff(q[i].input, q[j].input);
  }

  // ---- Whose fence it is ----

  function RunOf(p: Flush): RunId {
    p.run
  }

  /** Flush `f` began for a task whose token named `run` at that moment. */
  ghost predicate Began(es: seq<Event>, i: nat, f: nat, run: RunId) {
    && i < |es| && es[i].Begin? && es[i].f == f
    && var tokens := Run(INIT, es[..i]).core.tokens;
       es[i].token in tokens && tokens[es[i].token] == run
  }

  ghost predicate HasBegun(es: seq<Event>, f: nat, run: RunId) {
    exists i: nat :: Began(es, i, f, run)
  }

  ghost predicate WasBegun(es: seq<Event>, run: RunId) {
    exists f :: HasBegun(es, f, run)
  }

  ghost predicate AllBegan(es: seq<Event>) {
    && (forall f :: f in Run(INIT, es).flushes ==> HasBegun(es, f, RunOf(Run(INIT, es).flushes[f])))
    && forall c :: 0 <= c < |Run(INIT, es).sent| ==> WasBegun(es, Run(INIT, es).sent[c].run)
  }

  lemma {:induction false} RunSnoc(s: State, es: seq<Event>, e: Event)
    ensures Run(s, es + [e]) == Next(Run(s, es), e)
    decreases |es|
  {
    if es == [] {
      assert es + [e] == [e] && [e][1..] == [];
    } else {
      assert (es + [e])[1..] == es[1..] + [e];
      RunSnoc(Next(s, es[0]), es[1..], e);
    }
  }

  lemma BeganStays(es: seq<Event>, e: Event, f: nat, run: RunId)
    requires HasBegun(es, f, run)
    ensures HasBegun(es + [e], f, run)
  {
    var i: nat :| Began(es, i, f, run);
    assert (es + [e])[..i] == es[..i];
    assert Began(es + [e], i, f, run);
  }

  /** A step moves a flush within its run, ends it, or begins a new one; it sends at most for a flush's own run. */
  lemma FlushesMove(s: State, e: Event, f: nat)
    requires f in Next(s, e).flushes
    ensures f in s.flushes ==> RunOf(Next(s, e).flushes[f]) == RunOf(s.flushes[f])
    ensures f !in s.flushes ==>
              e.Begin? && e.f == f && e.token in s.core.tokens && RunOf(Next(s, e).flushes[f]) == s.core.tokens[e.token]
  {
  }

  lemma SendsOwnRun(s: State, e: Event)
    ensures Next(s, e).sent == s.sent
            || (&& e.Send? && e.f in s.flushes && |Next(s, e).sent| == |s.sent| + 1
                && Next(s, e).sent[..|s.sent|] == s.sent && Next(s, e).sent[|s.sent|].run == RunOf(s.flushes[e.f]))
  {
  }

  lemma NextBegan(es: seq<Event>, e: Event)
    requires AllBegan(es)
    ensures AllBegan(es + [e])
  {
    var s, more := Run(INIT, es), es + [e];
    RunSnoc(INIT, es, e);
    var s' := Next(s, e);
    forall f | f in s'.flushes ensures HasBegun(more, f, RunOf(s'.flushes[f])) {
      FlushesMove(s, e, f);
      if f in s.flushes {
        BeganStays(es, e, f, RunOf(s.flushes[f]));
      } else {
        assert more[..|es|] == es;
        assert Began(more, |es|, f, RunOf(s'.flushes[f]));
      }
    }
    SendsOwnRun(s, e);
    forall c | 0 <= c < |s'.sent| ensures WasBegun(more, s'.sent[c].run) {
      if c < |s.sent| {
        assert s'.sent[c] == s'.sent[..|s.sent|][c] == s.sent[c];
        var f :| HasBegun(es, f, s.sent[c].run);
        BeganStays(es, e, f, s.sent[c].run);
      } else {
        BeganStays(es, e, e.f, RunOf(s.flushes[e.f]));
      }
    }
  }

  /** Every acknowledgement is for the run its task's token named when the flush began. */
  lemma {:induction false} AcknowledgesOwnTask(es: seq<Event>)
    ensures AllBegan(es)
    decreases |es|
  {
    if es != [] {
      AcknowledgesOwnTask(es[..|es| - 1]);
      NextBegan(es[..|es| - 1], es[|es| - 1]);
      assert es[..|es| - 1] + [es[|es| - 1]] == es;
    }
  }

  /** Steps of flush `f` alone. */
  ghost predicate Alone(es: seq<Event>, f: nat) {
    forall e :: e in es ==> e == Look(f) || e == PostOk(f) || e == Remove(f) || e == Send(f)
  }

  ghost function IdsOf(q: seq<Entry>): set<nat> {
    set e <- q :: e.id
  }

  lemma {:induction false} RunThen(s: State, a: seq<Event>, b: seq<Event>)
    ensures Run(s, a + b) == Run(Run(s, a), b)
    decreases |a|
  {
    if a == [] {
      assert a + b == b;
    } else {
      assert (a + b)[1..] == a[1..] + b;
      RunThen(Next(s, a[0]), a[1..], b);
    }
  }

  lemma HeadPosted(s: State, f: nat, run: RunId)
    requires f in s.flushes && s.flushes[f] == Looking(run) && Queue(s.core.pending, run) != []
    requires forall r :: r in s.core.pending ==> s.core.pending[r] != []
    ensures
      var r, q := Next(Next(Next(s, Look(f)), PostOk(f)), Remove(f)), Queue(s.core.pending, run);
      && Queue(r.core.pending, run) == q[1..] && (forall x :: x in r.core.pending ==> r.core.pending[x] != [])
      && f in r.flushes && r.flushes[f] == Looking(run) && r.sent == s.sent && r.requests == s.requests
      && r.posted == s.posted + {q[0].id} && IdsOf(q) == {q[0].id} + IdsOf(q[1..])
  {
    var q := Queue(s.core.pending, run);
    assert q == [q[0]] + q[1..];
  }

  /** Left to itself, with posts that succeed, a flush posts what is pending and its acknowledgement is sent. */
  lemma {:induction false} FlushCompletes(s: State, f: nat, run: RunId) returns (es: seq<Event>)
    requires f in s.flushes && s.flushes[f] == Looking(run)
    requires forall r :: r in s.core.pending ==> s.core.pending[r] != []
    ensures Alone(es, f)
    ensures
      var r, q := Run(s, es), Queue(s.core.pending, run);
      && Queue(r.core.pending, run) == [] && f !in r.flushes
      && r.sent == s.sent + [Completion(run, |s.requests|, s.posted + IdsOf(q))]
    decreases |Queue(s.core.pending, run)|
  {
    var q := Queue(s.core.pending, run);
    var s1 := Next(s, Look(f));
    if q == [] {
      es := [] + [Look(f)] + [Send(f)];
      RunSnoc(s, [], Look(f));
      RunSnoc(s, [] + [Look(f)], Send(f));
      assert IdsOf(q) == {} && s.posted + {} == s.posted;
    } else {
      var first := [] + [Look(f)] + [PostOk(f)] + [Remove(f)];
      RunSnoc(s, [], Look(f));
      RunSnoc(s, [] + [Look(f)], PostOk(f));
      RunSnoc(s, [] + [Look(f)] + [PostOk(f)], Remove(f));
      var s3 := Next(Next(s1, PostOk(f)), Remove(f));
      HeadPosted(s, f, run);
      var rest := FlushCompletes(s3, f, run);
      RunThen(s, first, rest);
      es := first + rest;
      assert s.posted + IdsOf(q) == s3.posted + IdsOf(q[1..]);
    }
  }

  // ---- The object ----

  /** How many of the posts succeed. */
  function Successes(outcomes: seq<bool>): nat {
    if outcomes == [] then 0 else (if outcomes[0] then 1 else 0) + Successes(outcomes[1..])
  }

  /** A run without pending registrations has no queue. */
  ghost predicate NoneEmpty(pending: map<RunId, seq<Entry>>) {
    forall run :: run in pending ==> pending[run] != []
  }

  class RecoveryTaskHandoff {
    var tokens: map<Token, RunId>
    var pending: map<RunId, seq<Entry>>
    var uncovered: int
    var nextId: nat

    function View(): Core
      reads this
    {
      Core(tokens, pending, uncovered, nextId)
    }

    constructor ()
      ensures View() == INIT.core
    {
      tokens, pending, uncovered, nextId := map[], map[], 0, 0;
    }

    method EnqueueRegistration(input: Input)
      modifies this
      ensures View() == EnqueueCore(old(View()), input)
    {
      var q := Queue(pending, input.run);
      for i := 0 to |q|
        invariant View() == old(View())
        invariant forall j :: 0 <= j < i ==> !SameRegistration(q[j].input, input)
      {
        if SameRegistration(q[i].input, input) {
          return;
        }
      }
      pending := pending[input.run := q + [Entry(nextId, input)]];
      uncovered := uncovered + 1;
      nextId := nextId + 1;
    }

    method RememberTask(token: Token, run: RunId)
      modifies this`tokens
      ensures View() == RememberCore(old(View()), token, run)
      ensures token == "" ==> tokens == old(tokens)
      ensures token != "" ==>
                && token in tokens && tokens[token] == run
                && (forall t :: t in tokens && t != token ==> t in old(tokens) && tokens[t] == old(tokens)[t] != run)
                && (forall t :: t in old(tokens) && t != token && old(tokens)[t] != run ==> t in tokens)
    {
      if token == "" {
        return;
      }
      var rest := tokens.Keys;
      while rest != {}
        invariant rest <= old(tokens).Keys
        invariant tokens == map t | t in old(tokens) && (t in rest || old(tokens)[t] != run) :: old(tokens)[t]
        decreases rest
      {
        var t :| t in rest;
        rest := rest - {t};
        if tokens[t] == run {
          tokens := tokens - {t};
        }
      }
      tokens := tokens[token := run];
    }

    method RemovePosted(run: RunId, e: Entry)
      modifies this`pending, this`uncovered
      ensures View() == RemoveCore(old(View()), run, e)
      ensures
        var q := Queue(old(pending), run);
        var gone := q != [] && q[0] == e;
        && Queue(pending, run) == (if gone then q[1..] else q) && uncovered == old(uncovered) - (if gone then 1 else 0)
        && (forall r :: r != run ==> Queue(pending, r) == Queue(old(pending), r))
      ensures NoneEmpty(old(pending)) ==> NoneEmpty(pending)
    {
      if run in pending && |pending[run]| > 0 && pending[run][0] == e {
        pending := pending[run := pending[run][1..]];
        if |pending[run]| == 0 {
          pending := pending - {run};
        }
        uncovered := uncovered - 1;
      }
    }

    /** Repeats the post until it succeeds or the context is cancelled. */
    method Retry(outcomes: seq<bool>, from: nat) returns (success: bool, next: nat)
      requires from <= |outcomes|
      ensures from <= next <= |outcomes| && (success <==> Successes(outcomes[from..]) > 0)
      ensures Successes(outcomes[next..]) == Successes(outcomes[from..]) - if success then 1 else 0
    {
      next := from;
      while next < |outcomes| && !outcomes[next]
        invariant from <= next <= |outcomes|
        invariant Successes(outcomes[next..]) == Successes(outcomes[from..])
      {
        assert outcomes[next..][1..] == outcomes[next + 1..];
        next := next + 1;
      }
      success := next < |outcomes|;
      if success {
        assert outcomes[next..][1..] == outcomes[next + 1..];
        next := next + 1;
      }
    }

    /** Posts the head of a queue and removes it, if the post succeeds in time. */
    method PostHead(run: RunId, outcomes: seq<bool>, from: nat) returns (success: bool, e: Entry, next: nat)
      requires Queue(pending, run) != [] && from <= |outcomes| && NoneEmpty(pending)
      modifies this`pending, this`uncovered
      ensures from <= next <= |outcomes| && NoneEmpty(pending)
      ensures success ==>
                && [e] + Queue(pending, run) == Queue(old(pending), run) && uncovered == old(uncovered) - 1
                && (forall r :: r != run ==> Queue(pending, r) == Queue(old(pending), r))
                && Successes(outcomes[next..]) == Successes(outcomes[from..]) - 1
      ensures !success ==> pending == old(pending) && uncovered == old(uncovered) && Successes(outcomes[from..]) == 0
    {
      e := Queue(pending, run)[0];
      success, next := Retry(outcomes, from);
      if success {
        RemovePosted(run, e);
      }
    }

    /** One flush that nothing interrupts: `outcomes` are the answers of successive posts, after which the context is
        cancelled. On success the run's registrations were posted in queue order and none is left. */
    method Flush(token: Token, outcomes: seq<bool>) returns (ok: bool, posted: seq<Entry>)
      requires NoneEmpty(pending)
      modifies this`pending, this`uncovered
      ensures NoneEmpty(pending)
      ensures tokens == old(tokens) && nextId == old(nextId)
      ensures token !in tokens ==> !ok && posted == [] && View() == old(View())
      ensures token in tokens ==>
                var run := tokens[token];
                && posted + Queue(pending, run) == Queue(old(pending), run)
                && uncovered == old(uncovered) - |posted|
                && (ok ==> run !in pending)
                && (forall r :: r != run ==> Queue(pending, r) == Queue(old(pending), r))
                && (ok <==> Successes(outcomes) >= |Queue(old(pending), run)|)
                && (!ok ==> |posted| == Successes(outcomes))
    {
      posted := [];
      if token !in tokens {
        return false, [];
      }
      var run := tokens[token];
      var next := 0;
      assert outcomes[0..] == outcomes;
      while run in pending
        invariant 0 <= next <= |outcomes| && NoneEmpty(pending)
        invariant |posted| + Successes(outcomes[next..]) == Successes(outcomes)
        invariant posted + Queue(pending, run) == Queue(old(pending), run)
        invariant uncovered == old(uncovered) - |posted|
        invariant forall r :: r != run ==> Queue(pending, r) == Queue(old(pending), r)
        decreases |Queue(pending, run)|
      {
        ghost var before := Queue(pending, run);
        var success, e;
        success, e, next := PostHead(run, outcomes, next);
        if !success {
          return false, posted;
        }
        assert posted + ([e] + Queue(pending, run)) == posted + [e] + Queue(pending, run);
        posted := posted + [e];
      }
      ok := true;
    }
  }
}
