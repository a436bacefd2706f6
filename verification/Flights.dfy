/** The singleflight group of the cache: at most one fill per key, whose one result every waiter reads. */
module Flights {

  type Key = string

  /** What a leader hands over; a panicking fill leaves `Panicked`, never a zero value. */
  datatype Outcome<R> = Returned(value: R) | Panicked

  /** `results` holds the calls whose channel is closed; `led` remembers the key every call was begun for. */
  datatype Group<R> = Group(calls: map<Key, nat>, results: map<nat, Outcome<R>>, led: map<nat, Key>, next: nat)

  function Empty<R>(): Group<R> { Group(map[], map[], map[], 0) }

  function BeginStep<R>(g: Group<R>, key: Key): Group<R> {
    if key in g.calls then g
    else g.(calls := g.calls[key := g.next], led := g.led[g.next := key], next := g.next + 1)
  }

  /** The call a caller of `key` waits for or leads. */
  function CallOf<R>(g: Group<R>, key: Key): nat {
    if key in g.calls then g.calls[key] else g.next
  }

  /** Only the leader of a running call ends it, once. */
  function EndStep<R>(g: Group<R>, call: nat, outcome: Outcome<R>): Group<R> {
    if call !in g.led || call in g.results then g
    else
      var key := g.led[call];
      g.(calls := if key in g.calls && g.calls[key] == call then g.calls - {key} else g.calls,
         results := g.results[call := outcome])
  }

  datatype Event<R> = Begin(key: Key) | End(call: nat, outcome: Outcome<R>)

  function Next<R>(g: Group<R>, e: Event<R>): Group<R> {
    match e
    case Begin(key) => BeginStep(g, key)
    case End(call, outcome) => EndStep(g, call, outcome)
  }

  function Run<R>(g: Group<R>, es: seq<Event<R>>): Group<R>
    decreases |es|
  {
    if es == [] then g else Run(Next(g, es[0]), es[1..])
  }

  /** The table holds exactly the calls without a result, each under its own key. */
  ghost predicate Inv<R>(g: Group<R>) {
    && (forall key :: key in g.calls ==>
          g.calls[key] in g.led && g.led[g.calls[key]] == key && g.calls[key] !in g.results)
    && (forall call :: call in g.led && call !in g.results ==> g.led[call] in g.calls && g.calls[g.led[call]] == call)
    && (forall call :: call in g.led ==> call < g.next)
    && g.results.Keys <= g.led.Keys
  }

  lemma {:induction false} RunKeepsInv<R>(g: Group<R>, es: seq<Event<R>>)
    requires Inv(g)
    ensures Inv(Run(g, es))
    decreases |es|
  {
    if es != [] { RunKeepsInv(Next(g, es[0]), es[1..]); }
  }

  /** Two running fills are of different keys. */
  lemma OneFillPerKey<R>(es: seq<Event<R>>, a: nat, b: nat)
    requires
      var g := Run(Empty(), es);
      a in g.led && b in g.led && a !in g.results && b !in g.results && g.led[a] == g.led[b]
    ensures a == b
  {
    RunKeepsInv(Empty(), es);
  }

  /** A closed channel's result never changes, so leader and waiters read the same one, whenever they look. */
  lemma {:induction false} ResultIsFixed<R>(g: Group<R>, es: seq<Event<R>>, call: nat)
    requires Inv(g) && call in g.results
    ensures call in Run(g, es).results && Run(g, es).results[call] == g.results[call]
    decreases |es|
  {
    if es != [] { ResultIsFixed(Next(g, es[0]), es[1..], call); }
  }

  /** A caller is attached to a running call of its own key: it leads a new one or joins the one in flight. */
  lemma CallerIsAttached<R>(es: seq<Event<R>>, key: Key)
    ensures
      var g := Run(Empty(), es);
      var call := CallOf(g, key);
      var r := BeginStep(g, key);
      call in r.led && r.led[call] == key && call !in r.results && (r == g <==> key in g.calls)
  {
    RunKeepsInv(Empty(), es);
  }

  class FlightGroup<R> {
    var calls: map<Key, nat>
    var results: map<nat, Outcome<R>>
    var next: nat
    ghost var led: map<nat, Key>

    ghost function View(): Group<R>
      reads this
    {
      Group(calls, results, led, next)
    }

    constructor ()
      ensures View() == Empty()
    {
      calls, results, next, led := map[], map[], 0, map[];
    }

    method BeginCall(key: Key) returns (call: nat, leader: bool)
      modifies this
      ensures View() == BeginStep(old(View()), key)
      ensures call == CallOf(old(View()), key) && (leader <==> key !in old(calls))
      ensures calls == old(calls)[key := call] && results == old(results) && (leader ==> call == old(next))
    {
      if key in calls {
        return calls[key], false;
      }
      call, leader := next, true;
      calls := calls[key := call];
      led := led[call := key];
      next := next + 1;
    }

    method EndCall(key: Key, call: nat, outcome: Outcome<R>)
      requires Inv(View()) && call in led && led[call] == key && call !in results
      modifies this`calls, this`results
      ensures Inv(View()) && View() == EndStep(old(View()), call, outcome)
      ensures results == old(results)[call := outcome] && calls == old(calls) - {key}
    {
      if key in calls && calls[key] == call {
        calls := calls - {key};
      }
      results := results[call := outcome];
    }
  }
}
