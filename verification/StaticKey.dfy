/** The canonical pack key of a static entry: the route, a question mark, and the parameters sorted by name. */
module StaticKey {
  import opened Wrappers
  import opened Bytes
  import opened Sorting
  import opened Text
  import opened Lists

  const QUESTION: byte := 0x3f
  const EQUALS: byte := 0x3d
  const AMPERSAND: byte := 0x26

  type Params = map<Bytes, Bytes>

  const NameOrder := (a: Bytes, b: Bytes) => !Before(b, a)

  function Pair(name: Bytes, value: Bytes): Bytes {
    QueryEscape(name) + [EQUALS] + QueryEscape(value)
  }

  function Pairs(names: seq<Bytes>, params: Params): seq<Bytes>
    requires forall name :: name in names ==> name in params
  {
    seq(|names|, i requires 0 <= i < |names| => Pair(names[i], params[names[i]]))
  }

  /** Some order in which a map with these keys may be iterated. */
  ghost predicate Enumerates(order: seq<Bytes>, params: Params) {
    multiset(order) == multiset(params.Keys)
  }

  lemma EnumeratesKeys(order: seq<Bytes>, params: Params)
    requires Enumerates(order, params)
    ensures forall name :: name in order <==> name in params
    ensures |order| == |params.Keys|
  {
    forall name ensures name in order <==> name in params {
      assert name in order <==> name in multiset(order);
      assert name in params.Keys <==> name in multiset(params.Keys);
    }
    assert |multiset(order)| == |order|;
  }

  lemma SortedKeys(order: seq<Bytes>, params: Params)
    requires Enumerates(order, params)
    ensures Enumerates(Sort(NameOrder, order), params)
    ensures forall name :: name in Sort(NameOrder, order) <==> name in params
  {
    SortPermutes(NameOrder, order);
    EnumeratesKeys(Sort(NameOrder, order), params);
  }

  ghost function Key(routeID: Bytes, params: Params, order: seq<Bytes>): Bytes
    requires Enumerates(order, params)
  {
    SortedKeys(order, params);
    routeID + [QUESTION] + Join(Pairs(Sort(NameOrder, order), params), AMPERSAND)
  }

  /** Builds the key as a string builder does, with a separator before every pair but the first. */
  method StaticEntryKey(routeID: Bytes, params: Params, order: seq<Bytes>) returns (key: Bytes)
    requires Enumerates(order, params)
    ensures key == Key(routeID, params, order)
  {
    SortedKeys(order, params);
    var query := WritePairs(Sort(NameOrder, order), params);
    key := routeID + [QUESTION] + query;
  }

  method WritePairs(names: seq<Bytes>, params: Params) returns (query: Bytes)
    requires forall name :: name in names ==> name in params
    ensures query == Join(Pairs(names, params), AMPERSAND)
  {
    query := [];
    for i := 0 to |names|
      invariant query == Join(Pairs(names[..i], params), AMPERSAND)
    {
      PairsMore(names[..i], names[i], params);
      TakeMore(names, i);
      if i > 0 {
        query := query + [AMPERSAND];
      }
      query := query + Pair(names[i], params[names[i]]);
    }
    assert names[..|names|] == names;
  }

  lemma TakeMore(names: seq<Bytes>, i: nat)
    requires i < |names|
    ensures names[..i + 1] == names[..i] + [names[i]]
  {
  }

  lemma PairsMore(names: seq<Bytes>, name: Bytes, params: Params)
    requires name in params && forall n :: n in names ==> n in params
    ensures forall n :: n in names + [name] ==> n in params
    ensures
      var query, pair := Join(Pairs(names, params), AMPERSAND), Pair(name, params[name]);
      Join(Pairs(names + [name], params), AMPERSAND) == if names == [] then pair else query + [AMPERSAND] + pair
  {
    assert Pairs(names + [name], params) == Pairs(names, params) + [Pair(name, params[name])] by {
      assert forall n :: n in names + [name] ==> n in params;
    }
    JoinMore(Pairs(names, params), Pair(name, params[name]), AMPERSAND);
  }

  lemma {:induction false} JoinMore(parts: seq<Bytes>, part: Bytes, sep: byte)
    ensures Join(parts + [part], sep) == if parts == [] then part else Join(parts, sep) + [sep] + part
  {
    if parts == [] {
      assert parts + [part] == [part];
    } else {
      assert (parts + [part])[1..] == parts[1..] + [part];
      JoinMore(parts[1..], part, sep);
    }
  }

  /** However the map is iterated, the key is the same. */
  lemma KeyIsCanonical(routeID: Bytes, params: Params, a: seq<Bytes>, b: seq<Bytes>)
    requires Enumerates(a, params) && Enumerates(b, params)
    ensures Key(routeID, params, a) == Key(routeID, params, b)
  {
    NameOrderIsTotal();
    SortPermutes(NameOrder, a);
    SortPermutes(NameOrder, b);
    SortAscends(NameOrder, a);
    SortAscends(NameOrder, b);
    forall x, y | NameOrder(x, y) && NameOrder(y, x) ensures x == y {
      BeforeIsTotal(x, y);
    }
    AscendingIsUnique(NameOrder, Sort(NameOrder, a), Sort(NameOrder, b));
  }

  lemma NameOrderIsTotal()
    ensures TotalPreorder(NameOrder)
  {
    forall a: Bytes, b: Bytes ensures NameOrder(a, b) || NameOrder(b, a) {
      BeforeIsTotal(a, b);
    }
    forall a: Bytes, b: Bytes, c: Bytes | NameOrder(a, b) && NameOrder(b, c) ensures NameOrder(a, c) {
      BeforeIsTotal(a, b);
      BeforeIsTotal(b, c);
      BeforeIsTotal(a, c);
      if Before(a, b) && Before(b, c) { BeforeIsTransitive(a, b, c); }
    }
  }

  // ---- A decoder ----

  function DecodePair(pair: Bytes): Option<(Bytes, Bytes)> {
    var parts := Split(pair, EQUALS);
    if |parts| != 2 then None
    else
      match (Unescape(parts[0], true), Unescape(parts[1], true))
      case (Some(name), Some(value)) => Some((name, value))
      case _ => None
  }

  function DecodePairs(pairs: seq<Bytes>): Option<Params> {
    if pairs == [] then Some(map[])
    else
      match (DecodePair(pairs[0]), DecodePairs(pairs[1..]))
      case (Some(pair), Some(rest)) => Some(rest[pair.0 := pair.1])
      case _ => None
  }

  /** Cuts at the last question mark: escaped parameters hold none, whatever the route holds. */
  function Decode(key: Bytes): Option<(Bytes, Params)> {
    var parts := Split(key, QUESTION);
    if |parts| < 2 then None
    else
      var query := parts[|parts| - 1];
      match DecodePairs(if query == [] then [] else Split(query, AMPERSAND))
      case Some(params) => Some((Join(parts[..|parts| - 1], QUESTION), params))
      case None => None
  }

  lemma EscapedPlain(s: Bytes)
    ensures EQUALS !in QueryEscape(s) && AMPERSAND !in QueryEscape(s) && QUESTION !in QueryEscape(s)
  {
    if EQUALS in QueryEscape(s) { QueryEscapeIsPlain(s, EQUALS); }
    if AMPERSAND in QueryEscape(s) { QueryEscapeIsPlain(s, AMPERSAND); }
    if QUESTION in QueryEscape(s) { QueryEscapeIsPlain(s, QUESTION); }
  }

  lemma DecodesPair(name: Bytes, value: Bytes)
    ensures DecodePair(Pair(name, value)) == Some((name, value))
    ensures Pair(name, value) != [] && AMPERSAND !in Pair(name, value) && QUESTION !in Pair(name, value)
  {
    EscapedPlain(name);
    EscapedPlain(value);
    var parts := [QueryEscape(name), QueryEscape(value)];
    assert parts[1..] == [QueryEscape(value)];
    assert Join(parts, EQUALS) == Pair(name, value);
    SplitJoin(parts, EQUALS);
    UnescapeQuery(name);
    UnescapeQuery(value);
  }

  /** The entries of `params` under the given names. */
  function Restrict(params: Params, names: seq<Bytes>): Params {
    map name | name in params && name in names :: params[name]
  }

  lemma {:induction false} DecodesPairs(names: seq<Bytes>, params: Params)
    requires forall name :: name in names ==> name in params
    ensures DecodePairs(Pairs(names, params)) == Some(Restrict(params, names))
  {
    if names != [] {
      DecodesPair(names[0], params[names[0]]);
      DecodesPairs(names[1..], params);
      assert Pairs(names, params)[1..] == Pairs(names[1..], params);
      assert Restrict(params, names) == Restrict(params, names[1..])[names[0] := params[names[0]]];
    }
  }

  lemma {:induction false} JoinHolds(parts: seq<Bytes>, sep: byte, b: byte)
    requires b in Join(parts, sep) && b != sep
    ensures exists part :: part in parts && b in part
  {
    if |parts| > 1 && b !in parts[0] {
      JoinHolds(parts[1..], sep, b);
      var part :| part in parts[1..] && b in part;
      assert part in parts;
    } else {
      assert parts[0] in parts;
    }
  }

  /** The query text of a key decodes to the parameters and holds no question mark. */
  lemma QueryDecodes(names: seq<Bytes>, params: Params)
    requires forall name :: name in names ==> name in params
    ensures
      var query := Join(Pairs(names, params), AMPERSAND);
      && QUESTION !in query
      && (if query == [] then [] else Split(query, AMPERSAND)) == Pairs(names, params)
  {
    var pairs := Pairs(names, params);
    forall pair | pair in pairs ensures pair != [] && AMPERSAND !in pair && QUESTION !in pair {
      var i :| 0 <= i < |pairs| && pairs[i] == pair;
      DecodesPair(names[i], params[names[i]]);
    }
    var query := Join(pairs, AMPERSAND);
    if QUESTION in query { JoinHolds(pairs, AMPERSAND, QUESTION); }
    if pairs != [] {
      assert pairs[0] in pairs;
      SplitJoin(pairs, AMPERSAND);
    }
  }

  /** The last piece of a text ending in a separator and a piece without one. */
  lemma {:induction false} SplitLast(a: Bytes, b: Bytes, sep: byte)
    requires sep !in b
    ensures Split(a + [sep] + b, sep) == Split(a, sep) + [b]
  {
    if a == [] {
      assert a + [sep] + b == [sep] + b && ([sep] + b)[1..] == b;
      SplitPrefix(b, [], sep);
      assert b + [] == b;
    } else {
      assert (a + [sep] + b)[1..] == a[1..] + [sep] + b;
      SplitLast(a[1..], b, sep);
    }
  }

  lemma DecodesLast(routeID: Bytes, query: Bytes)
    requires QUESTION !in query
    ensures
      var params := DecodePairs(if query == [] then [] else Split(query, AMPERSAND));
      Decode(routeID + [QUESTION] + query) == if params.None? then None else Some((routeID, params.value))
  {
    SplitLast(routeID, query, QUESTION);
    var parts := Split(routeID, QUESTION) + [query];
    assert parts[..|parts| - 1] == Split(routeID, QUESTION);
  }

  /** A key names its route and its parameters. */
  lemma DecodesKey(routeID: Bytes, params: Params, order: seq<Bytes>)
    requires Enumerates(order, params)
    ensures Decode(Key(routeID, params, order)) == Some((routeID, params))
  {
    SortedKeys(order, params);
    var names := Sort(NameOrder, order);
    var query := Join(Pairs(names, params), AMPERSAND);
    QueryDecodes(names, params);
    DecodesPairs(names, params);
    assert Restrict(params, names) == params;
    DecodesLast(routeID, query);
  }

  /** Different routes or parameters never share a key; in particular no parameter differs from an empty one. */
  lemma KeyIsInjective(r1: Bytes, p1: Params, o1: seq<Bytes>, r2: Bytes, p2: Params, o2: seq<Bytes>)
    requires Enumerates(o1, p1) && Enumerates(o2, p2)
    ensures Key(r1, p1, o1) == Key(r2, p2, o2) <==> r1 == r2 && p1 == p2
  {
    DecodesKey(r1, p1, o1);
    DecodesKey(r2, p2, o2);
    if r1 == r2 && p1 == p2 { KeyIsCanonical(r1, p1, o1, o2); }
  }

  /** The key as text: after the route and a question mark comes one pair for each parameter, its name and value
      escaped, and the names ascend byte by byte. */
  lemma KeySpells(routeID: Bytes, params: Params, order: seq<Bytes>) returns (names: seq<Bytes>)
    requires Enumerates(order, params)
    ensures forall name :: name in names <==> name in params
    ensures forall i, j :: 0 <= i < j < |names| ==> Smaller(names[i], names[j])
    ensures Key(routeID, params, order) == routeID + [0x3f] + Join(Pairs(names, params), 0x26)
    ensures forall i :: 0 <= i < |names| ==>
              Pairs(names, params)[i] == QueryEscape(names[i]) + [0x3d] + QueryEscape(params[names[i]])
  {
    names := Sort(NameOrder, order);
    NameOrderIsTotal();
    SortedKeys(order, params);
    SortAscends(NameOrder, order);
    assert multiset(names) == multiset(params.Keys);
    assert forall name :: multiset(names)[name] <= 1;
    OnceEach(names);
    DistinctIff(names);
    forall i, j | 0 <= i < j < |names| ensures Smaller(names[i], names[j]) {
      assert NameOrder(names[i], names[j]);
      BeforeIsTotal(names[i], names[j]);
      BeforeIff(names[i], names[j]);
    }
  }
}
