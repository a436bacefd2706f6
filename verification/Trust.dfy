/** Restoring SafeHTML markers after values have crossed a JSON protocol, driven by the value contract. */
module Trust {
  import opened Wrappers
  import opened Lists

  datatype Json =
    | Null | Bool(b: bool) | Num(text: string) | Str(text: string) | Html(text: string)
    | Arr(elems: seq<Json>) | Obj(fields: map<string, Json>)

  datatype Kind =
    | StringKind | NumberKind | IntegerKind | BooleanKind | DateTimeKind | BytesKind | SafeHtmlKind
    | LiteralKind | EnumKind | ArrayKind | ObjectKind | UnionKind

  datatype Literal = LitStr(s: string) | LitBool(b: bool) | LitNum(text: string)

  /** One node of a contract: every kind uses only some of the fields. */
  datatype Schema = Schema(
    kind: Kind, optional: bool, nullable: bool, literal: Option<Literal>, values: seq<string>, items: Option<Schema>,
    shape: Fields, variants: seq<Schema>)

  datatype Fields = NoFields | Fields(of: map<string, Schema>)

  /** What the standard library decides about texts: which are finite numbers, timestamps and base64, and how a
      composite value prints. */
  datatype Library = Library(
    number: string -> Option<real>, timestamp: string -> bool, base64: string -> bool, show: Json -> string)

  const MAX_SAFE_INTEGER: real := 9007199254740991.0

  /** The positions at which a flag is set. */
  function Where(flags: seq<bool>): (r: seq<nat>)
    ensures forall k :: k in r ==> k < |flags| && flags[k]
  {
    if flags == [] then [] else Where(flags[..|flags| - 1]) + if flags[|flags| - 1] then [|flags| - 1] else []
  }

  /** Which variants of a union match, in order. */
  function Matching(lib: Library, s: Schema, v: Json): (r: seq<nat>)
    ensures forall k :: k in r ==> k < |s.variants|
  {
    Where(MatchFlags(lib, s, v))
  }

  function MatchFlags(lib: Library, s: Schema, v: Json): seq<bool>
    decreases s
  {
    seq(|s.variants|, i requires 0 <= i < |s.variants| => Matches(lib, s.variants[i], v))
  }

  function ShowLiteral(l: Literal): string {
    match l
    case LitStr(s) => s
    case LitNum(t) => t
    case LitBool(b) => if b then "true" else "false"
  }

  function Show(lib: Library, v: Json): string {
    match v
    case Str(s) => s
    case Num(t) => t
    case Bool(b) => if b then "true" else "false"
    case _ => lib.show(v)
  }

  /** The shallow test by which a union picks its variant: an enum variant matches any string, and a literal any value
      that prints alike. */
  predicate Matches(lib: Library, s: Schema, v: Json)
    decreases s
  {
    if v.Null? then s.nullable || s.optional || (s.kind.LiteralKind? && s.literal.None?)
    else
      match s.kind
      case StringKind => v.Str?
      case SafeHtmlKind => v.Str?
      case DateTimeKind => v.Str?
      case BytesKind => v.Str?
      case EnumKind => v.Str?
      case NumberKind => v.Num?
      case IntegerKind => v.Num?
      case BooleanKind => v.Bool?
      case ObjectKind => v.Obj?
      case ArrayKind => v.Arr?
      case LiteralKind => s.literal.Some? && Show(lib, v) == ShowLiteral(s.literal.value)
      case UnionKind => exists i :: 0 <= i < |s.variants| && Matches(lib, s.variants[i], v)
  }

  function Shape(s: Schema): (m: map<string, Schema>)
    ensures forall name :: name in m ==> m[name] < s
  {
    match s.shape
    case NoFields => map[]
    case Fields(of) => of
  }

  /** `None` when restoration fails. */
  function Restore(lib: Library, s: Schema, v: Json): Option<Json>
    decreases s, 2
  {
    if v.Null? then Some(Null)
    else
      match s.kind
      case SafeHtmlKind => if v.Str? then Some(Html(v.text)) else None
      case ObjectKind => if v.Obj? then RestoreFields(lib, s, v.fields) else None
      case ArrayKind => if v.Arr? && s.items.Some? then RestoreElems(lib, s.items.value, v.elems) else None
      case UnionKind =>
        var matching := Matching(lib, s, v);
        if |matching| != 1 then None else
        assert matching[0] in matching;
        Restore(lib, s.variants[matching[0]], v)
      case _ => Some(v)
  }

  function RestoreFields(lib: Library, s: Schema, fields: map<string, Json>): Option<Json>
    decreases s, 1
  {
    if forall name :: name in Shape(s) && name in fields ==> Restore(lib, Shape(s)[name], fields[name]).Some?
    then Some(Obj(map name | name in fields ::
           if name in Shape(s) then Restore(lib, Shape(s)[name], fields[name]).value else fields[name]))
    else None
  }

  function RestoreElems(lib: Library, items: Schema, elems: seq<Json>): Option<Json>
    decreases items, 3
  {
    if forall i :: 0 <= i < |elems| ==> Restore(lib, items, elems[i]).Some?
    then Some(Arr(seq(|elems|, i requires 0 <= i < |elems| => Restore(lib, items, elems[i]).value)))
    else None
  }

  // ---- Restoring changes only markers ----

  function Erase(v: Json): Json {
    match v
    case Html(t) => Str(t)
    case Arr(elems) => Arr(seq(|elems|, i requires 0 <= i < |elems| => Erase(elems[i])))
    case Obj(fields) => Obj(map name | name in fields :: Erase(fields[name]))
    case _ => v
  }

  /** Whatever the contract, restoration adds markers and nothing else. */
  lemma {:induction false} RestoreOnlyMarks(lib: Library, s: Schema, v: Json)
    requires Restore(lib, s, v).Some?
    ensures Erase(Restore(lib, s, v).value) == Erase(v)
    decreases s
  {
    if v.Obj? && s.kind.ObjectKind? {
      var w := Restore(lib, s, v).value;
      forall name | name in v.fields ensures Erase(w.fields[name]) == Erase(v.fields[name]) {
        if name in Shape(s) { RestoreOnlyMarks(lib, Shape(s)[name], v.fields[name]); }
      }
    } else if v.Arr? && s.kind.ArrayKind? {
      forall i | 0 <= i < |v.elems| ensures Erase(Restore(lib, s.items.value, v.elems[i]).value) == Erase(v.elems[i]) {
        RestoreOnlyMarks(lib, s.items.value, v.elems[i]);
      }
    } else if !v.Null? && s.kind.UnionKind? {
      var matching := Matching(lib, s, v);
      assert matching[0] in matching;
      RestoreOnlyMarks(lib, s.variants[matching[0]], v);
    }
  }

  /** Nothing is marked yet, as in any value decoded from JSON. */
  predicate Plain(v: Json) {
    match v
    case Html(_) => false
    case Arr(elems) => forall i :: 0 <= i < |elems| ==> Plain(elems[i])
    case Obj(fields) => forall name :: name in fields ==> Plain(fields[name])
    case _ => true
  }

  lemma {:induction false} ErasePlain(v: Json)
    requires Plain(v)
    ensures Erase(v) == v
  {
    match v
    case Arr(elems) => forall i | 0 <= i < |elems| ensures Erase(elems[i]) == elems[i] { ErasePlain(elems[i]); }
    case Obj(fields) =>
      forall name | name in fields ensures Erase(fields[name]) == fields[name] { ErasePlain(fields[name]); }
    case _ =>
  }

  // ---- What is marked ----

  datatype Step = Key(name: string) | Index(i: nat)

  function At(v: Json, path: seq<Step>): Option<Json> {
    if path == [] then Some(v)
    else
      match path[0]
      case Key(name) => if v.Obj? && name in v.fields then At(v.fields[name], path[1..]) else None
      case Index(i) => if v.Arr? && i < |v.elems| then At(v.elems[i], path[1..]) else None
  }

  /** The contract says safeHtml at this path. */
  predicate SafeAt(s: Schema, path: seq<Step>) {
    if path == [] then s.kind.SafeHtmlKind?
    else
      match path[0]
      case Key(name) => s.kind.ObjectKind? && name in Shape(s) && SafeAt(Shape(s)[name], path[1..])
      case Index(i) => s.kind.ArrayKind? && s.items.Some? && SafeAt(s.items.value, path[1..])
  }

  predicate HtmlAt(v: Json, path: seq<Step>) {
    At(v, path).Some? && At(v, path).value.Html?
  }

  predicate StrAt(v: Json, path: seq<Step>) {
    At(v, path).Some? && At(v, path).value.Str?
  }

  lemma {:induction false} PlainHasNoHtml(v: Json, path: seq<Step>)
    requires Plain(v)
    ensures !HtmlAt(v, path)
  {
    if path != [] {
      match path[0]
      case Key(name) => if v.Obj? && name in v.fields { PlainHasNoHtml(v.fields[name], path[1..]); }
      case Index(i) => if v.Arr? && i < |v.elems| { PlainHasNoHtml(v.elems[i], path[1..]); }
    }
  }

  // ---- Valid contracts ----

  predicate Bare(s: Schema, literal: bool, values: bool, items: bool, shape: bool, variants: bool) {
    && (s.literal.Some? ==> literal) && (s.values != [] ==> values) && (s.items.Some? ==> items)
    && (s.shape.Fields? ==> shape) && (s.variants != [] ==> variants)
  }

  /** A union variant is a string literal or an enum. */
  predicate StringVariant(s: Schema) {
    s.kind.EnumKind? || (s.kind.LiteralKind? && s.literal.Some? && s.literal.value.LitStr?)
  }

  function Candidates(s: Schema): seq<string>
    requires StringVariant(s)
  {
    if s.kind.EnumKind? then s.values else [s.literal.value.s]
  }

  predicate ValidSchema(s: Schema, field: bool) {
    && (s.optional ==> field)
    && match s.kind {
         case LiteralKind => Bare(s, true, false, false, false, false) && s.literal.Some?
         case EnumKind => Bare(s, false, true, false, false, false) && s.values != [] && Distinct(s.values)
         case ArrayKind =>
           Bare(s, false, false, true, false, false) && s.items.Some? && ValidSchema(s.items.value, false)
         case ObjectKind =>
           && Bare(s, false, false, false, true, false) && s.shape.Fields?
           && forall name :: name in Shape(s) ==> name != "" && ValidSchema(Shape(s)[name], true)
         case UnionKind =>
           && Bare(s, false, false, false, false, true) && |s.variants| >= 2
           && (forall i :: 0 <= i < |s.variants| ==>
                 !s.variants[i].optional && !s.variants[i].nullable && ValidSchema(s.variants[i], false)
                 && StringVariant(s.variants[i]))
           && (forall i, j, x :: 0 <= i < j < |s.variants| && x in Candidates(s.variants[i]) ==>
                 x !in Candidates(s.variants[j]))
         case _ => Bare(s, false, false, false, false, false)
       }
  }

  /** Under a valid contract, restoration marks exactly the strings at safeHtml positions. */
  lemma {:induction false} MarksAreSafePositions(lib: Library, s: Schema, v: Json, field: bool, path: seq<Step>)
    requires ValidSchema(s, field) && Plain(v) && Restore(lib, s, v).Some?
    ensures HtmlAt(Restore(lib, s, v).value, path) <==> SafeAt(s, path) && StrAt(v, path)
    decreases s
  {
    PlainHasNoHtml(v, path);
    if v.Null? {
    } else if s.kind.ObjectKind? {
      if path != [] && path[0].Key? && path[0].name in v.fields {
        var name := path[0].name;
        if name in Shape(s) {
          MarksAreSafePositions(lib, Shape(s)[name], v.fields[name], true, path[1..]);
        }
      }
    } else if s.kind.ArrayKind? {
      if path != [] && path[0].Index? && path[0].i < |v.elems| {
        MarksAreSafePositions(lib, s.items.value, v.elems[path[0].i], false, path[1..]);
      }
    } else if s.kind.UnionKind? {
      UnionMarksNothing(lib, s, v, field);
    }
  }

  lemma UnionMarksNothing(lib: Library, s: Schema, v: Json, field: bool)
    requires ValidSchema(s, field) && s.kind.UnionKind? && !v.Null? && Restore(lib, s, v).Some?
    ensures Restore(lib, s, v).value == v
  {
    var matching := Matching(lib, s, v);
    assert matching[0] in matching;
    assert StringVariant(s.variants[matching[0]]);
  }

  // ---- Accepted values ----

  /** A number, or a string holding one: the decoder takes both. */
  function NumberOf(lib: Library, v: Json): Option<real> {
    if v.Num? || v.Str? then lib.number(v.text) else None
  }

  predicate AcceptsLiteral(lib: Library, l: Literal, v: Json) {
    match l
    case LitStr(s) => v == Str(s)
    case LitBool(b) => v == Bool(b)
    case LitNum(t) => NumberOf(lib, v).Some? && NumberOf(lib, v) == lib.number(t)
  }

  /** `field` says whether the value stands at an object property. */
  predicate Accepts(lib: Library, s: Schema, v: Json, field: bool)
    decreases s, 2
  {
    if v.Null? then s.nullable
    else if s.optional && !field then false
    else
      match s.kind
      case StringKind => v.Str?
      case SafeHtmlKind => v.Str?
      case DateTimeKind => v.Str? && lib.timestamp(v.text)
      case BytesKind => v.Str? && lib.base64(v.text)
      case BooleanKind => v.Bool?
      case NumberKind => NumberOf(lib, v).Some?
      case IntegerKind =>
        && NumberOf(lib, v).Some?
        && var n := NumberOf(lib, v).value;
           n.Floor as real == n && -MAX_SAFE_INTEGER <= n <= MAX_SAFE_INTEGER
      case LiteralKind => s.literal.Some? && AcceptsLiteral(lib, s.literal.value, v)
      case EnumKind => v.Str? && v.text in s.values
      case ArrayKind =>
        s.items.Some? && v.Arr? && forall i :: 0 <= i < |v.elems| ==> Accepts(lib, s.items.value, v.elems[i], false)
      case ObjectKind =>
        && v.Obj? && v.fields.Keys <= Shape(s).Keys
        && forall name :: name in Shape(s) ==>
             if name in v.fields then Accepts(lib, Shape(s)[name], v.fields[name], true) else Shape(s)[name].optional
      case UnionKind => |Accepting(lib, s, v)| == 1
  }

  function Accepting(lib: Library, s: Schema, v: Json): (r: seq<nat>)
    ensures forall k :: k in r ==> k < |s.variants|
    decreases s, 1
  {
    Where(AcceptFlags(lib, s, v))
  }

  function AcceptFlags(lib: Library, s: Schema, v: Json): seq<bool>
    decreases s, 0
  {
    seq(|s.variants|, i requires 0 <= i < |s.variants| => Accepts(lib, s.variants[i], v, false))
  }

  // ---- When every accepted value can be restored ----

  /** No union anywhere has an enum among its variants. */
  predicate LiteralUnions(s: Schema) {
    match s.kind
    case ArrayKind => s.items.Some? ==> LiteralUnions(s.items.value)
    case ObjectKind => forall name :: name in Shape(s) ==> LiteralUnions(Shape(s)[name])
    case UnionKind => forall i :: 0 <= i < |s.variants| ==> !s.variants[i].kind.EnumKind?
    case _ => true
  }

  lemma {:induction false} WhereHas(flags: seq<bool>, k: nat)
    requires k < |flags| && flags[k]
    ensures k in Where(flags)
  {
    if k < |flags| - 1 { WhereHas(flags[..|flags| - 1], k); }
  }

  lemma {:induction false} WhereAscends(flags: seq<bool>)
    ensures forall i, j :: 0 <= i < j < |Where(flags)| ==> Where(flags)[i] < Where(flags)[j]
  {
    if flags != [] {
      var init := Where(flags[..|flags| - 1]);
      WhereAscends(flags[..|flags| - 1]);
      forall i | 0 <= i < |init| ensures init[i] < |flags| - 1 { assert init[i] in init; }
    }
  }

  /** Exactly one flag is set, and which. */
  lemma WhereOne(flags: seq<bool>, k: nat)
    requires k < |flags|
    ensures Where(flags) == [k] <==> flags[k] && forall j :: 0 <= j < |flags| && flags[j] ==> j == k
  {
    var r := Where(flags);
    if r == [k] {
      assert k in r;
      forall j | 0 <= j < |flags| && flags[j] ensures j == k { WhereHas(flags, j); }
    }
    if flags[k] && forall j :: 0 <= j < |flags| && flags[j] ==> j == k {
      WhereHas(flags, k);
      WhereAscends(flags);
      forall i | 0 <= i < |r| ensures r[i] == k { assert r[i] in r; }
      AllTheSame(r, k);
    }
  }

  lemma AllTheSame(r: seq<nat>, k: nat)
    requires r != [] && (forall i :: 0 <= i < |r| ==> r[i] == k) && forall i, j :: 0 <= i < j < |r| ==> r[i] < r[j]
    ensures r == [k]
  {
    FirstTwo(r);
  }

  lemma FirstTwo(r: seq<nat>)
    requires forall i, j :: 0 <= i < j < |r| ==> r[i] < r[j]
    ensures |r| <= 1 || r[0] < r[1]
  {
  }

  lemma UnionPicks(lib: Library, s: Schema, v: Json, k: nat)
    requires k < |s.variants|
    ensures Matching(lib, s, v) == [k] <==>
            && Matches(lib, s.variants[k], v)
            && forall j :: 0 <= j < |s.variants| && Matches(lib, s.variants[j], v) ==> j == k
  {
    WhereOne(MatchFlags(lib, s, v), k);
    assert forall j :: 0 <= j < |s.variants| ==> (MatchFlags(lib, s, v)[j] <==> Matches(lib, s.variants[j], v));
  }

  lemma UnionAccepting(lib: Library, s: Schema, v: Json, k: nat)
    requires k < |s.variants|
    ensures Accepting(lib, s, v) == [k] <==>
            && Accepts(lib, s.variants[k], v, false)
            && forall j :: 0 <= j < |s.variants| && Accepts(lib, s.variants[j], v, false) ==> j == k
  {
    WhereOne(AcceptFlags(lib, s, v), k);
    assert forall j :: 0 <= j < |s.variants| ==> (AcceptFlags(lib, s, v)[j] <==> Accepts(lib, s.variants[j], v, false));
  }

  lemma VariantAccepts(lib: Library, s: Schema, v: Json)
    requires StringVariant(s) && !s.optional && !s.nullable
    ensures Accepts(lib, s, v, false) <==> v.Str? && v.text in Candidates(s)
  {
  }

  /** A valid union accepts just its candidate strings. */
  lemma UnionAccepts(lib: Library, s: Schema, v: Json, field: bool)
    requires ValidSchema(s, field) && s.kind.UnionKind? && !v.Null? && (s.optional ==> field)
    ensures Accepts(lib, s, v, field) <==>
            v.Str? && exists i :: 0 <= i < |s.variants| && v.text in Candidates(s.variants[i])
  {
    forall i | 0 <= i < |s.variants|
      ensures Accepts(lib, s.variants[i], v, false) <==> v.Str? && v.text in Candidates(s.variants[i])
    {
      VariantAccepts(lib, s.variants[i], v);
    }
    if Accepts(lib, s, v, field) {
      var accepting := Accepting(lib, s, v);
      assert accepting[0] in accepting && accepting == [accepting[0]];
      UnionAccepting(lib, s, v, accepting[0]);
    }
    if v.Str? && exists i :: 0 <= i < |s.variants| && v.text in Candidates(s.variants[i]) {
      var k :| 0 <= k < |s.variants| && v.text in Candidates(s.variants[k]);
      UnionAccepting(lib, s, v, k);
    }
  }

  lemma LiteralUnionRestores(lib: Library, s: Schema, v: Json, field: bool)
    requires ValidSchema(s, field) && s.kind.UnionKind? && LiteralUnions(s) && !v.Null? && Accepts(lib, s, v, field)
    ensures Restore(lib, s, v) == Some(v)
  {
    UnionAccepts(lib, s, v, field);
    var k :| 0 <= k < |s.variants| && v.text in Candidates(s.variants[k]);
    forall j | 0 <= j < |s.variants| ensures Matches(lib, s.variants[j], v) <==> j == k {
      LiteralMatches(lib, s.variants[j], v);
    }
    UnionPicks(lib, s, v, k);
  }

  /** A literal variant matches just the string it accepts; so not an enum. */
  lemma LiteralMatches(lib: Library, s: Schema, v: Json)
    requires StringVariant(s) && s.kind.LiteralKind? && v.Str?
    ensures Matches(lib, s, v) <==> v.text in Candidates(s)
  {
  }

  lemma {:induction false} AcceptedIsRestored(lib: Library, s: Schema, v: Json, field: bool)
    requires ValidSchema(s, field) && LiteralUnions(s) && Accepts(lib, s, v, field)
    ensures Restore(lib, s, v).Some?
    decreases s
  {
    if v.Null? {
    } else if s.kind.ObjectKind? {
      forall name | name in Shape(s) && name in v.fields ensures Restore(lib, Shape(s)[name], v.fields[name]).Some? {
        AcceptedIsRestored(lib, Shape(s)[name], v.fields[name], true);
      }
    } else if s.kind.ArrayKind? {
      forall i | 0 <= i < |v.elems| ensures Restore(lib, s.items.value, v.elems[i]).Some? {
        AcceptedIsRestored(lib, s.items.value, v.elems[i], false);
      }
    } else if s.kind.UnionKind? {
      LiteralUnionRestores(lib, s, v, field);
    }
  }

  /** Some timestamp and some number exist, the empty text is base64, and number literals hold numbers. */
  ghost predicate Usable(lib: Library, stamp: string) {
    lib.timestamp(stamp) && lib.base64("") && lib.number("0") == Some(0.0)
  }

  ghost predicate NumbersOk(lib: Library, s: Schema) {
    && (s.literal.Some? && s.literal.value.LitNum? ==> lib.number(s.literal.value.text).Some?)
    && (s.items.Some? ==> NumbersOk(lib, s.items.value))
    && (forall name :: name in Shape(s) ==> NumbersOk(lib, Shape(s)[name]))
  }

  /** Some value a valid contract accepts. */
  function Sample(s: Schema, stamp: string): Json {
    match s.kind
    case DateTimeKind => Str(stamp)
    case BooleanKind => Bool(true)
    case NumberKind => Num("0")
    case IntegerKind => Num("0")
    case LiteralKind =>
      (match s.literal
       case Some(LitStr(t)) => Str(t)
       case Some(LitBool(b)) => Bool(b)
       case Some(LitNum(t)) => Num(t)
       case None => Null)
    case EnumKind => if s.values == [] then Null else Str(s.values[0])
    case ArrayKind => Arr([])
    case ObjectKind => Obj(map name | name in Shape(s) :: Sample(Shape(s)[name], stamp))
    case UnionKind => if s.variants == [] then Null else Sample(s.variants[0], stamp)
    case _ => Str("")
  }

  lemma {:induction false} SampleAccepted(lib: Library, s: Schema, stamp: string, field: bool)
    requires Usable(lib, stamp) && ValidSchema(s, field) && NumbersOk(lib, s)
    ensures Accepts(lib, s, Sample(s, stamp), field) && Plain(Sample(s, stamp)) && !Sample(s, stamp).Null?
    decreases s
  {
    match s.kind
    case ObjectKind =>
      forall name | name in Shape(s)
        ensures Accepts(lib, Shape(s)[name], Sample(Shape(s)[name], stamp), true)
        ensures Plain(Sample(Shape(s)[name], stamp))
      {
        SampleAccepted(lib, Shape(s)[name], stamp, true);
      }
    case UnionKind =>
      var first := s.variants[0];
      assert ValidSchema(first, false) && StringVariant(first) && Candidates(first) != [];
      assert Sample(s, stamp) == Str(Candidates(first)[0]) && Candidates(first)[0] in Candidates(first);
      UnionAccepts(lib, s, Sample(s, stamp), field);
    case EnumKind => assert s.values[0] in s.values;
    case IntegerKind => assert 0.0.Floor as real == 0.0;
    case _ =>
  }

  /** A candidate of another variant than the enum, or any candidate of a second enum: accepted once, matched twice. */
  lemma EnumUnionFails(lib: Library, s: Schema, field: bool) returns (v: Json)
    requires ValidSchema(s, field) && s.kind.UnionKind? && !LiteralUnions(s)
    ensures Accepts(lib, s, v, field) && Plain(v) && Restore(lib, s, v).None?
  {
    var e :| 0 <= e < |s.variants| && s.variants[e].kind.EnumKind?;
    var k := if e == 0 then 1 else 0;
    assert StringVariant(s.variants[k]) && Candidates(s.variants[k]) != [];
    var text := Candidates(s.variants[k])[0];
    v := Str(text);
    assert text in Candidates(s.variants[k]);
    UnionAccepts(lib, s, v, field);
    assert Matches(lib, s.variants[k], v) && Matches(lib, s.variants[e], v);
    if |Matching(lib, s, v)| == 1 {
      var m := Matching(lib, s, v)[0];
      assert m in Matching(lib, s, v);
      UnionPicks(lib, s, v, m);
    }
  }

  /** Where some union has an enum variant, some accepted value cannot be restored. */
  lemma {:induction false} EnumUnionReached(lib: Library, s: Schema, stamp: string, field: bool) returns (v: Json)
    requires Usable(lib, stamp) && ValidSchema(s, field) && NumbersOk(lib, s) && !LiteralUnions(s)
    ensures Accepts(lib, s, v, field) && Plain(v) && Restore(lib, s, v).None?
    decreases s
  {
    match s.kind
    case UnionKind => v := EnumUnionFails(lib, s, field);
    case ArrayKind =>
      var item := EnumUnionReached(lib, s.items.value, stamp, false);
      v := Arr([item]);
      assert v.elems[0] == item;
    case ObjectKind =>
      var bad :| bad in Shape(s) && !LiteralUnions(Shape(s)[bad]);
      var value := EnumUnionReached(lib, Shape(s)[bad], stamp, true);
      v := Obj(Sample(s, stamp).fields[bad := value]);
      FieldFails(lib, s, stamp, field, bad, value);
  }

  lemma FieldFails(lib: Library, s: Schema, stamp: string, field: bool, bad: string, value: Json)
    requires Usable(lib, stamp) && ValidSchema(s, field) && NumbersOk(lib, s) && s.kind.ObjectKind? && bad in Shape(s)
    requires Accepts(lib, Shape(s)[bad], value, true) && Plain(value) && Restore(lib, Shape(s)[bad], value).None?
    ensures
      var v := Obj(Sample(s, stamp).fields[bad := value]);
      Accepts(lib, s, v, field) && Plain(v) && Restore(lib, s, v).None?
  {
    var v := Obj(Sample(s, stamp).fields[bad := value]);
    assert v.fields.Keys == Shape(s).Keys && v.fields[bad] == value;
    forall name | name in Shape(s) ensures Accepts(lib, Shape(s)[name], v.fields[name], true) && Plain(v.fields[name]) {
      if name != bad {
        SampleAccepted(lib, Shape(s)[name], stamp, true);
      }
    }
  }

  ghost predicate AlwaysRestores(lib: Library, s: Schema) {
    forall v :: Plain(v) && Accepts(lib, s, v, false) ==> Restore(lib, s, v).Some?
  }

  /** Restoration succeeds on every value the contract accepts exactly when no union has an enum variant. */
  lemma RestoresIff(lib: Library, s: Schema, stamp: string)
    requires Usable(lib, stamp) && ValidSchema(s, false) && NumbersOk(lib, s)
    ensures AlwaysRestores(lib, s) <==> LiteralUnions(s)
  {
    if LiteralUnions(s) {
      forall v | Plain(v) && Accepts(lib, s, v, false) ensures Restore(lib, s, v).Some? {
        AcceptedIsRestored(lib, s, v, false);
      }
    } else {
      var v := EnumUnionReached(lib, s, stamp, false);
    }
  }

  // ---- When restoration fails ----

  /** The contract for what is at a path. */
  function SchemaAt(s: Schema, path: seq<Step>): Option<Schema> {
    if path == [] then Some(s)
    else
      match path[0]
      case Key(name) => if s.kind.ObjectKind? && name in Shape(s) then SchemaAt(Shape(s)[name], path[1..]) else None
      case Index(i) => if s.kind.ArrayKind? && s.items.Some? then SchemaAt(s.items.value, path[1..]) else None
  }

  ghost predicate OneMatches(lib: Library, s: Schema, v: Json) {
    exists i :: 0 <= i < |s.variants| && Matches(lib, s.variants[i], v)
                && forall j :: 0 <= j < |s.variants| && Matches(lib, s.variants[j], v) ==> j == i
  }

  /** The value is not of the form the contract names: markup that is no string, or a container or variant that is
      missing. Null passes anywhere. */
  ghost predicate Misfit(lib: Library, s: Schema, v: Json) {
    && !v.Null?
    && (|| (s.kind.SafeHtmlKind? && !v.Str?) || (s.kind.ObjectKind? && !v.Obj?) || (s.kind.ArrayKind? && !v.Arr?)
        || (s.kind.UnionKind? && !OneMatches(lib, s, v)))
  }

  ghost predicate MisfitAt(lib: Library, s: Schema, v: Json, path: seq<Step>) {
    SchemaAt(s, path).Some? && At(v, path).Some? && Misfit(lib, SchemaAt(s, path).value, At(v, path).value)
  }

  lemma StepInto(lib: Library, s: Schema, v: Json, step: Step, path: seq<Step>)
    ensures [step] + path != [] && ([step] + path)[0] == step && ([step] + path)[1..] == path
    ensures step.Key? && s.kind.ObjectKind? && step.name in Shape(s) && v.Obj? && step.name in v.fields ==>
              (MisfitAt(lib, s, v, [step] + path) <==> MisfitAt(lib, Shape(s)[step.name], v.fields[step.name], path))
    ensures step.Index? && s.kind.ArrayKind? && s.items.Some? && v.Arr? && step.i < |v.elems| ==>
              (MisfitAt(lib, s, v, [step] + path) <==> MisfitAt(lib, s.items.value, v.elems[step.i], path))
  {
  }

  lemma OneIsPicked(lib: Library, s: Schema, v: Json)
    requires OneMatches(lib, s, v)
    ensures |Matching(lib, s, v)| == 1
  {
    var i: nat :| i < |s.variants| && Matches(lib, s.variants[i], v)
                  && forall j :: 0 <= j < |s.variants| && Matches(lib, s.variants[j], v) ==> j == i;
    UnionPicks(lib, s, v, i);
  }

  lemma PickedIsOne(lib: Library, s: Schema, v: Json)
    requires |Matching(lib, s, v)| == 1
    ensures OneMatches(lib, s, v)
  {
    var matching := Matching(lib, s, v);
    assert matching[0] in matching && matching == [matching[0]];
    UnionPicks(lib, s, v, matching[0]);
  }

  lemma UnionRestores(lib: Library, s: Schema, v: Json, field: bool)
    requires ValidSchema(s, field) && s.kind.UnionKind? && !v.Null?
    ensures Restore(lib, s, v) == if |Matching(lib, s, v)| == 1 then Some(v) else None
  {
    var matching := Matching(lib, s, v);
    if |matching| == 1 {
      assert matching[0] in matching;
      assert StringVariant(s.variants[matching[0]]);
    }
  }

  /** Under a valid contract restoration fails exactly over a value somewhere that is not of its form. */
  lemma {:induction false} RestoreFailsIff(lib: Library, s: Schema, v: Json, field: bool)
    requires ValidSchema(s, field)
    ensures Restore(lib, s, v).None? <==> exists path :: MisfitAt(lib, s, v, path)
    decreases s
  {
    if Misfit(lib, s, v) { assert MisfitAt(lib, s, v, []); }
    if s.kind.ObjectKind? && v.Obj? {
      forall name | name in Shape(s) && name in v.fields
        ensures Restore(lib, Shape(s)[name], v.fields[name]).None? <==>
                exists path :: MisfitAt(lib, Shape(s)[name], v.fields[name], path)
      {
        RestoreFailsIff(lib, Shape(s)[name], v.fields[name], true);
      }
      FieldsFailIff(lib, s, v);
    } else if s.kind.ArrayKind? && v.Arr? {
      forall i | 0 <= i < |v.elems|
        ensures Restore(lib, s.items.value, v.elems[i]).None? <==>
                exists path :: MisfitAt(lib, s.items.value, v.elems[i], path)
      {
        RestoreFailsIff(lib, s.items.value, v.elems[i], false);
      }
      ElemsFailIff(lib, s, v);
    } else {
      LeafFailsIff(lib, s, v, field);
      if path: seq<Step> :| MisfitAt(lib, s, v, path) { OnlyHere(lib, s, v, path); }
    }
  }

  lemma OnlyHere(lib: Library, s: Schema, v: Json, path: seq<Step>)
    requires MisfitAt(lib, s, v, path) && !(s.kind.ObjectKind? && v.Obj?) && !(s.kind.ArrayKind? && v.Arr?)
    ensures path == []
  {
  }

  lemma LeafFailsIff(lib: Library, s: Schema, v: Json, field: bool)
    requires ValidSchema(s, field) && !(s.kind.ObjectKind? && v.Obj?) && !(s.kind.ArrayKind? && v.Arr?)
    ensures Restore(lib, s, v).None? <==> Misfit(lib, s, v)
  {
    if s.kind.UnionKind? && !v.Null? {
      if OneMatches(lib, s, v) {
        OneIsPicked(lib, s, v);
      } else if |Matching(lib, s, v)| == 1 {
        PickedIsOne(lib, s, v);
      }
      UnionRestores(lib, s, v, field);
    }
  }

  lemma FieldsFailIff(lib: Library, s: Schema, v: Json)
    requires s.kind.ObjectKind? && v.Obj?
    requires forall name :: name in Shape(s) && name in v.fields ==>
               (Restore(lib, Shape(s)[name], v.fields[name]).None? <==>
                  exists path :: MisfitAt(lib, Shape(s)[name], v.fields[name], path))
    ensures Restore(lib, s, v).None? <==> exists path :: MisfitAt(lib, s, v, path)
  {
    assert Restore(lib, s, v) == RestoreFields(lib, s, v.fields);
    if Restore(lib, s, v).None? {
      var name :| name in Shape(s) && name in v.fields && Restore(lib, Shape(s)[name], v.fields[name]).None?;
      var path :| MisfitAt(lib, Shape(s)[name], v.fields[name], path);
      StepInto(lib, s, v, Key(name), path);
    }
    if path: seq<Step> :| MisfitAt(lib, s, v, path) {
      assert path != [];
      StepInto(lib, s, v, path[0], path[1..]);
      assert [path[0]] + path[1..] == path;
      assert MisfitAt(lib, Shape(s)[path[0].name], v.fields[path[0].name], path[1..]);
    }
  }

  lemma ElemsFailIff(lib: Library, s: Schema, v: Json)
    requires s.kind.ArrayKind? && s.items.Some? && v.Arr?
    requires forall i :: 0 <= i < |v.elems| ==>
               (Restore(lib, s.items.value, v.elems[i]).None? <==>
                  exists path :: MisfitAt(lib, s.items.value, v.elems[i], path))
    ensures Restore(lib, s, v).None? <==> exists path :: MisfitAt(lib, s, v, path)
  {
    assert Restore(lib, s, v) == RestoreElems(lib, s.items.value, v.elems);
    if Restore(lib, s, v).None? {
      var i: nat :| i < |v.elems| && Restore(lib, s.items.value, v.elems[i]).None?;
      var path :| MisfitAt(lib, s.items.value, v.elems[i], path);
      StepInto(lib, s, v, Index(i), path);
    }
    if path: seq<Step> :| MisfitAt(lib, s, v, path) {
      assert path != [];
      StepInto(lib, s, v, path[0], path[1..]);
      assert [path[0]] + path[1..] == path;
      assert MisfitAt(lib, s.items.value, v.elems[path[0].i], path[1..]);
    }
  }

  // ---- The recursion as it runs ----

  /** Fields are visited in no particular order; each is overwritten by its restored value. */
  method TrustFields(lib: Library, s: Schema, input: map<string, Json>) returns (r: Option<Json>)
    ensures r == RestoreFields(lib, s, input)
    decreases s, 0
  {
    var fields := input;
    var names := Shape(s).Keys;
    while names != {}
      invariant names <= Shape(s).Keys && fields.Keys == input.Keys
      invariant forall name :: name in input && (name in names || name !in Shape(s)) ==> fields[name] == input[name]
      invariant forall name :: name in input && name in Shape(s) && name !in names ==>
                  Restore(lib, Shape(s)[name], input[name]) == Some(fields[name])
    {
      var name :| name in names;
      names := names - {name};
      if name in input {
        var trusted := TrustValue(lib, Shape(s)[name], input[name]);
        if trusted.None? {
          return None;
        }
        fields := fields[name := trusted.value];
      }
    }
    assert RestoreFields(lib, s, input).value.fields == fields;
    r := Some(Obj(fields));
  }

  method TrustElems(lib: Library, items: Schema, elems: seq<Json>) returns (r: Option<Json>)
    ensures r == RestoreElems(lib, items, elems)
    decreases items, 2
  {
    var out := elems;
    for i := 0 to |elems|
      invariant |out| == |elems|
      invariant forall k :: i <= k < |elems| ==> out[k] == elems[k]
      invariant forall k :: 0 <= k < i ==> Restore(lib, items, elems[k]) == Some(out[k])
    {
      var trusted := TrustValue(lib, items, elems[i]);
      if trusted.None? {
        return None;
      }
      out := out[i := trusted.value];
    }
    assert RestoreElems(lib, items, elems).value.elems == out;
    r := Some(Arr(out));
  }

  method TrustValue(lib: Library, s: Schema, v: Json) returns (r: Option<Json>)
    ensures r == Restore(lib, s, v)
    decreases s, 1
  {
    if v.Null? {
      return Some(Null);
    }
    match s.kind
    case SafeHtmlKind => r := if v.Str? then Some(Html(v.text)) else None;
    case ObjectKind =>
      if !v.Obj? {
        return None;
      }
      r := TrustFields(lib, s, v.fields);
    case ArrayKind =>
      if !v.Arr? || s.items.None? {
        return None;
      }
      r := TrustElems(lib, s.items.value, v.elems);
    case UnionKind =>
      var matching := Matching(lib, s, v);
      if |matching| != 1 {
        return None;
      }
      assert matching[0] in matching;
      r := TrustValue(lib, s.variants[matching[0]], v);
    case _ => r := Some(v);
  }

  datatype Route = Route(id: string, props: Schema)

  /** The first route with the id decides. */
  function ContractOf(routes: seq<Route>, id: string): Option<Schema> {
    if routes == [] then None else if routes[0].id == id then Some(routes[0].props) else ContractOf(routes[1..], id)
  }

  lemma {:induction false} FirstRoute(routes: seq<Route>, id: string)
    ensures ContractOf(routes, id).None? <==> forall i :: 0 <= i < |routes| ==> routes[i].id != id
    ensures forall i :: 0 <= i < |routes| && routes[i].id == id && (forall j :: 0 <= j < i ==> routes[j].id != id) ==>
              ContractOf(routes, id) == Some(routes[i].props)
  {
    if routes != [] {
      var t := routes[1..];
      FirstRoute(t, id);
      assert forall i :: 1 <= i < |routes| ==> routes[i] == t[i - 1];
    }
  }

  method TrustStaticSafeHtml(lib: Library, routes: seq<Route>, id: string, props: Json) returns (r: Option<Json>)
    ensures
      var contract := ContractOf(routes, id);
      r == if contract.None? then None else Restore(lib, contract.value, props)
    ensures (forall i :: 0 <= i < |routes| ==> routes[i].id != id) ==> r == None
    ensures forall i :: 0 <= i < |routes| && routes[i].id == id && (forall j :: 0 <= j < i ==> routes[j].id != id) ==>
              r == Restore(lib, routes[i].props, props)
  {
    FirstRoute(routes, id);
    assert routes[0..] == routes;
    for i := 0 to |routes|
      invariant ContractOf(routes[i..], id) == ContractOf(routes, id)
    {
      assert routes[i..][1..] == routes[i + 1..];
      if routes[i].id == id {
        r := TrustValue(lib, routes[i].props, props);
        return;
      }
    }
    return None;
  }
}
