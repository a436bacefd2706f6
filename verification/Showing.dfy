/** What a plan shows: a relation between a plan, its environment and the tags and text that come out, stated case by
    case and without an order of evaluation. The renderer's expansion is proved to be this relation. */
module Showing {
  import opened Wrappers
  import opened Markup
  import opened Renderer

  /** What comes out, piece by piece: a tag, a comment, a character, or markup that is passed on verbatim. */
  datatype Shown = Seen(token: Token) | Verbatim(html: string)

  function Letters(s: string): seq<Shown> {
    seq(|s|, i requires 0 <= i < |s| => Seen(Char(s[i])))
  }

  function Flat<T>(pieces: seq<seq<T>>): seq<T> {
    if pieces == [] then [] else pieces[0] + Flat(pieces[1..])
  }

  // ---- Values ----

  /** The values that count as no. */
  ghost predicate Falsy(v: Value) {
    v == Null || v == Bool(false) || v == Number(0.0) || v == Str("")
  }

  ghost predicate ScalarOf(lib: Library, v: Value, text: string) {
    || (v == Null && text == "") || (v == Bool(true) && text == "true") || (v == Bool(false) && text == "false")
    || (v.Number? && text == lib.format(v.n)) || v == Str(text) || v == Safe(text)
  }

  /** The text of an expression: nothing for null and booleans. */
  ghost predicate TextOf(lib: Library, e: Expr, env: Env, text: string) {
    var v := lib.eval(e, env);
    v.Some? && if v.value.Null? || v.value.Bool? then text == "" else ScalarOf(lib, v.value, text)
  }

  ghost predicate StartsWithNewline(text: string) {
    text != "" && text[0] == '\n'
  }

  // ---- Attributes ----

  const REACT_NAMES: map<string, string> :=
    map["className" := "class", "htmlFor" := "for", "httpEquiv" := "http-equiv", "acceptCharset" := "accept-charset",
        "charSet" := "charset", "crossOrigin" := "crossorigin"]

  ghost function NameOf(a: Attribute): string {
    if a.name in REACT_NAMES then REACT_NAMES[a.name] else a.name
  }

  /** Event handlers and what only React understands cannot be rendered. */
  ghost predicate Forbidden(name: string) {
    || (|name| >= 2 && Lower(name[..2]) == "on") || Lower(name) == "dangerouslysetinnerhtml"
    || name == "key" || name == "ref"
  }

  /** The attributes with their values; `vs` are what their expressions evaluate to. */
  ghost function Given(attrs: seq<Attribute>, vs: seq<Value>): seq<EvalAttr>
    requires |vs| == |attrs|
  {
    seq(|vs|, i requires 0 <= i < |vs| => GivenOne(attrs[i], vs[i]))
  }

  ghost function GivenOne(a: Attribute, v: Value): EvalAttr {
    EvalAttr(NameOf(a), if Lower(NameOf(a)) in BOOLEAN then BooleanMode else a.mode, v)
  }

  ghost predicate Evaluate(lib: Library, attrs: seq<Attribute>, env: Env, vs: seq<Value>) {
    && |vs| == |attrs|
    && forall i :: 0 <= i < |vs| ==> !Forbidden(NameOf(attrs[i])) && lib.eval(attrs[i].value, env) == Some(vs[i])
  }

  /** An attribute is printed as `out`, which is empty when it is left out. */
  ghost predicate AttrShows(lib: Library, a: EvalAttr, ns: Namespace, out: seq<Attr>) {
    var name := if ns.SvgSpace? && a.name in lib.svgNames then lib.svgNames[a.name] else a.name;
    var lower, v := Lower(name), a.value;
    if v.Null? then out == []
    else if v.Bool? && lower in ENUMERATED then out == [Attr(name, if v.b then "true" else "false")]
    else if a.mode.BooleanMode? || (v.Bool? && lower in OVERLOADED) then
      out == if Falsy(v) then [] else [Attr(name, "")]
    else if a.mode.UrlMode? then exists text :: ScalarOf(lib, v, text) && lib.urlOk(text) && out == [Attr(name, text)]
    else if a.mode.StyleMode? then
      exists text :: lib.style(v) == Some(text) && out == if text == "" then [] else [Attr(name, text)]
    else if v.Bool? && !("data-" <= lower) && !("aria-" <= lower) then out == []
    else exists text :: ScalarOf(lib, v, text) && out == [Attr(name, text)]
  }

  ghost predicate FirstAt(given: seq<EvalAttr>, name: string, i: nat) {
    && i < |given| && Lower(given[i].name) == name
    && forall j :: 0 <= j < i ==> Lower(given[j].name) != name
  }

  ghost predicate Absent(given: seq<EvalAttr>, name: string) {
    forall i :: 0 <= i < |given| ==> Lower(given[i].name) != name
  }

  const SELECTED: EvalAttr := EvalAttr("selected", BooleanMode, Bool(true))

  ghost predicate OneShows(lib: Library, given: seq<EvalAttr>, hides: bool, chosen: bool, ns: Namespace, out: seq<Attr>,
                           i: nat)
    requires i < |given|
  {
    if hides && Lower(given[i].name) == "value" then out == []
    else if chosen && FirstAt(given, "selected", i) then
      AttrShows(lib, given[i].(mode := BooleanMode, value := Bool(true)), ns, out)
    else AttrShows(lib, given[i], ns, out)
  }

  /** Each attribute as given, but for `value` if `hides` it, and with `selected` set if the element is `chosen`. */
  ghost predicate AttrsShow(
    lib: Library, given: seq<EvalAttr>, hides: bool, chosen: bool, ns: Namespace, outs: seq<seq<Attr>>,
    extra: seq<Attr>)
  {
    && |outs| == |given|
    && (forall i :: 0 <= i < |given| ==> OneShows(lib, given, hides, chosen, ns, outs[i], i))
    && if chosen && Absent(given, "selected") then AttrShows(lib, SELECTED, ns, extra) else extra == []
  }

  // ---- Forms ----

  /** `text` is one of the values a select element's `value` names. */
  ghost predicate Chooses(lib: Library, v: Value, text: string) {
    if v.List? then exists k :: 0 <= k < |v.items| && ScalarOf(lib, v.items[k], text) else ScalarOf(lib, v, text)
  }

  /** The selection options are compared with: the value of a select element, if it has one. */
  ghost predicate Selects(lib: Library, tag: string, given: seq<EvalAttr>, outer: Option<set<string>>,
                          selection: Option<set<string>>)
  {
    if tag != "select" then selection == outer
    else if Absent(given, "value") then selection == None
    else selection.Some? &&
         forall i: nat, text ::
           FirstAt(given, "value", i) ==> (text in selection.value <==> Chooses(lib, given[i].value, text))
  }

  /** The label of an option: its text children that have a text. */
  ghost predicate Labels(lib: Library, kids: seq<Node>, env: Env, parts: seq<string>) {
    && |parts| == |kids|
    && forall i :: 0 <= i < |kids| ==>
         if kids[i].TextNode? && exists text :: TextOf(lib, kids[i].value, env, text)
         then TextOf(lib, kids[i].value, env, parts[i]) else parts[i] == ""
  }

  /** An option stands for its value, or for its label if it has none. */
  ghost predicate StandsFor(lib: Library, n: Node, env: Env, given: seq<EvalAttr>, text: string)
    requires n.Element?
  {
    if exists i: nat, t :: FirstAt(given, "value", i) && ScalarOf(lib, given[i].value, t) && t != ""
    then exists i: nat :: FirstAt(given, "value", i) && ScalarOf(lib, given[i].value, text)
    else exists parts :: Labels(lib, n.children, env, parts) && text == Flat(parts)
  }

  ghost predicate Chosen(lib: Library, n: Node, env: Env, given: seq<EvalAttr>, selection: Option<set<string>>)
    requires n.Element?
  {
    && Lower(n.tag) == "option" && selection.Some?
    && exists text :: StandsFor(lib, n, env, given, text) && text in selection.value
  }

  // ---- Children ----

  /** A direct row of a table, for which there is to be a body. */
  ghost predicate InBody(kids: seq<Node>, i: int, ctx: Context) {
    0 <= i < |kids| && Lower(ctx.parent) == "table" && kids[i].Element? && Lower(kids[i].tag) == "tr"
  }

  ghost function KidContext(kids: seq<Node>, i: nat, ctx: Context): Context {
    if InBody(kids, i, ctx) then ctx.(parent := "tbody") else ctx
  }

  /** A body opens before the first of adjacent rows, and a comment keeps adjacent texts apart. */
  ghost function Before(kids: seq<Node>, i: nat, ctx: Context): seq<Shown>
    requires i < |kids|
  {
    if InBody(kids, i, ctx) then if InBody(kids, i - 1, ctx) then [] else [Seen(Open("tbody", []))]
    else if i > 0 && kids[i - 1].TextNode? && kids[i].TextNode? then [Seen(Comment)] else []
  }

  /** And closes after the last. */
  ghost function After(kids: seq<Node>, i: nat, ctx: Context): seq<Shown>
    requires i < |kids|
  {
    if InBody(kids, i, ctx) && !InBody(kids, i + 1, ctx) then [Seen(Close("tbody"))] else []
  }

  /** The children from `i` on, one after the other. */
  ghost function Laid(kids: seq<Node>, pieces: seq<seq<Shown>>, i: nat, ctx: Context): seq<Shown>
    requires i <= |kids| == |pieces|
    decreases |kids| - i
  {
    if i == |kids| then [] else Before(kids, i, ctx) + pieces[i] + After(kids, i, ctx) + Laid(kids, pieces, i + 1, ctx)
  }

  // ---- Plans ----

  /** In its own turn a loop's body sees the item, and its index if that has a name. */
  ghost function Turn(n: Node, v: Value, i: nat, ctx: Context): Context
    requires n.Each?
  {
    var index := if n.index == "" then map[] else map[n.index := Number(i as real)];
    ctx.(env := ctx.env.(locals := ctx.env.locals + map[n.item := v] + index))
  }

  ghost predicate Skipped(lib: Library, n: Node, turn: Context)
    requires n.Each?
  {
    n.when.Some? && lib.eval(n.when.value, turn.env).Some? && Falsy(lib.eval(n.when.value, turn.env).value)
  }

  ghost predicate Taken(lib: Library, n: Node, turn: Context)
    requires n.Each?
  {
    n.when.Some? ==> lib.eval(n.when.value, turn.env).Some? && !Falsy(lib.eval(n.when.value, turn.env).value)
  }

  ghost predicate KeyIs(lib: Library, n: Node, turn: Context, key: string)
    requires n.Each?
  {
    var v := lib.eval(n.key, turn.env);
    v.Some? && !v.value.Null? && ScalarOf(lib, v.value, key)
  }

  ghost function InnerContext(n: Node, ctx: Context, selection: Option<set<string>>): Context
    requires n.Element?
  {
    var lower := Lower(n.tag);
    Context(ctx.env, if lower == "foreignobject" then HtmlSpace else SpaceOf(n, ctx), lower, selection)
  }

  ghost function SpaceOf(n: Node, ctx: Context): Namespace
    requires n.Element?
  {
    if Lower(n.tag) == "svg" then SvgSpace else if n.ns.Inherit? then ctx.ns else n.ns
  }

  /** A newline that a parser would strip is doubled. */
  ghost predicate Strips(lib: Library, n: Node, env: Env)
    requires n.Element?
  {
    && Lower(n.tag) in {"pre", "listing"} && n.children != [] && n.children[0].TextNode?
    && exists text :: TextOf(lib, n.children[0].value, env, text) && StartsWithNewline(text)
  }

  ghost function Newline(strip: bool): seq<Shown> {
    if strip then [Seen(Char('\n'))] else []
  }

  ghost predicate KidsShow(lib: Library, n: Node, ctx: Context, pieces: seq<seq<Shown>>)
    decreases n, 0
  {
    && |pieces| == |Kids(n)|
    && forall i :: 0 <= i < |pieces| ==> Shows(lib, Kids(n)[i], KidContext(Kids(n), i, ctx), pieces[i])
  }

  ghost predicate ChildrenShow(lib: Library, n: Node, ctx: Context, items: seq<Shown>)
    decreases n, 1
  {
    exists pieces :: KidsShow(lib, n, ctx, pieces) && items == Laid(Kids(n), pieces, 0, ctx)
  }

  ghost predicate TurnsShow(lib: Library, n: Node, ctx: Context, vs: seq<Value>, keys: seq<string>,
                            pieces: seq<seq<Shown>>)
    requires n.Each?
    decreases n, 0
  {
    && |vs| == |keys| == |pieces|
    && forall i :: 0 <= i < |vs| ==>
         var turn := Turn(n, vs[i], i, ctx);
         || (Skipped(lib, n, turn) && pieces[i] == [])
         || (&& Taken(lib, n, turn) && KeyIs(lib, n, turn, keys[i]) && Shows(lib, n.body, turn, pieces[i])
             && forall j :: 0 <= j < i && Taken(lib, n, Turn(n, vs[j], j, ctx)) ==> keys[j] != keys[i])
  }

  ghost predicate Follow(pieces: seq<seq<Shown>>, items: seq<Shown>) {
    items == Flat(pieces)
  }

  ghost predicate LoopShows(lib: Library, n: Node, ctx: Context, vs: seq<Value>, items: seq<Shown>)
    requires n.Each?
    decreases n, 1
  {
    exists keys, pieces :: TurnsShow(lib, n, ctx, vs, keys, pieces) && Follow(pieces, items)
  }

  ghost predicate ElementShows(
    lib: Library, n: Node, ctx: Context, vs: seq<Value>, selection: Option<set<string>>, outs: seq<seq<Attr>>,
    extra: seq<Attr>, content: seq<Shown>)
    requires n.Element?
    decreases n, 3
  {
    && Evaluate(lib, n.attributes, ctx.env, vs)
    && var lower, given := Lower(n.tag), Given(n.attributes, vs);
    && Selects(lib, lower, given, ctx.selection, selection)
    && AttrsShow(lib, given, lower in {"select", "textarea"}, Chosen(lib, n, ctx.env, given, selection),
                 SpaceOf(n, ctx), outs, extra)
    && if lower in VOID then n.children == [] && content == []
       else ContentShows(lib, n, ctx, given, selection, content)
  }

  /** The content of an element that is not void: its children, or the value of a textarea. */
  ghost predicate ContentShows(
    lib: Library, n: Node, ctx: Context, given: seq<EvalAttr>, selection: Option<set<string>>, content: seq<Shown>)
    requires n.Element?
    decreases n, 2
  {
    if Lower(n.tag) == "textarea" && !Absent(given, "value") then AreaShows(lib, given, content)
    else exists kids :: ChildrenShow(lib, n, InnerContext(n, ctx, selection), kids) &&
                        content == Newline(Strips(lib, n, ctx.env)) + kids
  }

  ghost predicate TagShows(lib: Library, n: Node, ctx: Context, items: seq<Shown>)
    requires n.Element?
    decreases n, 4
  {
    exists vs, selection, outs, extra, content ::
      && ElementShows(lib, n, ctx, vs, selection, outs, extra, content)
      && items == ElementItems(n.tag, Flat(outs) + extra, content)
  }

  /** The value of a textarea is its content. */
  ghost predicate AreaShows(lib: Library, given: seq<EvalAttr>, content: seq<Shown>) {
    exists i: nat, text ::
      && FirstAt(given, "value", i) && ScalarOf(lib, given[i].value, text)
      && content == Newline(StartsWithNewline(text)) + Letters(text)
  }

  /** An element is its open tag, its content and, unless it is void, its close tag. */
  function ElementItems(tag: string, attrs: seq<Attr>, content: seq<Shown>): seq<Shown> {
    [Seen(Open(tag, attrs))] + if Lower(tag) in VOID then [] else content + [Seen(Close(tag))]
  }

  /** Plan `n` shows just this in `ctx`. */
  ghost predicate Shows(lib: Library, n: Node, ctx: Context, items: seq<Shown>)
    decreases n, 5
  {
    match n
    case TextNode(value) => exists text :: TextOf(lib, value, ctx.env, text) && items == Letters(text)
    case Fragment(_) => ChildrenShow(lib, n, ctx, items)
    case Conditional(test, consequent, alternate) =>
      && lib.eval(test, ctx.env).Some?
      && if !Falsy(lib.eval(test, ctx.env).value) then Shows(lib, consequent, ctx, items)
         else if alternate.Some? then Shows(lib, alternate.value, ctx, items) else items == []
    case Each(list, _, _, _, _, _) =>
      exists vs :: lib.eval(list, ctx.env) == Some(List(vs)) && LoopShows(lib, n, ctx, vs, items)
    case ClientOnly(fallback) =>
      if fallback.Some? then Shows(lib, fallback.value, ctx, items) else items == []
    case RawHtml(value) =>
      exists html ::
        && (|| lib.eval(value, ctx.env) == Some(Safe(html))
            || (value.Literal? && lib.eval(value, ctx.env) == Some(Str(html))))
        && items == [Verbatim(html)]
    case Element(_, _, _, _) => TagShows(lib, n, ctx, items)
  }

  // ---- Values and attributes, as the renderer computes them ----

  lemma ScalarIff(lib: Library, v: Value, text: string)
    ensures ScalarOf(lib, v, text) <==> ScalarString(lib, v) == Some(text)
  {
  }

  lemma TextIff(lib: Library, e: Expr, env: Env, text: string)
    ensures TextOf(lib, e, env, text) <==>
            lib.eval(e, env).Some? && RenderText(lib, lib.eval(e, env).value) == Some(text)
  {
  }

  lemma TruthyIff(v: Value)
    ensures Falsy(v) <==> !Truthy(v)
  {
  }

  function OutOf(s: Serialized): seq<Attr> {
    if s.Included? then [s.attr] else []
  }

  lemma AttrIff(lib: Library, a: EvalAttr, ns: Namespace, out: seq<Attr>)
    ensures AttrShows(lib, a, ns, out) <==>
            !Serialize(lib, a, ns).Failed? && out == OutOf(Serialize(lib, a, ns))
  {
    TruthyIff(a.value);
    if ScalarString(lib, a.value).Some? { ScalarIff(lib, a.value, ScalarString(lib, a.value).value); }
    forall text ensures ScalarOf(lib, a.value, text) <==> ScalarString(lib, a.value) == Some(text) {
      ScalarIff(lib, a.value, text);
    }
  }

  lemma NameIff(a: Attribute)
    ensures NameOf(a) == ReactName(a.name)
    ensures Forbidden(NameOf(a)) <==> !Portable(ReactName(a.name))
  {
    var name := ReactName(a.name);
    if |name| >= 2 { assert Lower(name)[..2] == Lower(name[..2]); }
    assert "on" <= Lower(name) <==> |name| >= 2 && Lower(name)[..2] == "on";
  }

  lemma GivenCons(attrs: seq<Attribute>, vs: seq<Value>)
    requires |vs| == |attrs| > 0
    ensures Given(attrs, vs) == [GivenOne(attrs[0], vs[0])] + Given(attrs[1..], vs[1..])
  {
  }

  lemma {:induction false} EvaluateGives(lib: Library, attrs: seq<Attribute>, env: Env, vs: seq<Value>)
    requires Evaluate(lib, attrs, env, vs)
    ensures EvalAttrs(lib, attrs, env) == Some(Given(attrs, vs))
  {
    if attrs == [] {
      assert Given(attrs, vs) == [];
    } else {
      EvaluateGives(lib, attrs[1..], env, vs[1..]);
      NameIff(attrs[0]);
      GivenCons(attrs, vs);
    }
  }

  lemma {:induction false} Evaluated(lib: Library, attrs: seq<Attribute>, env: Env) returns (vs: seq<Value>)
    requires EvalAttrs(lib, attrs, env).Some?
    ensures Evaluate(lib, attrs, env, vs) && EvalAttrs(lib, attrs, env) == Some(Given(attrs, vs))
  {
    vs := [];
    if attrs != [] {
      var rest := Evaluated(lib, attrs[1..], env);
      NameIff(attrs[0]);
      vs := [lib.eval(attrs[0].value, env).value] + rest;
      assert vs[1..] == rest;
    }
    EvaluateGives(lib, attrs, env, vs);
  }

  lemma {:induction false} FindIff(given: seq<EvalAttr>, name: string)
    ensures Find(given, name).None? <==> Absent(given, name)
    ensures Find(given, name).Some? ==> exists i: nat :: FirstAt(given, name, i)
    ensures forall i: nat :: FirstAt(given, name, i) ==> Find(given, name) == Some(given[i].value)
  {
    if given != [] {
      var t := given[1..];
      FindIff(t, name);
      assert forall i :: 1 <= i < |given| ==> given[i] == t[i - 1];
      if Lower(given[0].name) == name {
        assert FirstAt(given, name, 0);
      } else {
        forall i: nat | FirstAt(given, name, i) ensures Find(given, name) == Some(given[i].value) {
          assert FirstAt(t, name, i - 1);
        }
        if Find(t, name).Some? {
          var i: nat :| FirstAt(t, name, i);
          assert FirstAt(given, name, i + 1);
        }
      }
    }
  }

  // ---- Forms, as the renderer computes them ----

  lemma SelectsIff(lib: Library, tag: string, given: seq<EvalAttr>, outer: Option<set<string>>,
                   selection: Option<set<string>>)
    ensures Selects(lib, tag, given, outer, selection) <==>
            selection == if tag == "select" then Selected(lib, given) else outer
  {
    FindIff(given, "value");
    if tag == "select" && !Absent(given, "value") {
      var i: nat :| FirstAt(given, "value", i);
      ChosenValues(lib, given[i].value, Selected(lib, given).value);
      assert forall k: nat :: FirstAt(given, "value", k) ==> k == i;
      if Selects(lib, tag, given, outer, selection) {
        assert forall text :: text in selection.value <==> Chooses(lib, given[i].value, text);
        assert selection.value == Selected(lib, given).value;
      }
    }
  }

  lemma ChosenValues(lib: Library, v: Value, chosen: set<string>)
    requires Some(chosen) == Selected(lib, [EvalAttr("value", StringMode, v)])
    ensures forall text :: text in chosen <==> Chooses(lib, v, text)
  {
    assert Lower("value") == "value";
    forall text ensures text in chosen <==> Chooses(lib, v, text) {
      ScalarIff(lib, v, text);
      if v.List? {
        forall k | 0 <= k < |v.items| { ScalarIff(lib, v.items[k], text); }
      }
    }
  }

  lemma LabelsCons(lib: Library, kids: seq<Node>, env: Env, parts: seq<string>)
    requires kids != [] && Labels(lib, kids, env, parts)
    ensures Labels(lib, kids[1..], env, parts[1..])
  {
    assert forall i :: 0 <= i < |kids| - 1 ==> kids[1..][i] == kids[i + 1] && parts[1..][i] == parts[i + 1];
  }

  lemma {:induction false} LabelsAre(lib: Library, kids: seq<Node>, env: Env, parts: seq<string>)
    requires Labels(lib, kids, env, parts)
    ensures Flat(parts) == PlainText(lib, kids, env)
  {
    if kids != [] {
      LabelsCons(lib, kids, env, parts);
      LabelsAre(lib, kids[1..], env, parts[1..]);
      LabelIs(lib, kids[0], env, parts[0]);
    }
  }

  function LabelPart(lib: Library, kid: Node, env: Env): string {
    var v := if kid.TextNode? then lib.eval(kid.value, env) else None;
    var text := if v.None? then None else RenderText(lib, v.value);
    if text.None? then "" else text.value
  }

  lemma LabelIs(lib: Library, kid: Node, env: Env, part: string)
    ensures (if kid.TextNode? && exists text :: TextOf(lib, kid.value, env, text)
             then TextOf(lib, kid.value, env, part) else part == "")
            <==> part == LabelPart(lib, kid, env)
  {
    if kid.TextNode? {
      TextIff(lib, kid.value, env, part);
      TextIff(lib, kid.value, env, LabelPart(lib, kid, env));
      forall text ensures TextOf(lib, kid.value, env, text) <==>
        lib.eval(kid.value, env).Some? && RenderText(lib, lib.eval(kid.value, env).value) == Some(text)
      {
        TextIff(lib, kid.value, env, text);
      }
    }
  }

  lemma LabelsExist(lib: Library, kids: seq<Node>, env: Env) returns (parts: seq<string>)
    ensures Labels(lib, kids, env, parts)
  {
    parts := seq(|kids|, i requires 0 <= i < |kids| => LabelPart(lib, kids[i], env));
    forall i | 0 <= i < |kids|
      ensures if kids[i].TextNode? && exists text :: TextOf(lib, kids[i].value, env, text)
              then TextOf(lib, kids[i].value, env, parts[i]) else parts[i] == ""
    {
      LabelIs(lib, kids[i], env, parts[i]);
    }
  }

  /** The text an option is compared by. */
  function OptionText(lib: Library, n: Node, env: Env, given: seq<EvalAttr>): string
    requires n.Element?
  {
    var v := Find(given, "value");
    var text := if v.None? then None else ScalarString(lib, v.value);
    if text.None? || text.value == "" then PlainText(lib, n.children, env) else text.value
  }

  lemma StandsForIff(lib: Library, n: Node, env: Env, given: seq<EvalAttr>, text: string)
    requires n.Element?
    ensures StandsFor(lib, n, env, given, text) <==> text == OptionText(lib, n, env, given)
  {
    FindIff(given, "value");
    forall i: nat, t | FirstAt(given, "value", i)
      ensures ScalarOf(lib, given[i].value, t) <==> ScalarString(lib, given[i].value) == Some(t)
    {
      ScalarIff(lib, given[i].value, t);
    }
    var own := Find(given, "value");
    if own.Some? && ScalarString(lib, own.value).Some? && ScalarString(lib, own.value).value != "" {
      var i: nat :| FirstAt(given, "value", i);
      assert ScalarOf(lib, given[i].value, ScalarString(lib, own.value).value);
    } else {
      var parts := LabelsExist(lib, n.children, env);
      LabelsAre(lib, n.children, env, parts);
      if StandsFor(lib, n, env, given, text) {
        var mine :| Labels(lib, n.children, env, mine) && text == Flat(mine);
        LabelsAre(lib, n.children, env, mine);
      }
    }
  }

  lemma ChosenIff(lib: Library, n: Node, env: Env, given: seq<EvalAttr>, selection: Option<set<string>>)
    requires n.Element?
    ensures Chosen(lib, n, env, given, selection) <==>
            Lower(n.tag) == "option" && selection.Some? && OptionText(lib, n, env, given) in selection.value
  {
    StandsForIff(lib, n, env, given, OptionText(lib, n, env, given));
    forall text ensures StandsFor(lib, n, env, given, text) <==> text == OptionText(lib, n, env, given) {
      StandsForIff(lib, n, env, given, text);
    }
  }

  // ---- Attributes of an element ----

  function Settled(given: seq<EvalAttr>, hides: bool, chosen: bool): seq<EvalAttr> {
    if hides then Without(given, "value") else if chosen then Upsert(given, "selected") else given
  }

  /** How the first attribute is printed. */
  ghost predicate HeadShows(lib: Library, a: EvalAttr, hides: bool, chosen: bool, ns: Namespace, out: seq<Attr>) {
    if hides && Lower(a.name) == "value" then out == []
    else
      var settled := if chosen && Lower(a.name) == "selected" then a.(mode := BooleanMode, value := Bool(true)) else a;
      AttrShows(lib, settled, ns, out)
  }

  ghost predicate StillChosen(given: seq<EvalAttr>, chosen: bool) {
    chosen && (given != [] ==> Lower(given[0].name) != "selected")
  }

  lemma FirstAtCons(given: seq<EvalAttr>, name: string, i: nat)
    requires given != []
    ensures i > 0 ==> (FirstAt(given, name, i) <==> Lower(given[0].name) != name && FirstAt(given[1..], name, i - 1))
    ensures FirstAt(given, name, 0) <==> Lower(given[0].name) == name
    ensures Absent(given, name) <==> Lower(given[0].name) != name && Absent(given[1..], name)
  {
    assert forall j :: 1 <= j < |given| ==> given[j] == given[1..][j - 1];
  }

  lemma AttrsShowCons(lib: Library, given: seq<EvalAttr>, hides: bool, chosen: bool, ns: Namespace,
                      outs: seq<seq<Attr>>, extra: seq<Attr>)
    requires given != [] && |outs| == |given|
    ensures AttrsShow(lib, given, hides, chosen, ns, outs, extra) <==>
            && HeadShows(lib, given[0], hides, chosen, ns, outs[0])
            && AttrsShow(lib, given[1..], hides, StillChosen(given, chosen), ns, outs[1..], extra)
  {
    var t, rest, still := given[1..], outs[1..], StillChosen(given, chosen);
    FirstAtCons(given, "selected", 0);
    forall i | 1 <= i < |given|
      ensures OneShows(lib, given, hides, chosen, ns, outs[i], i) <==>
              OneShows(lib, t, hides, still, ns, rest[i - 1], i - 1)
    {
      FirstAtCons(given, "selected", i);
    }
    assert OneShows(lib, given, hides, chosen, ns, outs[0], 0)
      <==> HeadShows(lib, given[0], hides, chosen, ns, outs[0]);
    if AttrsShow(lib, given, hides, chosen, ns, outs, extra) {
      forall i | 0 <= i < |t| ensures OneShows(lib, t, hides, still, ns, rest[i], i) {
        assert OneShows(lib, given, hides, chosen, ns, outs[i + 1], i + 1);
      }
    }
    if HeadShows(lib, given[0], hides, chosen, ns, outs[0]) && AttrsShow(lib, t, hides, still, ns, rest, extra) {
      forall i | 0 <= i < |given| ensures OneShows(lib, given, hides, chosen, ns, outs[i], i) {
        if i > 0 { assert OneShows(lib, t, hides, still, ns, rest[i - 1], i - 1); }
      }
    }
  }

  lemma SettledCons(given: seq<EvalAttr>, hides: bool, chosen: bool)
    requires given != [] && !(hides && chosen)
    ensures
      var rest := Settled(given[1..], hides, StillChosen(given, chosen));
      Settled(given, hides, chosen) ==
      if hides && Lower(given[0].name) == "value" then rest
      else if chosen && Lower(given[0].name) == "selected" then
        [given[0].(mode := BooleanMode, value := Bool(true))] + rest
      else [given[0]] + rest
  {
  }

  lemma SerializeCons(lib: Library, a: EvalAttr, rest: seq<EvalAttr>, ns: Namespace)
    ensures
      var (s, more) := (Serialize(lib, a, ns), SerializeAll(lib, rest, ns));
      SerializeAll(lib, [a] + rest, ns) ==
      if s.Failed? || more.None? then None else Some(OutOf(s) + more.value)
  {
    var more := SerializeAll(lib, rest, ns);
    assert ([a] + rest)[1..] == rest;
    assert more.Some? ==> [] + more.value == more.value;
  }

  lemma {:induction false} AttrsGive(lib: Library, given: seq<EvalAttr>, hides: bool, chosen: bool, ns: Namespace,
                                     outs: seq<seq<Attr>>, extra: seq<Attr>)
    requires !(hides && chosen) && AttrsShow(lib, given, hides, chosen, ns, outs, extra)
    ensures SerializeAll(lib, Settled(given, hides, chosen), ns) == Some(Flat(outs) + extra)
  {
    if given == [] {
      if chosen {
        AttrIff(lib, SELECTED, ns, extra);
        SerializeCons(lib, SELECTED, [], ns);
        assert [SELECTED] + [] == Settled(given, hides, chosen);
        assert extra + [] == extra;
      } else {
        assert Settled(given, hides, chosen) == [];
      }
      assert outs == [] && Flat(outs) + extra == extra;
    } else {
      var still := StillChosen(given, chosen);
      AttrsShowCons(lib, given, hides, chosen, ns, outs, extra);
      AttrsGive(lib, given[1..], hides, still, ns, outs[1..], extra);
      SettledCons(given, hides, chosen);
      var rest := Settled(given[1..], hides, still);
      var a := if chosen && Lower(given[0].name) == "selected" then given[0].(mode := BooleanMode, value := Bool(true))
               else given[0];
      FlatCons(outs, extra);
      if hides && Lower(given[0].name) == "value" {
        assert [] + (Flat(outs[1..]) + extra) == Flat(outs[1..]) + extra;
      } else {
        AttrIff(lib, a, ns, outs[0]);
        SerializeCons(lib, a, rest, ns);
        assert Settled(given, hides, chosen) == [a] + rest;
      }
    }
  }

  lemma FlatCons<T>(pieces: seq<seq<T>>, more: seq<T>)
    requires pieces != []
    ensures Flat(pieces) + more == pieces[0] + (Flat(pieces[1..]) + more)
  {
  }

  lemma {:induction false} AttrsExist(lib: Library, given: seq<EvalAttr>, hides: bool, chosen: bool, ns: Namespace)
    returns (outs: seq<seq<Attr>>, extra: seq<Attr>)
    requires !(hides && chosen) && SerializeAll(lib, Settled(given, hides, chosen), ns).Some?
    ensures AttrsShow(lib, given, hides, chosen, ns, outs, extra)
  {
    if given == [] {
      outs, extra := [], [];
      if chosen {
        SerializeCons(lib, SELECTED, [], ns);
        assert [SELECTED] + [] == Settled(given, hides, chosen);
        extra := OutOf(Serialize(lib, SELECTED, ns));
        AttrIff(lib, SELECTED, ns, extra);
      }
    } else {
      var still := StillChosen(given, chosen);
      SettledCons(given, hides, chosen);
      var rest := Settled(given[1..], hides, still);
      var a := if chosen && Lower(given[0].name) == "selected" then given[0].(mode := BooleanMode, value := Bool(true))
               else given[0];
      SerializeCons(lib, a, rest, ns);
      var more;
      more, extra := AttrsExist(lib, given[1..], hides, still, ns);
      var out := if hides && Lower(given[0].name) == "value" then [] else OutOf(Serialize(lib, a, ns));
      AttrIff(lib, a, ns, out);
      outs := [out] + more;
      assert outs[1..] == more;
      AttrsShowCons(lib, given, hides, chosen, ns, outs, extra);
    }
  }

  // ---- What an expansion shows ----

  function Items(f: Forest): seq<Shown> {
    match f
    case End => []
    case Text(t, rest) => Letters(t) + Items(rest)
    case Separator(rest) => [Seen(Comment)] + Items(rest)
    case Raw(h, rest) => [Verbatim(h)] + Items(rest)
    case Elem(tag, attrs, kids, rest) => ElementItems(tag, attrs, Items(kids)) + Items(rest)
  }

  ghost predicate Yields(f: Option<Forest>, items: seq<Shown>) {
    f.Some? && Items(f.value) == items
  }

  lemma Regroup(a: seq<Shown>, b: seq<Shown>, c: seq<Shown>)
    ensures a + (b + c) == a + b + c
  {
  }

  function HeadItems(f: Forest): seq<Shown>
    requires !f.End?
  {
    match f
    case Text(t, _) => Letters(t)
    case Separator(_) => [Seen(Comment)]
    case Raw(h, _) => [Verbatim(h)]
    case Elem(tag, attrs, kids, _) => ElementItems(tag, attrs, Items(kids))
  }

  lemma ItemsCons(f: Forest, g: Forest)
    requires !f.End?
    ensures Items(f) == HeadItems(f) + Items(f.rest)
    ensures Items(Append(f, g)) == HeadItems(f) + Items(Append(f.rest, g))
  {
  }

  lemma {:induction false} ItemsAppend(f: Forest, g: Forest)
    ensures Items(Append(f, g)) == Items(f) + Items(g)
  {
    if f.End? {
      assert [] + Items(g) == Items(g);
    } else {
      ItemsAppend(f.rest, g);
      ItemsCons(f, g);
      Regroup(HeadItems(f), Items(f.rest), Items(g));
    }
  }

  lemma YieldsConcat(f: Option<Forest>, a: seq<Shown>, g: Option<Forest>, b: seq<Shown>)
    requires Yields(f, a) && Yields(g, b)
    ensures Yields(Concat(f, g), a + b)
  {
    ItemsAppend(f.value, g.value);
  }

  lemma YieldsWrap(tag: string, attrs: seq<Attr>, kids: Option<Forest>, content: seq<Shown>)
    requires Yields(kids, content)
    ensures Yields(Wrap(tag, attrs, kids), ElementItems(tag, attrs, content))
  {
    assert ElementItems(tag, attrs, content) + [] == ElementItems(tag, attrs, content);
  }

  lemma YieldsText(text: string)
    ensures Yields(Some(Text(text, End)), Letters(text))
  {
    assert Letters(text) + [] == Letters(text);
  }

  lemma YieldsNewline(strip: bool)
    ensures Yields(Doubled(strip), Newline(strip))
  {
    YieldsText("\n");
    assert Letters("\n") == [Seen(Char('\n'))];
  }

  // ---- Children ----

  lemma {:induction false} RowsGive(lib: Library, n: Node, i: nat, j: nat, ctx: Context, pieces: seq<seq<Shown>>)
    requires i <= j <= |Kids(n)| == |pieces|
    requires forall k :: i <= k < j ==> Yields(Expand(lib, Kids(n)[k], ctx), pieces[k])
    ensures Yields(ExpandRows(lib, n, i, j, ctx), Flat(pieces[i..j]))
    decreases j - i
  {
    if i < j {
      RowsGive(lib, n, i + 1, j, ctx, pieces);
      assert pieces[i..j][1..] == pieces[i + 1..j];
      YieldsConcat(Expand(lib, Kids(n)[i], ctx), pieces[i], ExpandRows(lib, n, i + 1, j, ctx), Flat(pieces[i + 1..j]));
    }
  }

  lemma {:induction false} RowsExist(lib: Library, n: Node, i: nat, j: nat, ctx: Context)
    requires i <= j <= |Kids(n)| && ExpandRows(lib, n, i, j, ctx).Some?
    ensures forall k :: i <= k < j ==> Expand(lib, Kids(n)[k], ctx).Some?
    decreases j - i
  {
    if i < j { RowsExist(lib, n, i + 1, j, ctx); }
  }

  lemma {:induction false} RowsEndIs(kids: seq<Node>, i: nat)
    requires i <= |kids|
    ensures forall k :: i <= k < RowsEnd(kids, i) ==> IsTag(kids[k], "tr")
    ensures RowsEnd(kids, i) < |kids| ==> !IsTag(kids[RowsEnd(kids, i)], "tr")
    decreases |kids| - i
  {
    if i < |kids| && IsTag(kids[i], "tr") { RowsEndIs(kids, i + 1); }
  }

  lemma RowLaid(before: seq<Shown>, piece: seq<Shown>, rest: seq<Shown>, close: seq<Shown>, tail: seq<Shown>)
    ensures before + piece + (rest + close + tail) == before + (piece + rest + close + tail)
  {
  }

  /** A run of rows is laid out as its rows, with the body closed behind them. */
  lemma {:induction false} BodyLaid(kids: seq<Node>, pieces: seq<seq<Shown>>, i: nat, j: nat, ctx: Context)
    requires i < j <= |kids| == |pieces| && !InBody(kids, j, ctx)
    requires forall k :: i <= k < j ==> InBody(kids, k, ctx)
    ensures Laid(kids, pieces, i, ctx)
         == Before(kids, i, ctx) + (Flat(pieces[i..j]) + [Seen(Close("tbody"))] + Laid(kids, pieces, j, ctx))
    decreases j - i
  {
    var tail, close := Laid(kids, pieces, j, ctx), [Seen(Close("tbody"))];
    if i + 1 == j {
      assert pieces[i..j] == [pieces[i]];
      assert pieces[i] + Flat([]) == pieces[i];
      Regroup(Before(kids, i, ctx), pieces[i], close);
      Regroup(Before(kids, i, ctx), pieces[i] + close, tail);
    } else {
      BodyLaid(kids, pieces, i + 1, j, ctx);
      var rest := Flat(pieces[i + 1..j]);
      assert pieces[i..j][0] == pieces[i] && pieces[i..j][1..] == pieces[i + 1..j];
      assert Laid(kids, pieces, i + 1, ctx) == [] + (rest + close + tail) == rest + close + tail;
      assert Before(kids, i, ctx) + pieces[i] + [] == Before(kids, i, ctx) + pieces[i];
      RowLaid(Before(kids, i, ctx), pieces[i], rest, close, tail);
    }
  }

  lemma {:induction false} KidsGive(lib: Library, n: Node, i: nat, ctx: Context, pieces: seq<seq<Shown>>)
    requires i <= |Kids(n)| == |pieces| && !(InBody(Kids(n), i - 1, ctx) && InBody(Kids(n), i, ctx))
    requires forall k :: i <= k < |pieces| ==>
               Yields(Expand(lib, Kids(n)[k], KidContext(Kids(n), k, ctx)), pieces[k])
    ensures Yields(ExpandKids(lib, n, i, ctx), Laid(Kids(n), pieces, i, ctx))
    decreases |pieces| - i
  {
    var kids := Kids(n);
    if i < |kids| {
      if Rows(n, i, ctx) {
        var j, inner := RowsEnd(kids, i), ctx.(parent := "tbody");
        RowsEndIs(kids, i);
        RowsGive(lib, n, i, j, inner, pieces);
        BodyLaid(kids, pieces, i, j, ctx);
        KidsGive(lib, n, j, ctx, pieces);
        var rows := Flat(pieces[i..j]);
        YieldsWrap("tbody", [], ExpandRows(lib, n, i, j, inner), rows);
        YieldsConcat(Wrap("tbody", [], ExpandRows(lib, n, i, j, inner)), ElementItems("tbody", [], rows),
                     ExpandKids(lib, n, j, ctx), Laid(kids, pieces, j, ctx));
        BodyItems(rows, Laid(kids, pieces, j, ctx));
      } else {
        KidsGive(lib, n, i + 1, ctx, pieces);
        OneKidGives(lib, n, i, ctx, pieces);
      }
    }
  }

  lemma BodyItems(rows: seq<Shown>, tail: seq<Shown>)
    ensures ElementItems("tbody", [], rows) + tail
         == [Seen(Open("tbody", []))] + (rows + [Seen(Close("tbody"))] + tail)
  {
    assert Lower("tbody") == "tbody" && "tbody"[1] == 'b';
  }

  lemma OneKidGives(lib: Library, n: Node, i: nat, ctx: Context, pieces: seq<seq<Shown>>)
    requires i < |Kids(n)| == |pieces| && !Rows(n, i, ctx)
    requires Yields(Expand(lib, Kids(n)[i], ctx), pieces[i])
    requires Yields(ExpandKids(lib, n, i + 1, ctx), Laid(Kids(n), pieces, i + 1, ctx))
    ensures Yields(ExpandKids(lib, n, i, ctx), Laid(Kids(n), pieces, i, ctx))
  {
    var kids := Kids(n);
    var before, tail := Before(kids, i, ctx), Laid(kids, pieces, i + 1, ctx);
    assert Yields(Apart(n, i), before);
    YieldsConcat(Apart(n, i), before, Expand(lib, kids[i], ctx), pieces[i]);
    YieldsConcat(Concat(Apart(n, i), Expand(lib, kids[i], ctx)), before + pieces[i],
                 ExpandKids(lib, n, i + 1, ctx), tail);
    assert before + pieces[i] + [] + tail == before + pieces[i] + tail;
  }

  lemma {:induction false} KidsExist(lib: Library, n: Node, i: nat, ctx: Context)
    requires i <= |Kids(n)| && ExpandKids(lib, n, i, ctx).Some?
    ensures forall k :: i <= k < |Kids(n)| ==> Expand(lib, Kids(n)[k], KidContext(Kids(n), k, ctx)).Some?
    decreases |Kids(n)| - i
  {
    if i < |Kids(n)| {
      if Rows(n, i, ctx) {
        var j := RowsEnd(Kids(n), i);
        RowsEndIs(Kids(n), i);
        RowsExist(lib, n, i, j, ctx.(parent := "tbody"));
        KidsExist(lib, n, j, ctx);
      } else {
        KidsExist(lib, n, i + 1, ctx);
      }
    }
  }

  // ---- Loops ----

  lemma TurnIs(n: Node, v: Value, i: nat, ctx: Context)
    requires n.Each?
    ensures Bind(n, v, i, ctx) == Turn(n, v, i, ctx)
  {
    assert Bind(n, v, i, ctx).env.locals == Turn(n, v, i, ctx).env.locals;
  }

  lemma KeyOfIs(lib: Library, n: Node, turn: Context)
    requires n.Each?
    ensures Skipped(lib, n, turn) <==> KeyOf(lib, n, turn) == Some(None)
    ensures forall key :: Taken(lib, n, turn) && KeyIs(lib, n, turn, key) <==> KeyOf(lib, n, turn) == Some(Some(key))
    ensures !(Skipped(lib, n, turn) && Taken(lib, n, turn))
  {
    if n.when.Some? && lib.eval(n.when.value, turn.env).Some? { TruthyIff(lib.eval(n.when.value, turn.env).value); }
    var v := lib.eval(n.key, turn.env);
    forall key ensures Taken(lib, n, turn) && KeyIs(lib, n, turn, key) <==> KeyOf(lib, n, turn) == Some(Some(key)) {
      if v.Some? { ScalarIff(lib, v.value, key); }
    }
  }

  /** A turn of the loop as the expansion takes it; `used` are the keys taken before. */
  ghost predicate TurnYields(lib: Library, n: Node, turn: Context, used: set<string>, key: string, piece: seq<Shown>)
    requires n.Each?
  {
    || (Skipped(lib, n, turn) && piece == [])
    || (Taken(lib, n, turn) && KeyIs(lib, n, turn, key) && key !in used && Yields(Expand(lib, n.body, turn), piece))
  }

  /** The keys of the turns taken before `i`. */
  ghost function Used(lib: Library, n: Node, vs: seq<Value>, keys: seq<string>, i: nat, ctx: Context): set<string>
    requires n.Each? && i <= |vs| == |keys|
  {
    set j | 0 <= j < i && Taken(lib, n, Turn(n, vs[j], j, ctx)) :: keys[j]
  }

  lemma UsedMore(lib: Library, n: Node, vs: seq<Value>, keys: seq<string>, i: nat, ctx: Context)
    requires n.Each? && i < |vs| == |keys|
    ensures Used(lib, n, vs, keys, i + 1, ctx)
         == Used(lib, n, vs, keys, i, ctx) + if Taken(lib, n, Turn(n, vs[i], i, ctx)) then {keys[i]} else {}
  {
  }

  lemma {:induction false} ItemsGive(
      lib: Library, n: Node, vs: seq<Value>, i: nat, keys: seq<string>, ctx: Context, pieces: seq<seq<Shown>>)
    requires n.Each? && i <= |vs| == |keys| == |pieces|
    requires forall k :: i <= k < |vs| ==>
               TurnYields(lib, n, Turn(n, vs[k], k, ctx), Used(lib, n, vs, keys, k, ctx), keys[k], pieces[k])
    ensures Yields(ExpandItems(lib, n, vs, i, Used(lib, n, vs, keys, i, ctx), ctx), Flat(pieces[i..]))
    decreases |vs| - i
  {
    if i < |vs| {
      var turn := Turn(n, vs[i], i, ctx);
      TurnIs(n, vs[i], i, ctx);
      KeyOfIs(lib, n, turn);
      UsedMore(lib, n, vs, keys, i, ctx);
      ItemsGive(lib, n, vs, i + 1, keys, ctx, pieces);
      assert pieces[i..][1..] == pieces[i + 1..];
      var used := Used(lib, n, vs, keys, i + 1, ctx);
      if Skipped(lib, n, turn) {
        assert [] + Flat(pieces[i + 1..]) == Flat(pieces[i + 1..]);
        assert used == Used(lib, n, vs, keys, i, ctx);
      } else {
        YieldsConcat(Expand(lib, n.body, turn), pieces[i], ExpandItems(lib, n, vs, i + 1, used, ctx),
                     Flat(pieces[i + 1..]));
      }
    }
  }

  lemma UsedNext(
      lib: Library, n: Node, vs: seq<Value>, i: nat, before: seq<string>, key: string, ctx: Context)
    requires n.Each? && |before| == i < |vs|
    ensures
      var used := Used(lib, n, vs[..i], before, i, ctx);
      Used(lib, n, vs[..i + 1], before + [key], i + 1, ctx)
      == if Taken(lib, n, Turn(n, vs[i], i, ctx)) then used + {key} else used
  {
    UsedMore(lib, n, vs[..i + 1], before + [key], i, ctx);
    UsedPrefix(lib, n, vs[..i + 1], before + [key], vs[..i], before, i, ctx);
  }

  /** The key of turn `i`, if it is taken. */
  function KeyText(lib: Library, n: Node, turn: Context): string
    requires n.Each?
  {
    var key := KeyOf(lib, n, turn);
    if key.Some? && key.value.Some? then key.value.value else ""
  }

  lemma {:induction false} ItemsExist(
      lib: Library, n: Node, vs: seq<Value>, i: nat, before: seq<string>, ctx: Context)
    returns (keys: seq<string>, pieces: seq<seq<Shown>>)
    requires n.Each? && |before| == i <= |vs|
    requires ExpandItems(lib, n, vs, i, Used(lib, n, vs[..i], before, i, ctx), ctx).Some?
    ensures |keys| == |pieces| == |vs| && keys[..i] == before
    ensures forall k :: i <= k < |vs| ==>
              TurnYields(lib, n, Turn(n, vs[k], k, ctx), Used(lib, n, vs, keys, k, ctx), keys[k], pieces[k])
    decreases |vs| - i
  {
    if i == |vs| {
      keys, pieces := before, seq(i, k => []);
    } else {
      var rest, mine := [], KeyText(lib, n, Turn(n, vs[i], i, ctx));
      OthersFollow(lib, n, vs, i, before, mine, ctx);
      keys, rest := ItemsExist(lib, n, vs, i + 1, before + [mine], ctx);
      assert keys[..i + 1][i] == mine && keys[..i + 1][..i] == before;
      var piece := HeadTurn(lib, n, vs, i, before, keys, ctx);
      pieces := rest[i := piece];
    }
  }

  lemma OthersFollow(
      lib: Library, n: Node, vs: seq<Value>, i: nat, before: seq<string>, key: string, ctx: Context)
    requires n.Each? && |before| == i < |vs| && key == KeyText(lib, n, Turn(n, vs[i], i, ctx))
    requires ExpandItems(lib, n, vs, i, Used(lib, n, vs[..i], before, i, ctx), ctx).Some?
    ensures ExpandItems(lib, n, vs, i + 1, Used(lib, n, vs[..i + 1], before + [key], i + 1, ctx), ctx).Some?
  {
    ItemsStep(lib, n, vs, i, Used(lib, n, vs[..i], before, i, ctx), ctx);
    KeyOfIs(lib, n, Turn(n, vs[i], i, ctx));
    UsedNext(lib, n, vs, i, before, key, ctx);
  }

  lemma HeadTurn(
      lib: Library, n: Node, vs: seq<Value>, i: nat, before: seq<string>, keys: seq<string>, ctx: Context)
    returns (piece: seq<Shown>)
    requires n.Each? && |before| == i < |vs| == |keys| && keys[..i] == before
    requires keys[i] == KeyText(lib, n, Turn(n, vs[i], i, ctx))
    requires ExpandItems(lib, n, vs, i, Used(lib, n, vs[..i], before, i, ctx), ctx).Some?
    ensures TurnYields(lib, n, Turn(n, vs[i], i, ctx), Used(lib, n, vs, keys, i, ctx), keys[i], piece)
  {
    var turn := Turn(n, vs[i], i, ctx);
    ItemsStep(lib, n, vs, i, Used(lib, n, vs[..i], before, i, ctx), ctx);
    UsedPrefix(lib, n, vs, keys, vs[..i], before, i, ctx);
    piece := if KeyOf(lib, n, turn).value.Some? then Items(Expand(lib, n.body, turn).value) else [];
    TakenTurn(lib, n, turn, Used(lib, n, vs, keys, i, ctx), keys[i], piece);
  }

  lemma ItemsStep(lib: Library, n: Node, vs: seq<Value>, i: nat, used: set<string>, ctx: Context)
    requires n.Each? && i < |vs| && ExpandItems(lib, n, vs, i, used, ctx).Some?
    ensures
      var key := KeyOf(lib, n, Turn(n, vs[i], i, ctx));
      && key.Some?
      && (key.value.None? ==> ExpandItems(lib, n, vs, i + 1, used, ctx).Some?)
      && (key.value.Some? ==>
            && key.value.value !in used && Expand(lib, n.body, Turn(n, vs[i], i, ctx)).Some?
            && ExpandItems(lib, n, vs, i + 1, used + {key.value.value}, ctx).Some?)
  {
    TurnIs(n, vs[i], i, ctx);
  }

  lemma TakenTurn(lib: Library, n: Node, turn: Context, used: set<string>, key: string, piece: seq<Shown>)
    requires n.Each? && KeyOf(lib, n, turn).Some?
    requires
      var k := KeyOf(lib, n, turn).value;
      if k.None? then piece == [] else k == Some(key) && key !in used && Yields(Expand(lib, n.body, turn), piece)
    ensures TurnYields(lib, n, turn, used, key, piece)
  {
    KeyOfIs(lib, n, turn);
  }

  lemma UsedPrefix(lib: Library, n: Node, vs: seq<Value>, keys: seq<string>, ws: seq<Value>, ls: seq<string>, i: nat,
                   ctx: Context)
    requires n.Each? && i <= |vs| == |keys| && i <= |ws| == |ls| && vs[..i] == ws[..i] && keys[..i] == ls[..i]
    ensures Used(lib, n, vs, keys, i, ctx) == Used(lib, n, ws, ls, i, ctx)
  {
    assert forall j :: 0 <= j < i ==> vs[..i][j] == vs[j] && ws[..i][j] == ws[j];
    assert forall j :: 0 <= j < i ==> keys[..i][j] == keys[j] && ls[..i][j] == ls[j];
  }

  // ---- Showing is expansion ----

  lemma {:induction false} KidsShowIff(lib: Library, n: Node, ctx: Context, pieces: seq<seq<Shown>>)
    requires |pieces| == |Kids(n)|
    ensures KidsShow(lib, n, ctx, pieces) <==>
            forall k :: 0 <= k < |pieces| ==> Yields(Expand(lib, Kids(n)[k], KidContext(Kids(n), k, ctx)), pieces[k])
    decreases n, 0
  {
    forall k | 0 <= k < |pieces|
      ensures Shows(lib, Kids(n)[k], KidContext(Kids(n), k, ctx), pieces[k]) <==>
              Yields(Expand(lib, Kids(n)[k], KidContext(Kids(n), k, ctx)), pieces[k])
    {
      ShowsIff(lib, Kids(n)[k], KidContext(Kids(n), k, ctx), pieces[k]);
    }
  }

  /** The children show what they expand to, laid out. */
  lemma {:induction false} ChildrenIff(lib: Library, n: Node, ctx: Context, items: seq<Shown>)
    ensures ChildrenShow(lib, n, ctx, items) <==> Yields(ExpandKids(lib, n, 0, ctx), items)
    decreases n, 1
  {
    var kids := Kids(n);
    if ChildrenShow(lib, n, ctx, items) {
      var pieces :| KidsShow(lib, n, ctx, pieces) && items == Laid(kids, pieces, 0, ctx);
      KidsShowIff(lib, n, ctx, pieces);
      KidsGive(lib, n, 0, ctx, pieces);
    }
    if Yields(ExpandKids(lib, n, 0, ctx), items) {
      KidsExist(lib, n, 0, ctx);
      var pieces := seq(|kids|, k requires 0 <= k < |kids| && Expand(lib, kids[k], KidContext(kids, k, ctx)).Some? =>
        Items(Expand(lib, kids[k], KidContext(kids, k, ctx)).value));
      KidsShowIff(lib, n, ctx, pieces);
      KidsGive(lib, n, 0, ctx, pieces);
      assert KidsShow(lib, n, ctx, pieces) && items == Laid(kids, pieces, 0, ctx);
    }
  }

  lemma {:induction false} TurnsShowIff(lib: Library, n: Node, ctx: Context, vs: seq<Value>, keys: seq<string>,
                                        pieces: seq<seq<Shown>>)
    requires n.Each? && |vs| == |keys| == |pieces|
    ensures TurnsShow(lib, n, ctx, vs, keys, pieces) <==>
            forall k :: 0 <= k < |vs| ==>
              TurnYields(lib, n, Turn(n, vs[k], k, ctx), Used(lib, n, vs, keys, k, ctx), keys[k], pieces[k])
    decreases n, 0
  {
    forall k | 0 <= k < |vs|
      ensures Shows(lib, n.body, Turn(n, vs[k], k, ctx), pieces[k]) <==>
              Yields(Expand(lib, n.body, Turn(n, vs[k], k, ctx)), pieces[k])
      ensures keys[k] !in Used(lib, n, vs, keys, k, ctx) <==>
              forall j :: 0 <= j < k && Taken(lib, n, Turn(n, vs[j], j, ctx)) ==> keys[j] != keys[k]
    {
      ShowsIff(lib, n.body, Turn(n, vs[k], k, ctx), pieces[k]);
    }
  }

  lemma LoopPieces(lib: Library, n: Node, ctx: Context, vs: seq<Value>, items: seq<Shown>)
    returns (keys: seq<string>, pieces: seq<seq<Shown>>)
    requires n.Each? && LoopShows(lib, n, ctx, vs, items)
    ensures TurnsShow(lib, n, ctx, vs, keys, pieces) && Follow(pieces, items)
  {
    keys, pieces :| TurnsShow(lib, n, ctx, vs, keys, pieces) && Follow(pieces, items);
  }

  lemma {:induction false} EachIff(lib: Library, n: Node, ctx: Context, vs: seq<Value>, items: seq<Shown>)
    requires n.Each?
    ensures LoopShows(lib, n, ctx, vs, items) <==> Yields(ExpandItems(lib, n, vs, 0, {}, ctx), items)
    decreases n, 1
  {
    if LoopShows(lib, n, ctx, vs, items) {
      var keys, pieces := LoopPieces(lib, n, ctx, vs, items);
      TurnsShowIff(lib, n, ctx, vs, keys, pieces);
      ItemsGive(lib, n, vs, 0, keys, ctx, pieces);
      assert Used(lib, n, vs, keys, 0, ctx) == {} && pieces[0..] == pieces;
    }
    if Yields(ExpandItems(lib, n, vs, 0, {}, ctx), items) {
      assert Used(lib, n, vs[..0], [], 0, ctx) == {};
      var keys, pieces := ItemsExist(lib, n, vs, 0, [], ctx);
      TurnsShowIff(lib, n, ctx, vs, keys, pieces);
      ItemsGive(lib, n, vs, 0, keys, ctx, pieces);
      assert Used(lib, n, vs, keys, 0, ctx) == {} && pieces[0..] == pieces;
      assert TurnsShow(lib, n, ctx, vs, keys, pieces) && Follow(pieces, items);
    }
  }

  lemma {:induction false} ShowsIff(lib: Library, n: Node, ctx: Context, items: seq<Shown>)
    ensures Shows(lib, n, ctx, items) <==> Yields(Expand(lib, n, ctx), items)
    decreases n, 6
  {
    match n
    case TextNode(value) => TextShows(lib, n, ctx, items);
    case Fragment(kids) => ChildrenIff(lib, n, ctx, items);
    case Conditional(test, consequent, alternate) =>
      if lib.eval(test, ctx.env).Some? { TruthyIff(lib.eval(test, ctx.env).value); }
      ShowsIff(lib, consequent, ctx, items);
      if alternate.Some? { ShowsIff(lib, alternate.value, ctx, items); }
    case Each(list, _, _, _, _, _) => LoopIff(lib, n, ctx, items);
    case ClientOnly(fallback) => if fallback.Some? { ShowsIff(lib, fallback.value, ctx, items); }
    case RawHtml(value) => RawShows(lib, n, ctx, items);
    case Element(_, _, _, _) => ElementIff(lib, n, ctx, items);
  }

  lemma TextShows(lib: Library, n: Node, ctx: Context, items: seq<Shown>)
    requires n.TextNode?
    ensures Shows(lib, n, ctx, items) <==> Yields(Expand(lib, n, ctx), items)
  {
    forall text ensures TextOf(lib, n.value, ctx.env, text) <==>
      lib.eval(n.value, ctx.env).Some? && RenderText(lib, lib.eval(n.value, ctx.env).value) == Some(text)
    {
      TextIff(lib, n.value, ctx.env, text);
    }
    forall text { YieldsText(text); }
  }

  lemma RawShows(lib: Library, n: Node, ctx: Context, items: seq<Shown>)
    requires n.RawHtml?
    ensures Shows(lib, n, ctx, items) <==> Yields(Expand(lib, n, ctx), items)
  {
    forall html: string ensures Items(Raw(html, End)) == [Verbatim(html)] {}
  }

  lemma {:induction false} LoopIff(lib: Library, n: Node, ctx: Context, items: seq<Shown>)
    requires n.Each?
    ensures Shows(lib, n, ctx, items) <==> Yields(Expand(lib, n, ctx), items)
    decreases n, 2
  {
    var v := lib.eval(n.items, ctx.env);
    if v.Some? && v.value.List? { EachIff(lib, n, ctx, v.value.items, items); }
  }

  /** What settles an element before it is written, once its attributes have their values. */
  lemma ViewIs(lib: Library, n: Node, ctx: Context, vs: seq<Value>, selection: Option<set<string>>)
    requires n.Element? && Evaluate(lib, n.attributes, ctx.env, vs)
    requires Selects(lib, Lower(n.tag), Given(n.attributes, vs), ctx.selection, selection)
    ensures
      var lower, given := Lower(n.tag), Given(n.attributes, vs);
      var hides, chosen := lower in {"select", "textarea"}, Chosen(lib, n, ctx.env, given, selection);
      var area := if lower == "textarea" then Find(given, "value") else None;
      && !(hides && chosen)
      && ViewOf(lib, n, ctx) ==
         if area.Some? && ScalarString(lib, area.value).None? then None
         else Some(View(Settled(given, hides, chosen), SpaceOf(n, ctx),
                        if area.None? then None else ScalarString(lib, area.value), InnerContext(n, ctx, selection)))
  {
    var given := Given(n.attributes, vs);
    EvaluateGives(lib, n.attributes, ctx.env, vs);
    SelectsIff(lib, Lower(n.tag), given, ctx.selection, selection);
    ChosenIff(lib, n, ctx.env, given, selection);
  }

  lemma AreaIff(lib: Library, given: seq<EvalAttr>, content: seq<Shown>)
    requires !Absent(given, "value")
    ensures Find(given, "value").Some?
    ensures
      var text := ScalarString(lib, Find(given, "value").value);
      AreaShows(lib, given, content) <==>
      text.Some? && Yields(Concat(Doubled("\n" <= text.value), Some(Text(text.value, End))), content)
  {
    FindIff(given, "value");
    var i: nat :| FirstAt(given, "value", i);
    var text := ScalarString(lib, given[i].value);
    forall t ensures ScalarOf(lib, given[i].value, t) <==> text == Some(t) {
      ScalarIff(lib, given[i].value, t);
    }
    assert forall k: nat :: FirstAt(given, "value", k) ==> k == i;
    if text.Some? {
      var strip := "\n" <= text.value;
      assert strip <==> StartsWithNewline(text.value);
      YieldsNewline(strip);
      YieldsText(text.value);
      YieldsConcat(Doubled(strip), Newline(strip), Some(Text(text.value, End)), Letters(text.value));
      assert ScalarOf(lib, given[i].value, text.value);
    }
  }

  lemma StripsIff(lib: Library, n: Node, env: Env)
    requires n.Element?
    ensures Strips(lib, n, env) <==>
            Lower(n.tag) in {"pre", "listing"} && Renderer.StartsWithNewline(lib, n.children, env)
  {
    if n.children != [] && n.children[0].TextNode? {
      var e := n.children[0].value;
      forall text ensures TextOf(lib, e, env, text) <==>
        lib.eval(e, env).Some? && RenderText(lib, lib.eval(e, env).value) == Some(text)
      {
        TextIff(lib, e, env, text);
      }
      forall text: string ensures "\n" <= text <==> StartsWithNewline(text) {}
    }
  }

  /** The content of an element that is not void. */
  lemma {:induction false} InnerIff(lib: Library, n: Node, ctx: Context, inner: Context, content: seq<Shown>)
    requires n.Element?
    ensures
      var strip := Lower(n.tag) in {"pre", "listing"} && Renderer.StartsWithNewline(lib, n.children, ctx.env);
      (exists kids :: ChildrenShow(lib, n, inner, kids) && content == Newline(Strips(lib, n, ctx.env)) + kids) <==>
      Yields(Concat(Doubled(strip), ExpandKids(lib, n, 0, inner)), content)
    decreases n, 2
  {
    var strip, all := Strips(lib, n, ctx.env), ExpandKids(lib, n, 0, inner);
    StripsIff(lib, n, ctx.env);
    YieldsNewline(strip);
    forall kids ensures ChildrenShow(lib, n, inner, kids) <==> Yields(all, kids) {
      ChildrenIff(lib, n, inner, kids);
    }
    if all.Some? { YieldsConcat(Doubled(strip), Newline(strip), all, Items(all.value)); }
  }

  lemma {:induction false} ContentIff(
      lib: Library, n: Node, ctx: Context, given: seq<EvalAttr>, selection: Option<set<string>>, view: View,
      content: seq<Shown>)
    requires n.Element? && view.inner == InnerContext(n, ctx, selection)
    requires
      var area := if Lower(n.tag) == "textarea" then Find(given, "value") else None;
      area.Some? ==> ScalarString(lib, area.value).Some?
    requires
      var area := if Lower(n.tag) == "textarea" then Find(given, "value") else None;
      view.area == if area.None? then None else ScalarString(lib, area.value)
    ensures ContentShows(lib, n, ctx, given, selection, content) <==> Yields(Content(lib, n, ctx, view), content)
    decreases n, 3
  {
    FindIff(given, "value");
    if Lower(n.tag) == "textarea" && !Absent(given, "value") {
      AreaIff(lib, given, content);
    } else {
      InnerIff(lib, n, ctx, view.inner, content);
    }
  }

  lemma AreaIsScalar(lib: Library, given: seq<EvalAttr>, content: seq<Shown>)
    requires !Absent(given, "value") && AreaShows(lib, given, content)
    ensures Find(given, "value").Some? && ScalarString(lib, Find(given, "value").value).Some?
  {
    AreaIff(lib, given, content);
  }

  lemma WrittenElement(lib: Library, n: Node, ctx: Context, view: View, attrs: seq<Attr>, content: seq<Shown>)
    requires n.Element? && ViewOf(lib, n, ctx) == Some(view) && SerializeAll(lib, view.attrs, view.ns) == Some(attrs)
    requires if IsVoid(n.tag) then n.children == [] && content == [] else Yields(Content(lib, n, ctx, view), content)
    ensures Yields(ExpandElement(lib, n, ctx), ElementItems(n.tag, attrs, content))
  {
    if IsVoid(n.tag) {
      assert ElementItems(n.tag, attrs, content) + [] == ElementItems(n.tag, attrs, content);
    } else {
      YieldsWrap(n.tag, attrs, Content(lib, n, ctx, view), content);
    }
  }

  /** The attributes and the view of an element that shows something. */
  lemma ElementView(
      lib: Library, n: Node, ctx: Context, vs: seq<Value>, selection: Option<set<string>>, outs: seq<seq<Attr>>,
      extra: seq<Attr>)
    returns (view: View)
    requires n.Element? && Evaluate(lib, n.attributes, ctx.env, vs)
    requires Selects(lib, Lower(n.tag), Given(n.attributes, vs), ctx.selection, selection)
    requires
      var lower, given := Lower(n.tag), Given(n.attributes, vs);
      AttrsShow(lib, given, lower in {"select", "textarea"}, Chosen(lib, n, ctx.env, given, selection), SpaceOf(n, ctx),
                outs, extra)
    requires
      var area := if Lower(n.tag) == "textarea" then Find(Given(n.attributes, vs), "value") else None;
      area.Some? ==> ScalarString(lib, area.value).Some?
    ensures ViewOf(lib, n, ctx) == Some(view) && SerializeAll(lib, view.attrs, view.ns) == Some(Flat(outs) + extra)
    ensures view.inner == InnerContext(n, ctx, selection)
    ensures
      var area := if Lower(n.tag) == "textarea" then Find(Given(n.attributes, vs), "value") else None;
      view.area == if area.None? then None else ScalarString(lib, area.value)
  {
    var lower, given := Lower(n.tag), Given(n.attributes, vs);
    ViewIs(lib, n, ctx, vs, selection);
    AttrsGive(lib, given, lower in {"select", "textarea"}, Chosen(lib, n, ctx.env, given, selection), SpaceOf(n, ctx),
              outs, extra);
    view := ViewOf(lib, n, ctx).value;
  }

  lemma ElementArea(
      lib: Library, n: Node, ctx: Context, given: seq<EvalAttr>, selection: Option<set<string>>, content: seq<Shown>)
    requires n.Element? && (!IsVoid(n.tag) ==> ContentShows(lib, n, ctx, given, selection, content))
    ensures
      var area := if Lower(n.tag) == "textarea" then Find(given, "value") else None;
      area.Some? ==> ScalarString(lib, area.value).Some?
  {
    FindIff(given, "value");
    if Lower(n.tag) == "textarea" && !Absent(given, "value") { AreaIsScalar(lib, given, content); }
  }

  lemma {:induction false} ElementGives(
      lib: Library, n: Node, ctx: Context, vs: seq<Value>, selection: Option<set<string>>, outs: seq<seq<Attr>>,
      extra: seq<Attr>, content: seq<Shown>)
    requires n.Element? && ElementShows(lib, n, ctx, vs, selection, outs, extra, content)
    ensures Yields(ExpandElement(lib, n, ctx), ElementItems(n.tag, Flat(outs) + extra, content))
    decreases n, 4
  {
    ElementArea(lib, n, ctx, Given(n.attributes, vs), selection, content);
    var view := ElementView(lib, n, ctx, vs, selection, outs, extra);
    if !IsVoid(n.tag) {
      ContentIff(lib, n, ctx, Given(n.attributes, vs), selection, view, content);
    }
    WrittenElement(lib, n, ctx, view, Flat(outs) + extra, content);
  }

  lemma {:induction false} ElementExists(lib: Library, n: Node, ctx: Context)
    returns (vs: seq<Value>, selection: Option<set<string>>, outs: seq<seq<Attr>>, extra: seq<Attr>,
             content: seq<Shown>)
    requires n.Element? && ExpandElement(lib, n, ctx).Some?
    ensures ElementShows(lib, n, ctx, vs, selection, outs, extra, content)
    decreases n, 4
  {
    vs := Evaluated(lib, n.attributes, ctx.env);
    var lower, given := Lower(n.tag), Given(n.attributes, vs);
    selection := if lower == "select" then Selected(lib, given) else ctx.selection;
    SelectsIff(lib, lower, given, ctx.selection, selection);
    ViewIs(lib, n, ctx, vs, selection);
    var view := ViewOf(lib, n, ctx).value;
    outs, extra := AttrsExist(lib, given, lower in {"select", "textarea"}, Chosen(lib, n, ctx.env, given, selection),
                              SpaceOf(n, ctx));
    FindIff(given, "value");
    content := [];
    if !IsVoid(n.tag) {
      content := Items(Content(lib, n, ctx, view).value);
      ContentIff(lib, n, ctx, given, selection, view, content);
    }
  }

  lemma TagPieces(lib: Library, n: Node, ctx: Context, items: seq<Shown>)
    returns (vs: seq<Value>, selection: Option<set<string>>, outs: seq<seq<Attr>>, extra: seq<Attr>,
             content: seq<Shown>)
    requires n.Element? && TagShows(lib, n, ctx, items)
    ensures ElementShows(lib, n, ctx, vs, selection, outs, extra, content)
    ensures items == ElementItems(n.tag, Flat(outs) + extra, content)
  {
    vs, selection, outs, extra, content :|
      ElementShows(lib, n, ctx, vs, selection, outs, extra, content)
      && items == ElementItems(n.tag, Flat(outs) + extra, content);
  }

  lemma {:induction false} ElementIff(lib: Library, n: Node, ctx: Context, items: seq<Shown>)
    requires n.Element?
    ensures Shows(lib, n, ctx, items) <==> Yields(Expand(lib, n, ctx), items)
    decreases n, 5
  {
    assert Shows(lib, n, ctx, items) <==> TagShows(lib, n, ctx, items);
    if TagShows(lib, n, ctx, items) {
      var vs, selection, outs, extra, content := TagPieces(lib, n, ctx, items);
      ElementGives(lib, n, ctx, vs, selection, outs, extra, content);
    }
    if Yields(Expand(lib, n, ctx), items) {
      var vs, selection, outs, extra, content := ElementExists(lib, n, ctx);
      ElementGives(lib, n, ctx, vs, selection, outs, extra, content);
    }
  }

  // ---- What is rendered ----

  function WriteOne(item: Shown): string {
    match item
    case Verbatim(html) => html
    case Seen(Open(tag, attrs)) => OpenTag(tag, attrs)
    case Seen(Close(tag)) => CloseTag(tag)
    case Seen(Comment) => SEPARATOR
    case Seen(Char(c)) => EscapeTextChar(c)
  }

  function Written(items: seq<Shown>): string {
    if items == [] then "" else WriteOne(items[0]) + Written(items[1..])
  }

  lemma {:induction false} WrittenAppend(a: seq<Shown>, b: seq<Shown>)
    ensures Written(a + b) == Written(a) + Written(b)
  {
    if a == [] {
      assert a + b == b;
    } else {
      assert (a + b)[1..] == a[1..] + b;
      WrittenAppend(a[1..], b);
    }
  }

  lemma {:induction false} LettersWritten(text: string)
    ensures Written(Letters(text)) == EscapeText(text)
  {
    if text != "" {
      assert Letters(text)[1..] == Letters(text[1..]);
      LettersWritten(text[1..]);
    }
  }

  lemma OneWritten(item: Shown)
    ensures Written([item]) == WriteOne(item)
  {
  }

  lemma {:induction false} ItemsWritten(f: Forest)
    ensures Written(Items(f)) == Print(f)
    decreases f, 1
  {
    if !f.End? { ItemsWritten(f.rest); }
    match f
    case End =>
    case Text(t, rest) =>
      LettersWritten(t);
      WrittenAppend(Letters(t), Items(rest));
    case Separator(rest) =>
      OneWritten(Seen(Comment));
      WrittenAppend([Seen(Comment)], Items(rest));
    case Raw(h, rest) =>
      OneWritten(Verbatim(h));
      WrittenAppend([Verbatim(h)], Items(rest));
    case Elem(tag, attrs, kids, rest) =>
      ItemsWritten(kids);
      ElementWritten(tag, attrs, kids);
      WrittenAppend(ElementItems(tag, attrs, Items(kids)), Items(rest));
  }

  lemma ElementWritten(tag: string, attrs: seq<Attr>, kids: Forest)
    requires Written(Items(kids)) == Print(kids)
    ensures Written(ElementItems(tag, attrs, Items(kids))) == ElementText(tag, attrs, Print(kids))
  {
    OneWritten(Seen(Open(tag, attrs)));
    OneWritten(Seen(Close(tag)));
    WrittenAppend(Items(kids), [Seen(Close(tag))]);
    WrittenAppend([Seen(Open(tag, attrs))], if Lower(tag) in VOID then [] else Items(kids) + [Seen(Close(tag))]);
  }

  /** Where a plan is rendered from. */
  ghost function Top(env: Env): Context {
    Context(env, HtmlSpace, "", None)
  }

  /** The rendered text is that of what the plan shows, and there is none exactly when the plan shows nothing at all. */
  lemma RenderingShows(lib: Library, root: Node, env: Env)
    ensures Rendering(lib, root, env).None? <==> forall items :: !Shows(lib, root, Top(env), items)
    ensures forall items :: Shows(lib, root, Top(env), items) ==> Rendering(lib, root, env) == Some(Written(items))
  {
    var f := Expand(lib, root, Top(env));
    if f.Some? {
      ShowsIff(lib, root, Top(env), Items(f.value));
      ItemsWritten(f.value);
    }
    forall items | Shows(lib, root, Top(env), items)
      ensures Rendering(lib, root, env) == Some(Written(items))
    {
      ShowsIff(lib, root, Top(env), items);
    }
  }

  function Marks(tokens: seq<Token>): seq<Shown> {
    seq(|tokens|, i requires 0 <= i < |tokens| => Seen(tokens[i]))
  }

  lemma MarksAppend(a: seq<Token>, b: seq<Token>)
    ensures Marks(a + b) == Marks(a) + Marks(b)
  {
  }

  lemma {:induction false} CharsMarks(t: string)
    ensures Marks(Chars(t)) == Letters(t)
  {
    if t != "" {
      CharsMarks(t[1..]);
      MarksAppend([Char(t[0])], Chars(t[1..]));
      assert Letters(t) == [Seen(Char(t[0]))] + Letters(t[1..]);
    }
  }

  lemma {:induction false} TreeMarks(f: Forest, allowed: string -> bool)
    requires Built(f, allowed)
    ensures Marks(TreeTokens(f)) == Items(f)
    decreases f
  {
    if f.End? {
      assert Marks([]) == [];
    } else {
      TreeMarks(f.rest, allowed);
      if f.Elem? { TreeMarks(f.kids, allowed); }
      HeadMarks(f);
      MarksAppend(HeadTokens(f), TreeTokens(f.rest));
      assert TreeTokens(f) == HeadTokens(f) + TreeTokens(f.rest);
    }
  }

  function HeadTokens(f: Forest): seq<Token>
    requires !f.End? && !f.Raw?
  {
    match f
    case Text(t, _) => Chars(t)
    case Separator(_) => [Comment]
    case Elem(tag, attrs, kids, _) => ElementTokens(tag, attrs, TreeTokens(kids))
  }

  lemma HeadMarks(f: Forest)
    requires !f.End? && !f.Raw? && (f.Elem? ==> Marks(TreeTokens(f.kids)) == Items(f.kids))
    ensures Marks(HeadTokens(f)) == HeadItems(f)
  {
    match f
    case Text(t, _) => CharsMarks(t);
    case Separator(_) => assert Marks([Comment]) == [Seen(Comment)];
    case Elem(tag, attrs, kids, _) => ElementMarks(tag, attrs, TreeTokens(kids));
  }

  lemma ElementMarks(tag: string, attrs: seq<Attr>, content: seq<Token>)
    ensures Marks(ElementTokens(tag, attrs, content)) == ElementItems(tag, attrs, Marks(content))
  {
    MarksAppend(content, [Close(tag)]);
    MarksAppend([Open(tag, attrs)], content + [Close(tag)]);
    assert Marks([Open(tag, attrs)]) == [Seen(Open(tag, attrs))] && Marks([Close(tag)]) == [Seen(Close(tag))];
  }

  /** Read back, the rendered text of a plan without raw markup is exactly what the plan shows. */
  lemma RenderingReadsAsShown(lib: Library, root: Node, env: Env, allowed: string -> bool) returns (tokens: seq<Token>)
    requires NamesOk(lib) && Plain(root, allowed) && allowed("tbody") && (forall tag :: allowed(tag) ==> ValidTag(tag))
    requires Rendering(lib, root, env).Some?
    ensures Tokenize(Rendering(lib, root, env).value) == Some(tokens) && Shows(lib, root, Top(env), Marks(tokens))
  {
    var f := Expand(lib, root, Top(env)).value;
    tokens := TreeTokens(f);
    RenderingReadsBack(lib, root, env, allowed);
    ExpandBuilt(lib, root, Top(env), allowed);
    TreeMarks(f, allowed);
    ShowsIff(lib, root, Top(env), Items(f));
  }
}
