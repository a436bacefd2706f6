/** Server rendering of a plan: what a plan expands to, and that its printed form holds nothing else. Evaluation of
    expressions, number formatting, style text and URL checks are parameters; everything holds whatever they answer. */
module Renderer {
  import opened Wrappers
  import opened Markup

  datatype Value =
    | Null | Bool(b: bool) | Number(n: real) | Str(s: string) | Safe(html: string)
    | List(items: seq<Value>) | Record(fields: map<string, Value>) | Opaque(id: nat)

  datatype Expr = Literal(value: Value) | Computed(id: nat)

  datatype Namespace = Inherit | HtmlSpace | SvgSpace
  datatype Mode = StringMode | BooleanMode | UrlMode | StyleMode
  datatype Attribute = Attribute(name: string, value: Expr, mode: Mode)

  datatype Node =
    | Element(tag: string, ns: Namespace, attributes: seq<Attribute>, children: seq<Node>)
    | TextNode(value: Expr)
    | Fragment(children: seq<Node>)
    | Conditional(test: Expr, consequent: Node, alternate: Option<Node>)
    | Each(items: Expr, item: string, index: string, when: Option<Expr>, key: Expr, body: Node)
    | ClientOnly(fallback: Option<Node>)
    | RawHtml(value: Expr)

  datatype Env = Env(props: Value, locals: map<string, Value>)

  datatype Context = Context(env: Env, ns: Namespace, parent: string, selection: Option<set<string>>)

  /** `None` is an error. */
  datatype Library = Library(
    eval: (Expr, Env) -> Option<Value>, format: real -> string, urlOk: string -> bool, style: Value -> Option<string>,
    svgNames: map<string, string>)

  // ---- Values ----

  predicate Truthy(v: Value) {
    match v
    case Null => false
    case Bool(b) => b
    case Number(n) => n != 0.0
    case Str(s) => s != ""
    case _ => true
  }

  function ScalarString(lib: Library, v: Value): Option<string> {
    match v
    case Null => Some("")
    case Bool(b) => Some(if b then "true" else "false")
    case Number(n) => Some(lib.format(n))
    case Str(s) => Some(s)
    case Safe(h) => Some(h)
    case _ => None
  }

  function RenderText(lib: Library, v: Value): Option<string> {
    if v.Null? || v.Bool? then Some("") else ScalarString(lib, v)
  }

  // ---- Attributes ----

  datatype EvalAttr = EvalAttr(name: string, mode: Mode, value: Value)

  const BOOLEAN: set<string> :=
    {"allowfullscreen", "async", "autofocus", "autoplay", "checked", "controls", "default", "defer", "disabled",
     "formnovalidate", "hidden", "inert", "ismap", "itemscope", "loop", "multiple", "muted", "nomodule", "novalidate",
     "open", "playsinline", "readonly", "required", "reversed", "scoped", "seamless", "selected"}
  const ENUMERATED: set<string> := {"contenteditable", "draggable", "spellcheck"}
  const OVERLOADED: set<string> := {"capture", "download"}

  function ReactName(name: string): string {
    if name == "className" then "class"
    else if name == "htmlFor" then "for"
    else if name == "httpEquiv" then "http-equiv"
    else if name == "acceptCharset" then "accept-charset"
    else if name == "charSet" then "charset"
    else if name == "crossOrigin" then "crossorigin"
    else name
  }

  predicate Portable(name: string) {
    !("on" <= Lower(name)) && Lower(name) != "dangerouslysetinnerhtml" && name != "key" && name != "ref"
  }

  function EvalAttrs(lib: Library, attrs: seq<Attribute>, env: Env): Option<seq<EvalAttr>> {
    if attrs == [] then Some([])
    else
      var name := ReactName(attrs[0].name);
      if !Portable(name) then None
      else
        match (lib.eval(attrs[0].value, env), EvalAttrs(lib, attrs[1..], env))
        case (Some(v), Some(rest)) =>
          Some([EvalAttr(name, if Lower(name) in BOOLEAN then BooleanMode else attrs[0].mode, v)] + rest)
        case _ => None
  }

  datatype Serialized = Failed | Omitted | Included(attr: Attr)

  function SerialName(lib: Library, name: string, ns: Namespace): string {
    if ns.SvgSpace? && name in lib.svgNames then lib.svgNames[name] else name
  }

  function Serialize(lib: Library, a: EvalAttr, ns: Namespace): Serialized {
    var name := SerialName(lib, a.name, ns);
    var lower := Lower(name);
    if a.value.Null? then Omitted
    else if lower in ENUMERATED && a.value.Bool? then Included(Attr(name, if a.value.b then "true" else "false"))
    else if lower in OVERLOADED && a.value.Bool? then if a.value.b then Included(Attr(name, "")) else Omitted
    else
      match a.mode
      case BooleanMode => if Truthy(a.value) then Included(Attr(name, "")) else Omitted
      case UrlMode =>
        (match ScalarString(lib, a.value)
         case None => Failed
         case Some(url) => if lib.urlOk(url) then Included(Attr(name, url)) else Failed)
      case StyleMode =>
        (match lib.style(a.value)
         case None => Failed
         case Some(text) => if text == "" then Omitted else Included(Attr(name, text)))
      case StringMode =>
        if a.value.Bool? && !("data-" <= lower) && !("aria-" <= lower) then Omitted
        else
          match ScalarString(lib, a.value)
          case None => Failed
          case Some(text) => Included(Attr(name, text))
  }

  function SerializeAll(lib: Library, attrs: seq<EvalAttr>, ns: Namespace): Option<seq<Attr>> {
    if attrs == [] then Some([])
    else
      var rest := SerializeAll(lib, attrs[1..], ns);
      match Serialize(lib, attrs[0], ns)
      case Failed => None
      case Omitted => rest
      case Included(a) => if rest.None? then None else Some([a] + rest.value)
  }

  function Find(attrs: seq<EvalAttr>, name: string): Option<Value> {
    if attrs == [] then None
    else if Lower(attrs[0].name) == name then Some(attrs[0].value)
    else Find(attrs[1..], name)
  }

  function Without(attrs: seq<EvalAttr>, name: string): seq<EvalAttr> {
    if attrs == [] then []
    else if Lower(attrs[0].name) == name then Without(attrs[1..], name)
    else [attrs[0]] + Without(attrs[1..], name)
  }

  function Upsert(attrs: seq<EvalAttr>, name: string): seq<EvalAttr> {
    if attrs == [] then [EvalAttr(name, BooleanMode, Bool(true))]
    else if Lower(attrs[0].name) == name then [attrs[0].(mode := BooleanMode, value := Bool(true))] + attrs[1..]
    else [attrs[0]] + Upsert(attrs[1..], name)
  }

  function Selected(lib: Library, attrs: seq<EvalAttr>): Option<set<string>> {
    match Find(attrs, "value")
    case None => None
    case Some(v) =>
      if v.List? then
        Some(set i | 0 <= i < |v.items| && ScalarString(lib, v.items[i]).Some? :: ScalarString(lib, v.items[i]).value)
      else if ScalarString(lib, v).Some? then Some({ScalarString(lib, v).value})
      else Some({})
  }

  // ---- Elements ----

  function Kids(n: Node): (kids: seq<Node>)
    ensures forall i :: 0 <= i < |kids| ==> kids[i] < n
  {
    if n.Element? || n.Fragment? then n.children else []
  }

  /** The text children taken together; those that fail to evaluate are skipped. */
  function PlainText(lib: Library, kids: seq<Node>, env: Env): string {
    if kids == [] then ""
    else
      var v := if kids[0].TextNode? then lib.eval(kids[0].value, env) else None;
      var text := if v.None? then None else RenderText(lib, v.value);
      (if text.None? then "" else text.value) + PlainText(lib, kids[1..], env)
  }

  predicate StartsWithNewline(lib: Library, kids: seq<Node>, env: Env) {
    && kids != [] && kids[0].TextNode?
    && var v := lib.eval(kids[0].value, env);
       v.Some? && RenderText(lib, v.value).Some? && "\n" <= RenderText(lib, v.value).value
  }

  /** An element after its own attributes are settled: `area` is the content of a textarea that has a value. */
  datatype View = View(attrs: seq<EvalAttr>, ns: Namespace, area: Option<string>, inner: Context)

  function ViewOf(lib: Library, n: Node, ctx: Context): Option<View>
    requires n.Element?
  {
    var lower := Lower(n.tag);
    var ns := if lower == "svg" then SvgSpace else if n.ns.Inherit? then ctx.ns else n.ns;
    match EvalAttrs(lib, n.attributes, ctx.env)
    case None => None
    case Some(evaluated) =>
      var selection := if lower == "select" then Selected(lib, evaluated) else ctx.selection;
      var attrs := Settle(lib, n, ctx.env, selection, evaluated);
      var area := if lower == "textarea" then Find(evaluated, "value") else None;
      var within := if lower == "foreignobject" then HtmlSpace else ns;
      var inner := ctx.(ns := within, parent := lower, selection := selection);
      if area.Some? && ScalarString(lib, area.value).None? then None
      else Some(View(attrs, ns, if area.None? then None else ScalarString(lib, area.value), inner))
  }

  /** `value` moves from a select to its options, and from a textarea to its content. */
  function Settle(lib: Library, n: Node, env: Env, selection: Option<set<string>>, attrs: seq<EvalAttr>): seq<EvalAttr>
    requires n.Element?
  {
    var lower := Lower(n.tag);
    if lower == "select" || lower == "textarea" then Without(attrs, "value")
    else if lower == "option" && selection.Some? then
      var v := Find(attrs, "value");
      var text := if v.None? then None else ScalarString(lib, v.value);
      var chosen := if text.None? || text.value == "" then PlainText(lib, n.children, env) else text.value;
      if chosen in selection.value then Upsert(attrs, "selected") else attrs
    else attrs
  }

  // ---- Expansion ----

  function Concat(f: Option<Forest>, g: Option<Forest>): Option<Forest> {
    if f.None? || g.None? then None else Some(Append(f.value, g.value))
  }

  function Wrap(tag: string, attrs: seq<Attr>, kids: Option<Forest>): Option<Forest> {
    if kids.None? then None else Some(Elem(tag, attrs, kids.value, End))
  }

  predicate IsTag(n: Node, tag: string) {
    n.Element? && Lower(n.tag) == tag
  }

  /** A newline the parser would strip is doubled. */
  function Doubled(strip: bool): Option<Forest> {
    Some(if strip then Text("\n", End) else End)
  }

  function Expand(lib: Library, n: Node, ctx: Context): Option<Forest>
    decreases n, 3, 0
  {
    match n
    case Element(_, _, _, _) => ExpandElement(lib, n, ctx)
    case TextNode(value) =>
      (match lib.eval(value, ctx.env)
       case None => None
       case Some(v) => if RenderText(lib, v).None? then None else Some(Text(RenderText(lib, v).value, End)))
    case Fragment(_) => ExpandKids(lib, n, 0, ctx)
    case Conditional(test, consequent, alternate) =>
      (match lib.eval(test, ctx.env)
       case None => None
       case Some(v) =>
         if Truthy(v) then Expand(lib, consequent, ctx)
         else if alternate.Some? then Expand(lib, alternate.value, ctx)
         else Some(End))
    case Each(items, _, _, _, _, _) =>
      (match lib.eval(items, ctx.env)
       case None => None
       case Some(v) => if v.List? then ExpandItems(lib, n, v.items, 0, {}, ctx) else None)
    case ClientOnly(fallback) => if fallback.None? then Some(End) else Expand(lib, fallback.value, ctx)
    case RawHtml(value) =>
      (match lib.eval(value, ctx.env)
       case Some(Safe(h)) => Some(Raw(h, End))
       case Some(Str(s)) => if value.Literal? then Some(Raw(s, End)) else None
       case _ => None)
  }

  function ExpandElement(lib: Library, n: Node, ctx: Context): Option<Forest>
    requires n.Element?
    decreases n, 2, 0
  {
    if IsVoid(n.tag) && n.children != [] then None
    else
      match ViewOf(lib, n, ctx)
      case None => None
      case Some(view) =>
        match SerializeAll(lib, view.attrs, view.ns)
        case None => None
        case Some(attrs) =>
          if IsVoid(n.tag) then Some(Elem(n.tag, attrs, End, End))
          else Wrap(n.tag, attrs, Content(lib, n, ctx, view))
  }

  function Content(lib: Library, n: Node, ctx: Context, view: View): Option<Forest>
    requires n.Element?
    decreases n, 1, |Kids(n)| + 1
  {
    if view.area.Some? then Concat(Doubled("\n" <= view.area.value), Some(Text(view.area.value, End)))
    else Concat(Doubled(Lower(n.tag) in {"pre", "listing"} && StartsWithNewline(lib, n.children, ctx.env)),
                ExpandKids(lib, n, 0, view.inner))
  }

  function RowsEnd(kids: seq<Node>, i: nat): (j: nat)
    requires i <= |kids|
    ensures i <= j <= |kids|
    ensures i < |kids| && IsTag(kids[i], "tr") ==> i < j
    decreases |kids| - i
  {
    if i < |kids| && IsTag(kids[i], "tr") then RowsEnd(kids, i + 1) else i
  }

  predicate Rows(n: Node, i: nat, ctx: Context)
    requires i < |Kids(n)|
  {
    Lower(ctx.parent) == "table" && IsTag(Kids(n)[i], "tr")
  }

  /** Adjacent texts are kept apart by a comment. */
  function Apart(n: Node, i: nat): Option<Forest>
    requires i < |Kids(n)|
  {
    Some(if i > 0 && Kids(n)[i - 1].TextNode? && Kids(n)[i].TextNode? then Separator(End) else End)
  }

  /** The children from `i`; direct rows of a table get a body around them. */
  function ExpandKids(lib: Library, n: Node, i: nat, ctx: Context): Option<Forest>
    requires i <= |Kids(n)|
    decreases n, 1, |Kids(n)| - i
  {
    if i == |Kids(n)| then Some(End)
    else if Rows(n, i, ctx) then
      var j := RowsEnd(Kids(n), i);
      Concat(Wrap("tbody", [], ExpandRows(lib, n, i, j, ctx.(parent := "tbody"))), ExpandKids(lib, n, j, ctx))
    else Concat(Concat(Apart(n, i), Expand(lib, Kids(n)[i], ctx)), ExpandKids(lib, n, i + 1, ctx))
  }

  function ExpandRows(lib: Library, n: Node, i: nat, j: nat, ctx: Context): Option<Forest>
    requires i <= j <= |Kids(n)|
    decreases n, 0, j - i
  {
    if i == j then Some(End) else Concat(Expand(lib, Kids(n)[i], ctx), ExpandRows(lib, n, i + 1, j, ctx))
  }

  /** The scope of one turn of a loop. */
  function Bind(n: Node, item: Value, i: nat, ctx: Context): Context
    requires n.Each?
  {
    var locals := ctx.env.locals[n.item := item];
    ctx.(env := ctx.env.(locals := if n.index == "" then locals else locals[n.index := Number(i as real)]))
  }

  /** The key of a turn: `None` in the result is an error, `Some(None)` a turn that is skipped. */
  function KeyOf(lib: Library, n: Node, loop: Context): Option<Option<string>>
    requires n.Each?
  {
    var included := if n.when.None? then Some(Bool(true)) else lib.eval(n.when.value, loop.env);
    if included.None? then None
    else if !Truthy(included.value) then Some(None)
    else
      match lib.eval(n.key, loop.env)
      case None => None
      case Some(key) =>
        if key.Null? || ScalarString(lib, key).None? then None else Some(Some(ScalarString(lib, key).value))
  }

  function ExpandItems(
    lib: Library, n: Node, items: seq<Value>, i: nat, keys: set<string>, ctx: Context): Option<Forest>
    requires n.Each? && i <= |items|
    decreases n, 0, |items| - i
  {
    if i == |items| then Some(End)
    else
      var loop := Bind(n, items[i], i, ctx);
      match KeyOf(lib, n, loop)
      case None => None
      case Some(None) => ExpandItems(lib, n, items, i + 1, keys, ctx)
      case Some(Some(key)) =>
        if key in keys then None
        else Concat(Expand(lib, n.body, loop), ExpandItems(lib, n, items, i + 1, keys + {key}, ctx))
  }

  // ---- What expansion can contain ----

  /** A validated plan without raw markup, whose elements have allowed tags. */
  ghost predicate Plain(n: Node, allowed: string -> bool) {
    match n
    case Element(tag, _, attributes, children) =>
      && allowed(tag) && (forall a :: a in attributes ==> ValidName(a.name))
      && forall i :: 0 <= i < |children| ==> Plain(children[i], allowed)
    case TextNode(_) => true
    case Fragment(children) => forall i :: 0 <= i < |children| ==> Plain(children[i], allowed)
    case Conditional(_, consequent, alternate) =>
      Plain(consequent, allowed) && (alternate.Some? ==> Plain(alternate.value, allowed))
    case Each(_, _, _, _, _, body) => Plain(body, allowed)
    case ClientOnly(fallback) => fallback.Some? ==> Plain(fallback.value, allowed)
    case RawHtml(_) => false
  }

  ghost predicate Built(f: Forest, allowed: string -> bool) {
    match f
    case End => true
    case Text(_, rest) => Built(rest, allowed)
    case Separator(rest) => Built(rest, allowed)
    case Raw(_, _) => false
    case Elem(tag, attrs, kids, rest) =>
      allowed(tag) && ValidAttrs(attrs) && Built(kids, allowed) && Built(rest, allowed)
  }

  ghost predicate BuiltIf(f: Option<Forest>, allowed: string -> bool) {
    f.Some? ==> Built(f.value, allowed)
  }

  ghost predicate NamesOk(lib: Library) {
    forall name :: name in lib.svgNames ==> ValidName(lib.svgNames[name])
  }

  lemma {:induction false} BuiltAppend(f: Forest, g: Forest, allowed: string -> bool)
    requires Built(f, allowed) && Built(g, allowed)
    ensures Built(Append(f, g), allowed)
  {
    if !f.End? { BuiltAppend(f.rest, g, allowed); }
  }

  lemma BuiltConcat(f: Option<Forest>, g: Option<Forest>, allowed: string -> bool)
    requires BuiltIf(f, allowed) && BuiltIf(g, allowed)
    ensures BuiltIf(Concat(f, g), allowed)
  {
    if f.Some? && g.Some? { BuiltAppend(f.value, g.value, allowed); }
  }

  ghost predicate GoodNames(attrs: seq<EvalAttr>) {
    forall i :: 0 <= i < |attrs| ==> ValidName(attrs[i].name)
  }

  lemma ReactNameValid(name: string)
    requires ValidName(name)
    ensures ValidName(ReactName(name))
  {
  }

  lemma {:induction false} EvalAttrsGood(lib: Library, attrs: seq<Attribute>, env: Env)
    requires EvalAttrs(lib, attrs, env).Some? && forall a :: a in attrs ==> ValidName(a.name)
    ensures GoodNames(EvalAttrs(lib, attrs, env).value)
  {
    if attrs != [] {
      assert attrs[0] in attrs;
      ReactNameValid(attrs[0].name);
      EvalAttrsGood(lib, attrs[1..], env);
    }
  }

  lemma {:induction false} WithoutGood(attrs: seq<EvalAttr>, name: string)
    requires GoodNames(attrs)
    ensures GoodNames(Without(attrs, name))
  {
    if attrs != [] { WithoutGood(attrs[1..], name); }
  }

  lemma {:induction false} UpsertGood(attrs: seq<EvalAttr>, name: string)
    requires GoodNames(attrs) && ValidName(name)
    ensures GoodNames(Upsert(attrs, name))
  {
    if attrs != [] { UpsertGood(attrs[1..], name); }
  }

  lemma {:induction false} SerializeGood(lib: Library, attrs: seq<EvalAttr>, ns: Namespace)
    requires NamesOk(lib) && GoodNames(attrs) && SerializeAll(lib, attrs, ns).Some?
    ensures ValidAttrs(SerializeAll(lib, attrs, ns).value)
  {
    if attrs != [] { SerializeGood(lib, attrs[1..], ns); }
  }

  lemma SettleGood(lib: Library, n: Node, env: Env, selection: Option<set<string>>, attrs: seq<EvalAttr>)
    requires n.Element? && GoodNames(attrs)
    ensures GoodNames(Settle(lib, n, env, selection, attrs))
  {
    WithoutGood(attrs, "value");
    UpsertGood(attrs, "selected");
  }

  lemma ViewGood(lib: Library, n: Node, ctx: Context)
    requires NamesOk(lib) && n.Element? && (forall a :: a in n.attributes ==> ValidName(a.name))
    requires ViewOf(lib, n, ctx).Some?
    ensures GoodNames(ViewOf(lib, n, ctx).value.attrs)
  {
    EvalAttrsGood(lib, n.attributes, ctx.env);
    var evaluated := EvalAttrs(lib, n.attributes, ctx.env).value;
    var lower := Lower(n.tag);
    var selection := if lower == "select" then Selected(lib, evaluated) else ctx.selection;
    SettleGood(lib, n, ctx.env, selection, evaluated);
  }

  /** Whatever the evaluator answers, expansion builds only the elements of the plan, and table bodies. */
  lemma {:induction false} ExpandBuilt(lib: Library, n: Node, ctx: Context, allowed: string -> bool)
    requires NamesOk(lib) && Plain(n, allowed) && allowed("tbody")
    ensures BuiltIf(Expand(lib, n, ctx), allowed)
    decreases n, 3, 0
  {
    match n
    case Element(_, _, _, _) => ElementBuilt(lib, n, ctx, allowed);
    case TextNode(_) =>
    case Fragment(_) => KidsBuilt(lib, n, 0, ctx, allowed);
    case Conditional(_, consequent, alternate) =>
      ExpandBuilt(lib, consequent, ctx, allowed);
      if alternate.Some? { ExpandBuilt(lib, alternate.value, ctx, allowed); }
    case Each(items, _, _, _, _, _) =>
      var v := lib.eval(items, ctx.env);
      if v.Some? && v.value.List? { ItemsBuilt(lib, n, v.value.items, 0, {}, ctx, allowed); }
    case ClientOnly(fallback) => if fallback.Some? { ExpandBuilt(lib, fallback.value, ctx, allowed); }
  }

  lemma {:induction false} ElementBuilt(lib: Library, n: Node, ctx: Context, allowed: string -> bool)
    requires NamesOk(lib) && Plain(n, allowed) && allowed("tbody") && n.Element?
    ensures BuiltIf(ExpandElement(lib, n, ctx), allowed)
    decreases n, 2, 0
  {
    if ViewOf(lib, n, ctx).Some? {
      ViewGood(lib, n, ctx);
      var view := ViewOf(lib, n, ctx).value;
      if SerializeAll(lib, view.attrs, view.ns).Some? { SerializeGood(lib, view.attrs, view.ns); }
      ContentBuilt(lib, n, ctx, view, allowed);
    }
  }

  lemma {:induction false} ContentBuilt(lib: Library, n: Node, ctx: Context, view: View, allowed: string -> bool)
    requires NamesOk(lib) && Plain(n, allowed) && allowed("tbody") && n.Element?
    ensures BuiltIf(Content(lib, n, ctx, view), allowed)
    decreases n, 1, |Kids(n)| + 1
  {
    var strip := Lower(n.tag) in {"pre", "listing"} && StartsWithNewline(lib, n.children, ctx.env);
    if view.area.Some? {
      BuiltConcat(Doubled("\n" <= view.area.value), Some(Text(view.area.value, End)), allowed);
    } else {
      KidsBuilt(lib, n, 0, view.inner, allowed);
      BuiltConcat(Doubled(strip), ExpandKids(lib, n, 0, view.inner), allowed);
    }
  }

  lemma {:induction false} KidsBuilt(lib: Library, n: Node, i: nat, ctx: Context, allowed: string -> bool)
    requires NamesOk(lib) && Plain(n, allowed) && allowed("tbody") && i <= |Kids(n)|
    ensures BuiltIf(ExpandKids(lib, n, i, ctx), allowed)
    decreases n, 1, |Kids(n)| - i
  {
    if i < |Kids(n)| {
      if Rows(n, i, ctx) {
        var j := RowsEnd(Kids(n), i);
        var rows := ExpandRows(lib, n, i, j, ctx.(parent := "tbody"));
        RowsBuilt(lib, n, i, j, ctx.(parent := "tbody"), allowed);
        KidsBuilt(lib, n, j, ctx, allowed);
        BuiltConcat(Wrap("tbody", [], rows), ExpandKids(lib, n, j, ctx), allowed);
      } else {
        ExpandBuilt(lib, Kids(n)[i], ctx, allowed);
        KidsBuilt(lib, n, i + 1, ctx, allowed);
        BuiltConcat(Apart(n, i), Expand(lib, Kids(n)[i], ctx), allowed);
        BuiltConcat(Concat(Apart(n, i), Expand(lib, Kids(n)[i], ctx)), ExpandKids(lib, n, i + 1, ctx), allowed);
      }
    }
  }

  lemma {:induction false} RowsBuilt(lib: Library, n: Node, i: nat, j: nat, ctx: Context, allowed: string -> bool)
    requires NamesOk(lib) && Plain(n, allowed) && allowed("tbody") && i <= j <= |Kids(n)|
    ensures BuiltIf(ExpandRows(lib, n, i, j, ctx), allowed)
    decreases n, 0, j - i
  {
    if i < j {
      ExpandBuilt(lib, Kids(n)[i], ctx, allowed);
      RowsBuilt(lib, n, i + 1, j, ctx, allowed);
      BuiltConcat(Expand(lib, Kids(n)[i], ctx), ExpandRows(lib, n, i + 1, j, ctx), allowed);
    }
  }

  lemma {:induction false} ItemsBuilt(
      lib: Library, n: Node, items: seq<Value>, i: nat, keys: set<string>, ctx: Context, allowed: string -> bool)
    requires NamesOk(lib) && Plain(n, allowed) && allowed("tbody") && n.Each? && i <= |items|
    ensures BuiltIf(ExpandItems(lib, n, items, i, keys, ctx), allowed)
    decreases n, 0, |items| - i
  {
    if i < |items| {
      var loop := Bind(n, items[i], i, ctx);
      match KeyOf(lib, n, loop)
      case None =>
      case Some(None) => ItemsBuilt(lib, n, items, i + 1, keys, ctx, allowed);
      case Some(Some(key)) =>
        ExpandBuilt(lib, n.body, loop, allowed);
        ItemsBuilt(lib, n, items, i + 1, keys + {key}, ctx, allowed);
        BuiltConcat(Expand(lib, n.body, loop), ExpandItems(lib, n, items, i + 1, keys + {key}, ctx), allowed);
    }
  }

  lemma {:induction false} BuiltIsClean(f: Forest, allowed: string -> bool)
    requires Built(f, allowed) && forall tag :: allowed(tag) ==> ValidTag(tag)
    ensures Clean(f)
  {
    if f.Elem? { BuiltIsClean(f.kids, allowed); }
    if !f.End? { BuiltIsClean(f.rest, allowed); }
  }

  ghost predicate TagAllowed(token: Token, allowed: string -> bool) {
    (token.Open? || token.Close?) ==> allowed(token.tag)
  }

  lemma {:induction false} BuiltTags(f: Forest, allowed: string -> bool)
    requires Built(f, allowed)
    ensures forall token :: token in TreeTokens(f) ==> TagAllowed(token, allowed)
  {
    if f.Elem? { BuiltTags(f.kids, allowed); }
    if !f.End? { BuiltTags(f.rest, allowed); }
  }

  // ---- Rendering ----

  function Printed(f: Option<Forest>): Option<string> {
    if f.None? then None else Some(Print(f.value))
  }

  /** The whole text of a plan, if nothing fails, however long. */
  function Rendering(lib: Library, root: Node, env: Env): Option<string> {
    Printed(Expand(lib, root, Context(env, HtmlSpace, "", None)))
  }

  /** The rendered text reads back as exactly the tags, attributes and text of the expanded plan; tags are the plan's
      own and every non-void element is closed in order. `allowed` may be as narrow as the tags of the plan: no
      evaluated value opens or closes a tag. */
  lemma RenderingReadsBack(lib: Library, root: Node, env: Env, allowed: string -> bool)
    requires NamesOk(lib) && Plain(root, allowed) && allowed("tbody") && (forall tag :: allowed(tag) ==> ValidTag(tag))
    requires Rendering(lib, root, env).Some?
    ensures
      var tokens := TreeTokens(Expand(lib, root, Context(env, HtmlSpace, "", None)).value);
      && Tokenize(Rendering(lib, root, env).value) == Some(tokens)
      && OpenAfter(tokens, []) == Some([])
      && forall token :: token in tokens ==> TagAllowed(token, allowed)
  {
    var ctx := Context(env, HtmlSpace, "", None);
    var f := Expand(lib, root, ctx).value;
    ExpandBuilt(lib, root, ctx, allowed);
    BuiltIsClean(f, allowed);
    TokenizePrint(f);
    WellNested(f);
    BuiltTags(f, allowed);
  }

  /** The same as an HTML tokenizer reads it, for plans without elements whose content is raw text: names are folded and
      of repeated attributes, such as `class` beside `className`, the first counts. */
  lemma RenderingReadsAsHtml(lib: Library, root: Node, env: Env, allowed: string -> bool)
    requires NamesOk(lib) && Plain(root, allowed) && allowed("tbody")
    requires forall tag :: allowed(tag) ==> ValidTag(tag) && !IsRawText(tag)
    requires Rendering(lib, root, env).Some?
    ensures
      var tokens := TreeTokens(Expand(lib, root, Context(env, HtmlSpace, "", None)).value);
      HtmlTokenize(Rendering(lib, root, env).value) == Some(HtmlTokens(tokens))
  {
    RenderingReadsBack(lib, root, env, allowed);
    var tokens := TreeTokens(Expand(lib, root, Context(env, HtmlSpace, "", None)).value);
    forall token | token in tokens && token.Open? ensures !IsRawText(token.tag) {
      assert TagAllowed(token, allowed);
    }
    HtmlAgrees(Rendering(lib, root, env).value);
  }
}
