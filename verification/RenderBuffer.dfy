/** The renderer as it runs: it writes piece by piece into a buffer that refuses to grow past its budget. The whole
    run is shown to return the unbounded rendering exactly when that fits. */
module RenderBuffer {
  import opened Wrappers
  import opened Markup
  import opened Renderer
  import Showing

  const MAX_RENDERED: nat := 0x80_0000

  datatype Buf = Buf(text: string, exceeded: bool)

  /** One text after another, if neither fails. */
  function Both(a: Option<string>, b: Option<string>): Option<string> {
    if a.None? || b.None? then None else Some(a.value + b.value)
  }

  /** What writing `want` may do to a buffer: all of it arrives if there is room, and otherwise the run is marked or
      failed. */
  ghost predicate Wrote(want: Option<string>, before: Buf, after: Buf, failed: bool) {
    && (before.exceeded ==> after.exceeded)
    && (|before.text| <= MAX_RENDERED ==> |after.text| <= MAX_RENDERED)
    && (!failed && !after.exceeded ==> want.Some? && after.text == before.text + want.value)
    && (want.Some? && !before.exceeded && |before.text| + |want.value| <= MAX_RENDERED ==> !failed && !after.exceeded)
  }

  lemma WroteBoth(a: Option<string>, b: Option<string>, s0: Buf, s1: Buf, s2: Buf, failed: bool)
    requires Wrote(a, s0, s1, false) && Wrote(b, s1, s2, failed)
    ensures Wrote(Both(a, b), s0, s2, failed)
  {
    if a.Some? && b.Some? { assert s0.text + (a.value + b.value) == s0.text + a.value + b.value; }
  }

  /** A run may stop as soon as it failed or overflowed, whatever it still had to write. */
  lemma WroteStop(a: Option<string>, b: Option<string>, s0: Buf, s1: Buf, failed: bool)
    requires Wrote(a, s0, s1, failed) && (failed || s1.exceeded)
    ensures Wrote(Both(a, b), s0, s1, true)
  {
  }

  lemma WroteNothing(s: Buf)
    ensures Wrote(Some(""), s, s, false)
  {
    assert s.text + "" == s.text;
  }

  lemma BothAssociates(a: Option<string>, b: Option<string>, c: Option<string>)
    ensures Both(Both(a, b), c) == Both(a, Both(b, c))
  {
    if a.Some? && b.Some? && c.Some? { Reassociate(a.value, b.value, c.value); }
  }

  lemma BothNothing(a: Option<string>)
    ensures Both(Some(""), a) == a && Both(a, Some("")) == a
  {
    if a.Some? { assert "" + a.value == a.value && a.value + "" == a.value; }
  }

  lemma PrintedConcat(f: Option<Forest>, g: Option<Forest>)
    ensures Printed(Concat(f, g)) == Both(Printed(f), Printed(g))
  {
    if f.Some? && g.Some? { PrintAppend(f.value, g.value); }
  }

  class Buffer {
    var text: string
    var exceeded: bool

    constructor ()
      ensures View() == Buf("", false)
    {
      text, exceeded := "", false;
    }

    function View(): Buf
      reads this
    {
      Buf(text, exceeded)
    }

    method WriteString(s: string)
      modifies this
      ensures Wrote(Some(s), old(View()), View(), false)
      ensures exceeded <==> old(exceeded) || |old(text)| + |s| > MAX_RENDERED
      ensures exceeded ==> text == old(text)
    {
      if exceeded || |text| + |s| > MAX_RENDERED {
        exceeded := true;
        return;
      }
      text := text + s;
    }

    method AppendByte(c: char)
      modifies this
      ensures Wrote(Some([c]), old(View()), View(), false)
      ensures exceeded <==> old(exceeded) || |old(text)| + 1 > MAX_RENDERED
      ensures exceeded ==> text == old(text)
    {
      if exceeded || |text| + 1 > MAX_RENDERED {
        exceeded := true;
        return;
      }
      text := text + [c];
    }
  }

  // ---- Elements ----

  /** The attributes of an open tag, one by one; the first that cannot be serialized stops the run. */
  function PrintedAttrs(lib: Library, attrs: seq<EvalAttr>, ns: Namespace): Option<string> {
    match SerializeAll(lib, attrs, ns)
    case None => None
    case Some(printed) => Some(PrintAttrs(printed))
  }

  method WriteAttrs(lib: Library, out: Buffer, attrs: seq<EvalAttr>, ns: Namespace) returns (failed: bool)
    modifies out
    ensures Wrote(PrintedAttrs(lib, attrs, ns), old(out.View()), out.View(), failed)
    decreases |attrs|
  {
    ghost var done := Some("");
    assert attrs[0..] == attrs;
    WroteNothing(out.View());
    BothNothing(PrintedAttrs(lib, attrs, ns));
    for i := 0 to |attrs|
      invariant Wrote(done, old(out.View()), out.View(), false)
      invariant Both(done, PrintedAttrs(lib, attrs[i..], ns)) == PrintedAttrs(lib, attrs, ns)
    {
      ghost var s := out.View();
      ghost var rest := PrintedAttrs(lib, attrs[i + 1..], ns);
      assert attrs[i..][1..] == attrs[i + 1..];
      var serialized := Serialize(lib, attrs[i], ns);
      match serialized {
        case Failed =>
          assert PrintedAttrs(lib, attrs[i..], ns).None?;
          return true;
        case Omitted =>
        case Included(a) =>
          out.AppendByte(' ');
          ghost var s1 := out.View();
          out.WriteString(PrintAttr(a));
          AttrPieces(a, rest);
          WroteBoth(Some(" "), Some(PrintAttr(a)), s, s1, out.View(), false);
          WroteBoth(done, Some(" " + PrintAttr(a)), old(out.View()), s, out.View(), false);
          BothAssociates(done, Some(" " + PrintAttr(a)), rest);
          done := Both(done, Some(" " + PrintAttr(a)));
      }
    }
    BothNothing(done);
    return false;
  }

  lemma AttrPieces(a: Attr, rest: Option<string>)
    ensures Both(Some(" "), Some(PrintAttr(a))) == Some(" " + PrintAttr(a))
    ensures Both(Some(" " + PrintAttr(a)), rest) == if rest.None? then None else Some(" " + (PrintAttr(a) + rest.value))
  {
    if rest.Some? { Reassociate(" ", PrintAttr(a), rest.value); }
  }

  /** An open tag in the pieces in which it is written. */
  function OpenText(lib: Library, tag: string, view: View): Option<string> {
    Both(Both(Both(Some("<"), Some(tag)), PrintedAttrs(lib, view.attrs, view.ns)), Some(">"))
  }

  lemma OpenPieces(lib: Library, tag: string, view: View)
    ensures
      var attrs := SerializeAll(lib, view.attrs, view.ns);
      OpenText(lib, tag, view) == if attrs.None? then None else Some(OpenTag(tag, attrs.value))
  {
    var attrs := SerializeAll(lib, view.attrs, view.ns);
    if attrs.Some? {
      var text := PrintAttrs(attrs.value);
      Reassociate("<" + tag, text, ">");
      Reassociate("<", tag, text + ">");
    }
  }

  lemma ClosePieces(tag: string)
    ensures Both(Both(Some("</"), Some(tag)), Some(">")) == Some(CloseTag(tag))
  {
    Reassociate("</", tag, ">");
  }

  lemma ElementPieces(lib: Library, n: Node, ctx: Context)
    requires n.Element? && ViewOf(lib, n, ctx).Some? && (IsVoid(n.tag) ==> n.children == [])
    ensures
      var view := ViewOf(lib, n, ctx).value;
      var open := OpenText(lib, n.tag, view);
      Printed(ExpandElement(lib, n, ctx)) ==
      if IsVoid(n.tag) then open else Both(Both(open, Printed(Content(lib, n, ctx, view))), Some(CloseTag(n.tag)))
  {
    var view := ViewOf(lib, n, ctx).value;
    OpenPieces(lib, n.tag, view);
    var attrs := SerializeAll(lib, view.attrs, view.ns);
    if attrs.Some? {
      var open := OpenTag(n.tag, attrs.value);
      if IsVoid(n.tag) {
        assert Print(Elem(n.tag, attrs.value, End, End)) == open + "" == open;
      } else if Content(lib, n, ctx, view).Some? {
        ElementPrinted(n.tag, attrs.value, Content(lib, n, ctx, view).value);
      }
    }
  }

  lemma ElementPrinted(tag: string, attrs: seq<Attr>, kids: Forest)
    requires !IsVoid(tag)
    ensures Print(Elem(tag, attrs, kids, End)) == OpenTag(tag, attrs) + Print(kids) + CloseTag(tag)
  {
    Reassociate(OpenTag(tag, attrs), Print(kids), CloseTag(tag));
    assert ElementText(tag, attrs, Print(kids)) + "" == ElementText(tag, attrs, Print(kids));
  }

  method WriteOpen(lib: Library, out: Buffer, tag: string, view: View) returns (failed: bool)
    modifies out
    ensures Wrote(OpenText(lib, tag, view), old(out.View()), out.View(), failed)
  {
    ghost var attrs := PrintedAttrs(lib, view.attrs, view.ns);
    ghost var s0 := out.View();
    out.AppendByte('<');
    ghost var s1 := out.View();
    out.WriteString(tag);
    ghost var s2 := out.View();
    WroteBoth(Some("<"), Some(tag), s0, s1, s2, false);
    failed := WriteAttrs(lib, out, view.attrs, view.ns);
    ghost var s3 := out.View();
    WroteBoth(Both(Some("<"), Some(tag)), attrs, s0, s2, s3, failed);
    if failed {
      WroteStop(Both(Both(Some("<"), Some(tag)), attrs), Some(">"), s0, s3, true);
      return;
    }
    out.AppendByte('>');
    WroteBoth(Both(Both(Some("<"), Some(tag)), attrs), Some(">"), s0, s3, out.View(), false);
  }

  method WriteClose(out: Buffer, tag: string)
    modifies out
    ensures Wrote(Some(CloseTag(tag)), old(out.View()), out.View(), false)
  {
    ghost var s0 := out.View();
    out.WriteString("</");
    ghost var s1 := out.View();
    out.WriteString(tag);
    ghost var s2 := out.View();
    WroteBoth(Some("</"), Some(tag), s0, s1, s2, false);
    out.AppendByte('>');
    WroteBoth(Both(Some("</"), Some(tag)), Some(">"), s0, s2, out.View(), false);
    ClosePieces(tag);
  }

  method RenderElement(lib: Library, out: Buffer, n: Node, ctx: Context) returns (failed: bool)
    requires n.Element?
    modifies out
    ensures Wrote(Printed(ExpandElement(lib, n, ctx)), old(out.View()), out.View(), failed)
    decreases n, 3
  {
    ghost var s0 := out.View();
    if IsVoid(n.tag) && |n.children| > 0 {
      return true;
    }
    var settled := ViewOf(lib, n, ctx);
    if settled.None? {
      return true;
    }
    var view := settled.value;
    ElementPieces(lib, n, ctx);
    ghost var open, content := OpenText(lib, n.tag, view), Printed(Content(lib, n, ctx, view));
    failed := WriteOpen(lib, out, n.tag, view);
    ghost var s1 := out.View();
    if failed || IsVoid(n.tag) {
      if failed {
        WroteStop(open, content, s0, s1, true);
        WroteStop(Both(open, content), Some(CloseTag(n.tag)), s0, s1, true);
      }
      return;
    }
    failed := RenderContent(lib, out, n, ctx, view);
    ghost var s2 := out.View();
    WroteBoth(open, content, s0, s1, s2, failed);
    if failed {
      WroteStop(Both(open, content), Some(CloseTag(n.tag)), s0, s2, true);
      return;
    }
    WriteClose(out, n.tag);
    WroteBoth(Both(open, content), Some(CloseTag(n.tag)), s0, s2, out.View(), false);
  }

  lemma DoubledPrinted(strip: bool)
    ensures Printed(Doubled(strip)) == Some(if strip then "\n" else "")
  {
    assert EscapeText("\n") == "\n" + EscapeText("") == "\n" by {
      assert "\n"[1..] == "";
    }
  }

  lemma TextPrinted(t: string)
    ensures Print(Text(t, End)) == EscapeText(t)
  {
  }

  method WriteDoubled(out: Buffer, strip: bool)
    modifies out
    ensures Wrote(Printed(Doubled(strip)), old(out.View()), out.View(), false)
  {
    DoubledPrinted(strip);
    if strip {
      out.AppendByte('\n');
    } else {
      WroteNothing(out.View());
    }
  }

  method RenderContent(lib: Library, out: Buffer, n: Node, ctx: Context, view: View) returns (failed: bool)
    requires n.Element?
    modifies out
    ensures Wrote(Printed(Content(lib, n, ctx, view)), old(out.View()), out.View(), failed)
    decreases n, 2
  {
    ghost var s0 := out.View();
    if view.area.Some? {
      var area := view.area.value;
      WriteDoubled(out, "\n" <= area);
      ghost var s1 := out.View();
      out.WriteString(EscapeText(area));
      failed := false;
      TextPrinted(area);
      PrintedConcat(Doubled("\n" <= area), Some(Text(area, End)));
      WroteBoth(Printed(Doubled("\n" <= area)), Some(EscapeText(area)), s0, s1, out.View(), false);
    } else {
      var strip := Lower(n.tag) in {"pre", "listing"} && StartsWithNewline(lib, n.children, ctx.env);
      WriteDoubled(out, strip);
      ghost var s1 := out.View();
      failed := RenderKids(lib, out, n, view.inner);
      PrintedConcat(Doubled(strip), ExpandKids(lib, n, 0, view.inner));
      WroteBoth(Printed(Doubled(strip)), Printed(ExpandKids(lib, n, 0, view.inner)), s0, s1, out.View(), failed);
    }
  }

  // ---- Children ----

  lemma EmptyPrinted()
    ensures Printed(Some(End)) == Some("")
  {
  }

  lemma TableBodyPrinted(rows: Option<Forest>)
    ensures Printed(Wrap("tbody", [], rows)) == Both(Both(Some("<tbody>"), Printed(rows)), Some("</tbody>"))
  {
    if rows.Some? {
      NotVoidBody();
      ElementPrinted("tbody", [], rows.value);
      assert OpenTag("tbody", []) == "<tbody>" && CloseTag("tbody") == "</tbody>";
    }
  }

  lemma NotVoidBody()
    ensures !IsVoid("tbody")
  {
    assert Lower("tbody") == "tbody";
    assert "tbody"[1] == 'b';
  }

  lemma ApartPrinted(n: Node, i: nat)
    requires i < |Kids(n)|
    ensures Printed(Apart(n, i)) ==
            Some(if i > 0 && Kids(n)[i - 1].TextNode? && Kids(n)[i].TextNode? then SEPARATOR else "")
  {
    assert SEPARATOR + "" == SEPARATOR;
  }

  method WriteRows(lib: Library, out: Buffer, n: Node, i: nat, inner: Context) returns (failed: bool, j: nat)
    requires i < |Kids(n)|
    modifies out
    ensures !failed ==> j == RowsEnd(Kids(n), i)
    ensures Wrote(Printed(ExpandRows(lib, n, i, RowsEnd(Kids(n), i), inner)), old(out.View()), out.View(), failed)
    decreases n, 0, 0
  {
    ghost var end := RowsEnd(Kids(n), i);
    ghost var rows := Printed(ExpandRows(lib, n, i, end, inner));
    ghost var s0 := out.View();
    ghost var done := Some("");
    WroteNothing(s0);
    BothNothing(rows);
    j := i;
    while j < |Kids(n)| && IsTag(Kids(n)[j], "tr")
      invariant i <= j <= end == RowsEnd(Kids(n), j)
      invariant Wrote(done, s0, out.View(), false)
      invariant Both(done, Printed(ExpandRows(lib, n, j, end, inner))) == rows
    {
      ghost var s := out.View();
      ghost var one, rest := Printed(Expand(lib, Kids(n)[j], inner)), Printed(ExpandRows(lib, n, j + 1, end, inner));
      PrintedConcat(Expand(lib, Kids(n)[j], inner), ExpandRows(lib, n, j + 1, end, inner));
      BothAssociates(done, one, rest);
      failed := RenderNode(lib, out, Kids(n)[j], inner);
      WroteBoth(done, one, s0, s, out.View(), failed);
      if failed {
        WroteStop(Both(done, one), rest, s0, out.View(), true);
        return;
      }
      done := Both(done, one);
      j := j + 1;
    }
    EmptyPrinted();
    BothNothing(done);
    failed := false;
  }

  /** The rows of a table from `i` on, with the body around them. */
  method RenderRows(lib: Library, out: Buffer, n: Node, i: nat, ctx: Context) returns (failed: bool, j: nat)
    requires i < |Kids(n)| && Rows(n, i, ctx)
    modifies out
    ensures !failed ==> j == RowsEnd(Kids(n), i)
    ensures Wrote(Printed(Wrap("tbody", [], ExpandRows(lib, n, i, RowsEnd(Kids(n), i), ctx.(parent := "tbody")))),
                  old(out.View()), out.View(), failed)
    decreases n, 0, 1
  {
    ghost var rows := ExpandRows(lib, n, i, RowsEnd(Kids(n), i), ctx.(parent := "tbody"));
    TableBodyPrinted(rows);
    ghost var s0 := out.View();
    out.WriteString("<tbody>");
    ghost var s1 := out.View();
    failed, j := WriteRows(lib, out, n, i, ctx.(parent := "tbody"));
    ghost var s2 := out.View();
    WroteBoth(Some("<tbody>"), Printed(rows), s0, s1, s2, failed);
    if failed {
      WroteStop(Both(Some("<tbody>"), Printed(rows)), Some("</tbody>"), s0, s2, true);
      return;
    }
    out.WriteString("</tbody>");
    WroteBoth(Both(Some("<tbody>"), Printed(rows)), Some("</tbody>"), s0, s2, out.View(), false);
  }

  method RenderKids(lib: Library, out: Buffer, n: Node, ctx: Context) returns (failed: bool)
    modifies out
    ensures Wrote(Printed(ExpandKids(lib, n, 0, ctx)), old(out.View()), out.View(), failed)
    decreases n, 1, 1
  {
    ghost var s0, all := out.View(), Printed(ExpandKids(lib, n, 0, ctx));
    ghost var done := Some("");
    WroteNothing(s0);
    BothNothing(all);
    var i := 0;
    while i < |Kids(n)|
      invariant 0 <= i <= |Kids(n)|
      invariant Wrote(done, s0, out.View(), false)
      invariant Both(done, Printed(ExpandKids(lib, n, i, ctx))) == all
    {
      ghost var s := out.View();
      if out.exceeded {
        WroteStop(done, Printed(ExpandKids(lib, n, i, ctx)), s0, s, false);
        return true;
      }
      ghost var piece := Piece(lib, n, i, ctx);
      ghost var next := After(n, i, ctx);
      ghost var rest := Printed(ExpandKids(lib, n, next, ctx));
      KidsPieces(lib, n, i, ctx);
      BothAssociates(done, piece, rest);
      failed, i := RenderTurn(lib, out, n, i, ctx);
      WroteBoth(done, piece, s0, s, out.View(), failed);
      if failed {
        WroteStop(Both(done, piece), rest, s0, out.View(), true);
        return;
      }
      done := Both(done, piece);
    }
    EmptyPrinted();
    BothNothing(done);
    failed := false;
  }

  method RenderTurn(lib: Library, out: Buffer, n: Node, i: nat, ctx: Context) returns (failed: bool, next: nat)
    requires i < |Kids(n)|
    modifies out
    ensures Wrote(Piece(lib, n, i, ctx), old(out.View()), out.View(), failed)
    ensures !failed ==> next == After(n, i, ctx)
    decreases n, 1, 0
  {
    if Rows(n, i, ctx) {
      failed, next := RenderRows(lib, out, n, i, ctx);
    } else {
      failed := RenderKid(lib, out, n, i, ctx);
      next := i + 1;
    }
  }

  /** What one turn of the loop writes, and where the next one starts. */
  ghost function Piece(lib: Library, n: Node, i: nat, ctx: Context): Option<string>
    requires i < |Kids(n)|
  {
    if Rows(n, i, ctx) then
      Printed(Wrap("tbody", [], ExpandRows(lib, n, i, RowsEnd(Kids(n), i), ctx.(parent := "tbody"))))
    else Both(Printed(Apart(n, i)), Printed(Expand(lib, Kids(n)[i], ctx)))
  }

  ghost function After(n: Node, i: nat, ctx: Context): (j: nat)
    requires i < |Kids(n)|
    ensures i < j <= |Kids(n)|
  {
    if Rows(n, i, ctx) then RowsEnd(Kids(n), i) else i + 1
  }

  lemma KidsPieces(lib: Library, n: Node, i: nat, ctx: Context)
    requires i < |Kids(n)|
    ensures Printed(ExpandKids(lib, n, i, ctx))
         == Both(Piece(lib, n, i, ctx), Printed(ExpandKids(lib, n, After(n, i, ctx), ctx)))
  {
    if Rows(n, i, ctx) {
      var j := RowsEnd(Kids(n), i);
      PrintedConcat(Wrap("tbody", [], ExpandRows(lib, n, i, j, ctx.(parent := "tbody"))), ExpandKids(lib, n, j, ctx));
    } else {
      PrintedConcat(Apart(n, i), Expand(lib, Kids(n)[i], ctx));
      PrintedConcat(Concat(Apart(n, i), Expand(lib, Kids(n)[i], ctx)), ExpandKids(lib, n, i + 1, ctx));
    }
  }

  method RenderKid(lib: Library, out: Buffer, n: Node, i: nat, ctx: Context) returns (failed: bool)
    requires i < |Kids(n)|
    modifies out
    ensures Wrote(Both(Printed(Apart(n, i)), Printed(Expand(lib, Kids(n)[i], ctx))),
                  old(out.View()), out.View(), failed)
    decreases n, 0
  {
    ghost var s0 := out.View();
    ApartPrinted(n, i);
    if i > 0 && Kids(n)[i - 1].TextNode? && Kids(n)[i].TextNode? {
      out.WriteString(SEPARATOR);
    } else {
      WroteNothing(s0);
    }
    ghost var s1 := out.View();
    failed := RenderNode(lib, out, Kids(n)[i], ctx);
    WroteBoth(Printed(Apart(n, i)), Printed(Expand(lib, Kids(n)[i], ctx)), s0, s1, out.View(), failed);
  }

  // ---- Loops ----

  method RenderItems(lib: Library, out: Buffer, n: Node, items: seq<Value>, ctx: Context) returns (failed: bool)
    requires n.Each?
    modifies out
    ensures Wrote(Printed(ExpandItems(lib, n, items, 0, {}, ctx)), old(out.View()), out.View(), failed)
    decreases n, 1
  {
    ghost var s0, all := out.View(), Printed(ExpandItems(lib, n, items, 0, {}, ctx));
    ghost var done := Some("");
    WroteNothing(s0);
    BothNothing(all);
    var keys := {};
    for i := 0 to |items|
      invariant Wrote(done, s0, out.View(), false)
      invariant Both(done, Printed(ExpandItems(lib, n, items, i, keys, ctx))) == all
    {
      ghost var s := out.View();
      if out.exceeded {
        WroteStop(done, Printed(ExpandItems(lib, n, items, i, keys, ctx)), s0, s, false);
        return true;
      }
      var loop := Bind(n, items[i], i, ctx);
      var key := KeyOf(lib, n, loop);
      if key.None? {
        return true;
      }
      if key.value.Some? {
        if key.value.value in keys {
          return true;
        }
        ghost var one := Expand(lib, n.body, loop);
        ghost var rest := ExpandItems(lib, n, items, i + 1, keys + {key.value.value}, ctx);
        PrintedConcat(one, rest);
        BothAssociates(done, Printed(one), Printed(rest));
        keys := keys + {key.value.value};
        failed := RenderNode(lib, out, n.body, loop);
        WroteBoth(done, Printed(one), s0, s, out.View(), failed);
        if failed {
          WroteStop(Both(done, Printed(one)), Printed(rest), s0, out.View(), true);
          return;
        }
        done := Both(done, Printed(one));
      }
    }
    EmptyPrinted();
    BothNothing(done);
    failed := false;
  }

  // ---- Nodes ----

  method RenderNode(lib: Library, out: Buffer, n: Node, ctx: Context) returns (failed: bool)
    modifies out
    ensures Wrote(Printed(Expand(lib, n, ctx)), old(out.View()), out.View(), failed)
    decreases n, 4
  {
    match n
    case Element(_, _, _, _) => failed := RenderElement(lib, out, n, ctx);
    case TextNode(value) => failed := WriteText(lib, out, n, ctx);
    case Fragment(_) => failed := RenderKids(lib, out, n, ctx);
    case Conditional(test, consequent, alternate) =>
      var v := lib.eval(test, ctx.env);
      if v.None? {
        return true;
      }
      if Truthy(v.value) {
        failed := RenderNode(lib, out, consequent, ctx);
      } else if alternate.Some? {
        failed := RenderNode(lib, out, alternate.value, ctx);
      } else {
        EmptyPrinted();
        WroteNothing(out.View());
        failed := false;
      }
    case Each(items, _, _, _, _, _) =>
      var v := lib.eval(items, ctx.env);
      if v.None? || !v.value.List? {
        return true;
      }
      failed := RenderItems(lib, out, n, v.value.items, ctx);
    case ClientOnly(fallback) =>
      if fallback.None? {
        EmptyPrinted();
        WroteNothing(out.View());
        return false;
      }
      failed := RenderNode(lib, out, fallback.value, ctx);
    case RawHtml(_) => failed := WriteRaw(lib, out, n, ctx);
  }

  method WriteText(lib: Library, out: Buffer, n: Node, ctx: Context) returns (failed: bool)
    requires n.TextNode?
    modifies out
    ensures Wrote(Printed(Expand(lib, n, ctx)), old(out.View()), out.View(), failed)
  {
    var v := lib.eval(n.value, ctx.env);
    if v.None? {
      return true;
    }
    var text := RenderText(lib, v.value);
    if text.None? {
      return true;
    }
    TextPrinted(text.value);
    out.WriteString(EscapeText(text.value));
    return false;
  }

  method WriteRaw(lib: Library, out: Buffer, n: Node, ctx: Context) returns (failed: bool)
    requires n.RawHtml?
    modifies out
    ensures Wrote(Printed(Expand(lib, n, ctx)), old(out.View()), out.View(), failed)
  {
    var v := lib.eval(n.value, ctx.env);
    if v.None? || !(v.value.Safe? || (v.value.Str? && n.value.Literal?)) {
      return true;
    }
    var html := if v.value.Safe? then v.value.html else v.value.s;
    assert Print(Raw(html, End)) == html + "" == html;
    out.WriteString(html);
    return false;
  }

  /** Rendering returns the whole text of what the plan shows, exactly when it shows something and that fits the budget:
      never part of it. */
  method RenderAt(lib: Library, root: Node, env: Env) returns (r: Option<string>)
    ensures
      var whole := Rendering(lib, root, env);
      r == if whole.Some? && |whole.value| <= MAX_RENDERED then whole else None
    ensures forall items :: Showing.Shows(lib, root, Showing.Top(env), items) ==>
              r == if |Showing.Written(items)| <= MAX_RENDERED then Some(Showing.Written(items)) else None
    ensures (forall items :: !Showing.Shows(lib, root, Showing.Top(env), items)) ==> r == None
  {
    Showing.RenderingShows(lib, root, env);
    var out := new Buffer();
    var failed := RenderNode(lib, out, root, Context(env, HtmlSpace, "", None));
    if failed || out.exceeded {
      return None;
    }
    r := Some(out.text);
    assert Rendering(lib, root, env).Some? ==> "" + Rendering(lib, root, env).value == Rendering(lib, root, env).value;
  }
}
