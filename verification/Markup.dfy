/** Rendered markup: expanded trees, how they print, and a tokenizer that reads them back. Strings are byte strings. */
module Markup {
  import opened Wrappers

  datatype Attr = Attr(name: string, value: string)

  /** A sequence of siblings, first to last. */
  datatype Forest =
    | End
    | Text(text: string, rest: Forest)
    | Separator(rest: Forest)
    | Raw(html: string, rest: Forest)
    | Elem(tag: string, attrs: seq<Attr>, kids: Forest, rest: Forest)

  function Append(f: Forest, g: Forest): Forest {
    match f
    case End => g
    case Text(t, rest) => Text(t, Append(rest, g))
    case Separator(rest) => Separator(Append(rest, g))
    case Raw(h, rest) => Raw(h, Append(rest, g))
    case Elem(tag, attrs, kids, rest) => Elem(tag, attrs, kids, Append(rest, g))
  }

  // ---- Names ----

  function LowerChar(c: char): char {
    if 'A' <= c <= 'Z' then c - 'A' + 'a' else c
  }

  function Lower(s: string): string {
    seq(|s|, i requires 0 <= i < |s| => LowerChar(s[i]))
  }

  const VOID: set<string> :=
    {"area", "base", "br", "col", "embed", "hr", "img", "input", "link", "meta", "param", "source", "track", "wbr"}

  predicate IsVoid(tag: string) {
    Lower(tag) in VOID
  }

  predicate Letter(c: char) {
    'a' <= c <= 'z' || 'A' <= c <= 'Z' || c as int >= 128
  }

  predicate NameChar(c: char) {
    Letter(c) || '0' <= c <= '9' || c == '-' || c == '_' || c == ':' || c == '.'
  }

  predicate ValidName(s: string) {
    s != "" && (Letter(s[0]) || s[0] == '_' || s[0] == ':') && forall i :: 0 <= i < |s| ==> NameChar(s[i])
  }

  predicate ValidTag(s: string) {
    ValidName(s) && Letter(s[0])
  }

  // ---- Printing ----

  function EscapeTextChar(c: char): (s: string)
    ensures s != ""
  {
    if c == '&' then "&amp;" else if c == '<' then "&lt;" else if c == '>' then "&gt;" else [c]
  }

  function EscapeAttrChar(c: char): (s: string)
    ensures s != ""
  {
    if c == '"' then "&#34;" else if c == '\'' then "&#39;" else EscapeTextChar(c)
  }

  function EscapeText(s: string): string {
    if s == "" then "" else EscapeTextChar(s[0]) + EscapeText(s[1..])
  }

  function EscapeAttr(s: string): string {
    if s == "" then "" else EscapeAttrChar(s[0]) + EscapeAttr(s[1..])
  }

  function PrintAttr(a: Attr): string {
    a.name + ("=\"" + (EscapeAttr(a.value) + "\""))
  }

  function PrintAttrs(attrs: seq<Attr>): string {
    if attrs == [] then "" else " " + (PrintAttr(attrs[0]) + PrintAttrs(attrs[1..]))
  }

  function OpenTag(tag: string, attrs: seq<Attr>): string {
    "<" + (tag + (PrintAttrs(attrs) + ">"))
  }

  function CloseTag(tag: string): string {
    "</" + (tag + ">")
  }

  const SEPARATOR: string := "<!-- -->"

  /** A void element has no content and no close tag. */
  function ElementText(tag: string, attrs: seq<Attr>, content: string): string {
    if IsVoid(tag) then OpenTag(tag, attrs) else OpenTag(tag, attrs) + (content + CloseTag(tag))
  }

  function Print(f: Forest): string {
    match f
    case End => ""
    case Text(t, rest) => EscapeText(t) + Print(rest)
    case Separator(rest) => SEPARATOR + Print(rest)
    case Raw(h, rest) => h + Print(rest)
    case Elem(tag, attrs, kids, rest) => ElementText(tag, attrs, Print(kids)) + Print(rest)
  }

  lemma Reassociate(a: string, b: string, c: string)
    ensures a + b + c == a + (b + c)
  {
  }

  lemma {:induction false} PrintAppend(f: Forest, g: Forest)
    ensures Print(Append(f, g)) == Print(f) + Print(g)
  {
    match f
    case End =>
    case Text(t, rest) =>
      PrintAppend(rest, g);
      Reassociate(EscapeText(t), Print(rest), Print(g));
    case Separator(rest) =>
      PrintAppend(rest, g);
      Reassociate(SEPARATOR, Print(rest), Print(g));
    case Raw(h, rest) =>
      PrintAppend(rest, g);
      Reassociate(h, Print(rest), Print(g));
    case Elem(tag, attrs, kids, rest) =>
      PrintAppend(rest, g);
      Reassociate(ElementText(tag, attrs, Print(kids)), Print(rest), Print(g));
  }

  // ---- Tokens ----

  datatype Token = Open(tag: string, attrs: seq<Attr>) | Close(tag: string) | Comment | Char(c: char)

  function Chars(s: string): seq<Token> {
    seq(|s|, i requires 0 <= i < |s| => Char(s[i]))
  }

  /** What the tree says, read in document order. */
  function TreeTokens(f: Forest): seq<Token> {
    match f
    case End => []
    case Text(t, rest) => Chars(t) + TreeTokens(rest)
    case Separator(rest) => [Comment] + TreeTokens(rest)
    case Raw(h, rest) => TreeTokens(rest)
    case Elem(tag, attrs, kids, rest) =>
      ElementTokens(tag, attrs, TreeTokens(kids)) + TreeTokens(rest)
  }

  function ElementTokens(tag: string, attrs: seq<Attr>, content: seq<Token>): seq<Token> {
    if IsVoid(tag) then [Open(tag, attrs)] else [Open(tag, attrs)] + (content + [Close(tag)])
  }

  function NameLen(s: string): (n: nat)
    ensures n <= |s|
  {
    if s == "" || !NameChar(s[0]) then 0 else 1 + NameLen(s[1..])
  }

  /** One character, with the character references of the two escapers decoded. */
  function ReadChar(s: string): (r: (char, string))
    requires s != ""
    ensures |r.1| < |s|
  {
    if s[0] != '&' then (s[0], s[1..])
    else if "&amp;" <= s then ('&', s[5..])
    else if "&lt;" <= s then ('<', s[4..])
    else if "&gt;" <= s then ('>', s[4..])
    else if "&#34;" <= s then ('"', s[5..])
    else if "&#39;" <= s then ('\'', s[5..])
    else (s[0], s[1..])
  }

  function ReadValue(s: string): (r: Option<(string, string)>)
    ensures r.Some? ==> |r.value.1| < |s|
    decreases |s|
  {
    if s == "" then None
    else if s[0] == '"' then Some(("", s[1..]))
    else
      var (c, more) := ReadChar(s);
      match ReadValue(more)
      case None => None
      case Some((value, rest)) => Some(([c] + value, rest))
  }

  function ReadAttrs(s: string): (r: Option<(seq<Attr>, string)>)
    ensures r.Some? ==> |r.value.1| < |s|
    decreases |s|
  {
    if s == "" then None
    else if s[0] == '>' then Some(([], s[1..]))
    else
      var n := NameLen(s[1..]);
      if s[0] != ' ' || n == 0 || |s| < n + 3 || s[n + 1..n + 3] != "=\"" then None
      else
        match ReadValue(s[n + 3..])
        case None => None
        case Some((value, more)) =>
          match ReadAttrs(more)
          case None => None
          case Some((attrs, rest)) => Some(([Attr(s[1..n + 1], value)] + attrs, rest))
  }

  function ReadTag(s: string): (r: Option<(Token, string)>)
    requires s != "" && s[0] == '<'
    ensures r.Some? ==> |r.value.1| < |s|
  {
    if SEPARATOR <= s then Some((Comment, s[|SEPARATOR|..]))
    else if "</" <= s then
      var n := NameLen(s[2..]);
      if n == 0 || |s| < n + 3 || s[n + 2] != '>' then None else Some((Close(s[2..n + 2]), s[n + 3..]))
    else
      var n := NameLen(s[1..]);
      if n == 0 then None
      else
        match ReadAttrs(s[n + 1..])
        case None => None
        case Some((attrs, rest)) => Some((Open(s[1..n + 1], attrs), rest))
  }

  function Then(tokens: seq<Token>, more: Option<seq<Token>>): Option<seq<Token>> {
    if more.None? then None else Some(tokens + more.value)
  }

  function Tokenize(s: string): Option<seq<Token>>
    decreases |s|
  {
    if s == "" then Some([])
    else if s[0] == '<' then
      match ReadTag(s)
      case None => None
      case Some((token, rest)) => Then([token], Tokenize(rest))
    else
      var (c, rest) := ReadChar(s);
      Then([Char(c)], Tokenize(rest))
  }

  // ---- The tokenizer reads back what was printed ----

  lemma ThenThen(a: seq<Token>, b: seq<Token>, more: Option<seq<Token>>)
    ensures Then(a, Then(b, more)) == Then(a + b, more)
  {
    if more.Some? { assert a + (b + more.value) == a + b + more.value; }
  }

  lemma ThenNothing(more: Option<seq<Token>>)
    ensures Then([], more) == more
  {
    if more.Some? { assert [] + more.value == more.value; }
  }

  lemma ReadReference(t: string)
    ensures ReadChar("&amp;" + t) == ('&', t)
    ensures ReadChar("&lt;" + t) == ('<', t)
    ensures ReadChar("&gt;" + t) == ('>', t)
    ensures ReadChar("&#34;" + t) == ('"', t)
    ensures ReadChar("&#39;" + t) == ('\'', t)
  {
    var amp, lt, gt, quot, apos := "&amp;" + t, "&lt;" + t, "&gt;" + t, "&#34;" + t, "&#39;" + t;
    assert amp[5..] == t && lt[4..] == t && gt[4..] == t && quot[5..] == t && apos[5..] == t;
    assert lt[1] == 'l' && gt[1] == 'g' && quot[1] == '#' && quot[3] == '4' && apos[1] == '#' && apos[3] == '9';
  }

  lemma ReadEscaped(c: char, t: string)
    ensures ReadChar(EscapeTextChar(c) + t) == (c, t)
    ensures ReadChar(EscapeAttrChar(c) + t) == (c, t)
    ensures EscapeTextChar(c)[0] != '<' && EscapeAttrChar(c)[0] != '"'
  {
    ReadReference(t);
    if c != '&' {
      assert ([c] + t)[0] == c && ([c] + t)[1..] == t;
    }
  }

  lemma {:induction false} NameRead(name: string, t: string)
    requires forall i :: 0 <= i < |name| ==> NameChar(name[i])
    requires t == "" || !NameChar(t[0])
    ensures NameLen(name + t) == |name|
  {
    if name == "" {
      assert name + t == t;
    } else {
      assert (name + t)[1..] == name[1..] + t;
      NameRead(name[1..], t);
    }
  }

  lemma {:induction false} ValueRead(v: string, t: string)
    ensures ReadValue(EscapeAttr(v) + ("\"" + t)) == Some((v, t))
  {
    if v == "" {
      assert EscapeAttr(v) + ("\"" + t) == "\"" + t;
      assert ("\"" + t)[1..] == t;
    } else {
      Reassociate(EscapeAttrChar(v[0]), EscapeAttr(v[1..]), "\"" + t);
      ValueRead(v[1..], t);
      ValueStep(v[0], EscapeAttr(v[1..]) + ("\"" + t));
      assert v == [v[0]] + v[1..];
    }
  }

  lemma ValueStep(c: char, more: string)
    requires ReadValue(more).Some?
    ensures ReadValue(EscapeAttrChar(c) + more) == Some(([c] + ReadValue(more).value.0, ReadValue(more).value.1))
  {
    ReadEscaped(c, more);
    assert (EscapeAttrChar(c) + more)[0] == EscapeAttrChar(c)[0];
  }

  lemma AttrSlices(name: string, quoted: string, s: string)
    requires ValidName(name) && s == " " + (name + ("=\"" + quoted))
    ensures NameLen(s[1..]) == |name| && |s| >= |name| + 3
    ensures s[1..|name| + 1] == name && s[|name| + 1..|name| + 3] == "=\"" && s[|name| + 3..] == quoted
  {
    var n, tail := |name|, "=\"" + quoted;
    assert s[1..] == name + tail;
    NameRead(name, tail);
    assert s[1..n + 1] == name && s[n + 1..] == tail;
    assert tail[..2] == "=\"" && tail[2..] == quoted;
    assert s[n + 1..n + 3] == s[n + 1..][..2] && s[n + 3..] == s[n + 1..][2..];
  }

  lemma AttrRead(a: Attr, t: string)
    requires ValidName(a.name) && ReadAttrs(t).Some?
    ensures ReadAttrs(" " + (PrintAttr(a) + t)) == Some(([a] + ReadAttrs(t).value.0, ReadAttrs(t).value.1))
  {
    var quoted := EscapeAttr(a.value) + ("\"" + t);
    var s := " " + (PrintAttr(a) + t);
    assert PrintAttr(a) + t == a.name + ("=\"" + quoted) by {
      Reassociate(a.name, "=\"" + (EscapeAttr(a.value) + "\""), t);
      Reassociate("=\"", EscapeAttr(a.value) + "\"", t);
      Reassociate(EscapeAttr(a.value), "\"", t);
    }
    AttrSlices(a.name, quoted, s);
    ValueRead(a.value, t);
  }

  predicate ValidAttrs(attrs: seq<Attr>) {
    forall a :: a in attrs ==> ValidName(a.name)
  }

  lemma {:induction false} AttrsRead(attrs: seq<Attr>, t: string)
    requires ValidAttrs(attrs)
    ensures ReadAttrs(PrintAttrs(attrs) + (">" + t)) == Some((attrs, t))
  {
    if attrs == [] {
      assert PrintAttrs(attrs) + (">" + t) == ">" + t;
      assert (">" + t)[1..] == t;
    } else {
      AttrsRead(attrs[1..], t);
      var tail := PrintAttrs(attrs[1..]);
      Reassociate(" ", PrintAttr(attrs[0]) + tail, ">" + t);
      Reassociate(PrintAttr(attrs[0]), tail, ">" + t);
      assert attrs[0] in attrs;
      AttrRead(attrs[0], tail + (">" + t));
      assert attrs == [attrs[0]] + attrs[1..];
    }
  }

  lemma TagSlices(tag: string, more: string, s: string)
    requires ValidTag(tag) && s == "<" + (tag + more) && more != "" && !NameChar(more[0])
    ensures !(SEPARATOR <= s) && !("</" <= s)
    ensures NameLen(s[1..]) == |tag| && s[1..|tag| + 1] == tag && s[|tag| + 1..] == more
  {
    assert s[1..] == tag + more;
    NameRead(tag, more);
    assert s[1] == tag[0] && SEPARATOR[1] == '!' && "</"[1] == '/';
  }

  lemma AttrsStart(attrs: seq<Attr>, t: string)
    ensures var more := PrintAttrs(attrs) + (">" + t); more != "" && !NameChar(more[0])
  {
    if attrs == [] { assert PrintAttrs(attrs) + (">" + t) == ">" + t; }
  }

  lemma OpenRead(tag: string, attrs: seq<Attr>, t: string)
    requires ValidTag(tag) && ValidAttrs(attrs)
    ensures Tokenize(OpenTag(tag, attrs) + t) == Then([Open(tag, attrs)], Tokenize(t))
  {
    var more := PrintAttrs(attrs) + (">" + t);
    var s := OpenTag(tag, attrs) + t;
    assert s == "<" + (tag + more) by {
      Reassociate("<", tag + (PrintAttrs(attrs) + ">"), t);
      Reassociate(tag, PrintAttrs(attrs) + ">", t);
      Reassociate(PrintAttrs(attrs), ">", t);
    }
    AttrsStart(attrs, t);
    TagSlices(tag, more, s);
    AttrsRead(attrs, t);
    assert ReadTag(s) == Some((Open(tag, attrs), t));
  }

  lemma CloseSlices(tag: string, t: string, s: string)
    requires ValidTag(tag) && s == "</" + (tag + (">" + t))
    ensures !(SEPARATOR <= s) && "</" <= s
    ensures NameLen(s[2..]) == |tag| && |s| >= |tag| + 3
    ensures s[2..|tag| + 2] == tag && s[|tag| + 2] == '>' && s[|tag| + 3..] == t
  {
    assert s[2..] == tag + (">" + t);
    NameRead(tag, ">" + t);
    assert s[1] == '/' && SEPARATOR[1] == '!';
  }

  lemma CloseRead(tag: string, t: string)
    requires ValidTag(tag)
    ensures Tokenize(CloseTag(tag) + t) == Then([Close(tag)], Tokenize(t))
  {
    var s := CloseTag(tag) + t;
    assert s == "</" + (tag + (">" + t)) by {
      Reassociate("</", tag + ">", t);
      Reassociate(tag, ">", t);
    }
    CloseSlices(tag, t, s);
    assert ReadTag(s) == Some((Close(tag), t));
  }

  lemma SeparatorRead(t: string)
    ensures Tokenize(SEPARATOR + t) == Then([Comment], Tokenize(t))
  {
    assert (SEPARATOR + t)[|SEPARATOR|..] == t;
  }

  lemma CharRead(c: char, t: string)
    ensures Tokenize(EscapeTextChar(c) + t) == Then([Char(c)], Tokenize(t))
  {
    ReadEscaped(c, t);
  }

  lemma {:induction false} TextRead(text: string, t: string)
    ensures Tokenize(EscapeText(text) + t) == Then(Chars(text), Tokenize(t))
  {
    if text == "" {
      assert EscapeText(text) + t == t;
      ThenNothing(Tokenize(t));
      assert Chars(text) == [];
    } else {
      var more := EscapeText(text[1..]) + t;
      Reassociate(EscapeTextChar(text[0]), EscapeText(text[1..]), t);
      CharRead(text[0], more);
      TextRead(text[1..], t);
      ThenThen([Char(text[0])], Chars(text[1..]), Tokenize(t));
      assert Chars(text) == [Char(text[0])] + Chars(text[1..]);
    }
  }

  /** No raw markup, and names as plans are validated to have them. */
  predicate Clean(f: Forest) {
    match f
    case End => true
    case Text(_, rest) => Clean(rest)
    case Separator(rest) => Clean(rest)
    case Raw(_, _) => false
    case Elem(tag, attrs, kids, rest) => ValidTag(tag) && ValidAttrs(attrs) && Clean(kids) && Clean(rest)
  }

  lemma {:induction false} TreeRead(f: Forest, t: string)
    requires Clean(f)
    ensures Tokenize(Print(f) + t) == Then(TreeTokens(f), Tokenize(t))
    decreases f, 1
  {
    match f
    case End =>
      assert Print(f) + t == t;
      ThenNothing(Tokenize(t));
    case Text(text, rest) =>
      TreeRead(rest, t);
      TextRead(text, Print(rest) + t);
      Reads(EscapeText(text), Chars(text), Print(rest), TreeTokens(rest), t);
    case Separator(rest) =>
      TreeRead(rest, t);
      SeparatorRead(Print(rest) + t);
      Reads(SEPARATOR, [Comment], Print(rest), TreeTokens(rest), t);
    case Elem(tag, attrs, kids, rest) =>
      TreeRead(rest, t);
      ElementRead(f, Print(rest) + t);
      Reads(ElementText(tag, attrs, Print(kids)), ElementTokens(tag, attrs, TreeTokens(kids)),
            Print(rest), TreeTokens(rest), t);
  }

  /** Two pieces read one after the other. */
  lemma Reads(a: string, ta: seq<Token>, b: string, tb: seq<Token>, t: string)
    requires Tokenize(a + (b + t)) == Then(ta, Tokenize(b + t))
    requires Tokenize(b + t) == Then(tb, Tokenize(t))
    ensures Tokenize(a + b + t) == Then(ta + tb, Tokenize(t))
  {
    Reassociate(a, b, t);
    ThenThen(ta, tb, Tokenize(t));
  }

  lemma {:induction false} ElementRead(f: Forest, t: string)
    requires Clean(f) && f.Elem?
    ensures Tokenize(ElementText(f.tag, f.attrs, Print(f.kids)) + t)
         == Then(ElementTokens(f.tag, f.attrs, TreeTokens(f.kids)), Tokenize(t))
    decreases f, 0
  {
    var tag, kids := f.tag, f.kids;
    if IsVoid(tag) {
      OpenRead(tag, f.attrs, t);
    } else {
      CloseRead(tag, t);
      TreeRead(kids, CloseTag(tag) + t);
      Reads(Print(kids), TreeTokens(kids), CloseTag(tag), [Close(tag)], t);
      OpenRead(tag, f.attrs, Print(kids) + CloseTag(tag) + t);
      Reads(OpenTag(tag, f.attrs), [Open(tag, f.attrs)],
            Print(kids) + CloseTag(tag), TreeTokens(kids) + [Close(tag)], t);
    }
  }

  /** Tokenizing printed markup gives exactly the tags, attributes and text of the tree. */
  lemma TokenizePrint(f: Forest)
    requires Clean(f)
    ensures Tokenize(Print(f)) == Some(TreeTokens(f))
  {
    TreeRead(f, "");
    assert Print(f) + "" == Print(f) && TreeTokens(f) + [] == TreeTokens(f);
  }

  // ---- Nesting ----

  /** The elements left open after the tokens: `None` once a close tag does not match. */
  function OpenAfter(tokens: seq<Token>, stack: seq<string>): Option<seq<string>> {
    if tokens == [] then Some(stack)
    else
      match tokens[0]
      case Open(tag, _) => OpenAfter(tokens[1..], if IsVoid(tag) then stack else [tag] + stack)
      case Close(tag) => if stack != [] && stack[0] == tag then OpenAfter(tokens[1..], stack[1..]) else None
      case _ => OpenAfter(tokens[1..], stack)
  }

  lemma {:induction false} CharsKeepOpen(s: string, more: seq<Token>, stack: seq<string>)
    ensures OpenAfter(Chars(s) + more, stack) == OpenAfter(more, stack)
  {
    if s == "" {
      assert Chars(s) + more == more;
    } else {
      assert (Chars(s) + more)[1..] == Chars(s[1..]) + more;
      CharsKeepOpen(s[1..], more, stack);
    }
  }

  /** What leaves the open elements as they were, twice over. */
  lemma NestedTwice(a: seq<Token>, b: seq<Token>, more: seq<Token>, stack: seq<string>)
    requires OpenAfter(a + (b + more), stack) == OpenAfter(b + more, stack)
    requires OpenAfter(b + more, stack) == OpenAfter(more, stack)
    ensures OpenAfter(a + b + more, stack) == OpenAfter(more, stack)
  {
    assert a + b + more == a + (b + more);
  }

  lemma CommentBefore(more: seq<Token>, stack: seq<string>)
    ensures OpenAfter([Comment] + more, stack) == OpenAfter(more, stack)
  {
    assert ([Comment] + more)[1..] == more;
  }

  lemma {:induction false} NestedBefore(f: Forest, more: seq<Token>, stack: seq<string>)
    ensures OpenAfter(TreeTokens(f) + more, stack) == OpenAfter(more, stack)
    decreases f, 1
  {
    match f
    case End => assert [] + more == more;
    case Text(text, rest) =>
      NestedBefore(rest, more, stack);
      CharsKeepOpen(text, TreeTokens(rest) + more, stack);
      NestedTwice(Chars(text), TreeTokens(rest), more, stack);
    case Separator(rest) =>
      NestedBefore(rest, more, stack);
      CommentBefore(TreeTokens(rest) + more, stack);
      NestedTwice([Comment], TreeTokens(rest), more, stack);
    case Raw(_, rest) => NestedBefore(rest, more, stack);
    case Elem(tag, attrs, kids, rest) =>
      NestedBefore(rest, more, stack);
      ElementNested(f, TreeTokens(rest) + more, stack);
      NestedTwice(ElementTokens(tag, attrs, TreeTokens(kids)), TreeTokens(rest), more, stack);
  }

  lemma {:induction false} ElementNested(f: Forest, more: seq<Token>, stack: seq<string>)
    requires f.Elem?
    ensures OpenAfter(ElementTokens(f.tag, f.attrs, TreeTokens(f.kids)) + more, stack) == OpenAfter(more, stack)
    decreases f, 0
  {
    var tail := [Close(f.tag)] + more;
    if IsVoid(f.tag) {
      OpenedBefore(f.tag, f.attrs, more, stack);
    } else {
      OpenedBefore(f.tag, f.attrs, TreeTokens(f.kids) + tail, stack);
      NestedBefore(f.kids, tail, [f.tag] + stack);
      ClosedBefore(f.tag, more, stack);
      assert ElementTokens(f.tag, f.attrs, TreeTokens(f.kids)) + more
          == [Open(f.tag, f.attrs)] + (TreeTokens(f.kids) + tail);
    }
  }

  lemma OpenedBefore(tag: string, attrs: seq<Attr>, more: seq<Token>, stack: seq<string>)
    ensures OpenAfter([Open(tag, attrs)] + more, stack) == OpenAfter(more, if IsVoid(tag) then stack else [tag] + stack)
  {
    assert ([Open(tag, attrs)] + more)[1..] == more;
  }

  lemma ClosedBefore(tag: string, more: seq<Token>, stack: seq<string>)
    ensures OpenAfter([Close(tag)] + more, [tag] + stack) == OpenAfter(more, stack)
  {
    assert ([Close(tag)] + more)[1..] == more && ([tag] + stack)[1..] == stack;
  }

  /** Every non-void element is closed, in order. */
  lemma WellNested(f: Forest)
    ensures OpenAfter(TreeTokens(f), []) == Some([])
  {
    NestedBefore(f, [], []);
    assert TreeTokens(f) + [] == TreeTokens(f);
  }

  // ---- As an HTML tokenizer reads it ----

  /** Elements whose content is not markup. In those of `ESCAPABLE` character references still count. */
  const RAW_TEXT: set<string> :=
    {"script", "style", "xmp", "iframe", "noembed", "noframes", "noscript", "plaintext", "title", "textarea"}
  const ESCAPABLE: set<string> := {"title", "textarea"}

  predicate IsRawText(tag: string) {
    Lower(tag) in RAW_TEXT
  }

  /** Of attributes whose names differ in case only, the first counts. */
  function FirstOfEach(attrs: seq<Attr>, seen: set<string>): seq<Attr> {
    if attrs == [] then []
    else
      var name := Lower(attrs[0].name);
      if name in seen then FirstOfEach(attrs[1..], seen)
      else [attrs[0].(name := name)] + FirstOfEach(attrs[1..], seen + {name})
  }

  /** Names are folded to lower case and repeated attributes dropped. */
  function HtmlToken(token: Token): Token {
    match token
    case Open(tag, attrs) => Open(Lower(tag), FirstOfEach(attrs, {}))
    case Close(tag) => Close(Lower(tag))
    case _ => token
  }

  function HtmlTokens(tokens: seq<Token>): seq<Token> {
    seq(|tokens|, i requires 0 <= i < |tokens| => HtmlToken(tokens[i]))
  }

  /** Where raw text ends: at its own close tag, or never. */
  function RawEnd(s: string, tag: string): (n: nat)
    ensures n <= |s|
    decreases |s|
  {
    var close := "</" + Lower(tag);
    if s == "" || (Lower(tag) != "plaintext" && |s| >= |close| && Lower(s[..|close|]) == close) then 0
    else 1 + RawEnd(s[1..], tag)
  }

  function Decoded(s: string): seq<Token>
    decreases |s|
  {
    if s == "" then [] else [Char(ReadChar(s).0)] + Decoded(ReadChar(s).1)
  }

  function HtmlTokenize(s: string): Option<seq<Token>>
    decreases |s|
  {
    if s == "" then Some([])
    else if s[0] == '<' then
      match ReadTag(s)
      case None => None
      case Some((token, rest)) =>
        if token.Open? && IsRawText(token.tag) then
          var n := RawEnd(rest, token.tag);
          var content := if Lower(token.tag) in ESCAPABLE then Decoded(rest[..n]) else Chars(rest[..n]);
          Then([HtmlToken(token)] + content, HtmlTokenize(rest[n..]))
        else Then([HtmlToken(token)], HtmlTokenize(rest))
    else
      var (c, rest) := ReadChar(s);
      Then([Char(c)], HtmlTokenize(rest))
  }

  ghost predicate NoRawText(tokens: seq<Token>) {
    forall token :: token in tokens && token.Open? ==> !IsRawText(token.tag)
  }

  /** Where no element has raw text, both tokenizers see the same. */
  lemma {:induction false} HtmlAgrees(s: string)
    requires Tokenize(s).Some? && NoRawText(Tokenize(s).value)
    ensures HtmlTokenize(s) == Some(HtmlTokens(Tokenize(s).value))
    decreases |s|
  {
    if s == "" {
      assert HtmlTokens([]) == [];
    } else if s[0] == '<' {
      var (token, rest) := ReadTag(s).value;
      HtmlStep(token, Tokenize(rest));
      HtmlAgrees(rest);
    } else {
      var (c, rest) := ReadChar(s);
      HtmlStep(Char(c), Tokenize(rest));
      HtmlAgrees(rest);
    }
  }

  lemma HtmlStep(token: Token, more: Option<seq<Token>>)
    requires more.Some? && NoRawText([token] + more.value)
    ensures NoRawText(more.value) && (token.Open? ==> !IsRawText(token.tag))
    ensures HtmlTokens([token] + more.value) == [HtmlToken(token)] + HtmlTokens(more.value)
  {
    assert token in [token] + more.value;
    forall t | t in more.value ensures t in [token] + more.value { }
  }

  ghost predicate NamesDiffer(attrs: seq<Attr>) {
    forall i, j :: 0 <= i < j < |attrs| ==> Lower(attrs[i].name) != Lower(attrs[j].name)
  }

  /** No attribute is dropped exactly when no two names differ in case only. */
  lemma NoneDroppedIff(attrs: seq<Attr>)
    ensures |FirstOfEach(attrs, {})| == |attrs| <==> NamesDiffer(attrs)
  {
    FirstOfEachCount(attrs, {});
  }

  lemma {:induction false} FirstOfEachCount(attrs: seq<Attr>, seen: set<string>)
    ensures |FirstOfEach(attrs, seen)| <= |attrs|
    ensures |FirstOfEach(attrs, seen)| == |attrs| <==>
            NamesDiffer(attrs) && forall i :: 0 <= i < |attrs| ==> Lower(attrs[i].name) !in seen
  {
    if attrs != [] {
      var name, rest := Lower(attrs[0].name), attrs[1..];
      FirstOfEachCount(rest, seen);
      FirstOfEachCount(rest, seen + {name});
      assert forall i :: 1 <= i < |attrs| ==> attrs[i] == rest[i - 1];
      if NamesDiffer(attrs) {
        forall i, j | 0 <= i < j < |rest| ensures Lower(rest[i].name) != Lower(rest[j].name) {
          assert rest[i] == attrs[i + 1] && rest[j] == attrs[j + 1];
        }
        forall i | 0 <= i < |rest| ensures Lower(rest[i].name) != name {
          assert rest[i] == attrs[i + 1];
        }
      }
    }
  }
}
