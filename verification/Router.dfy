/** Route patterns: parsing, matching, and a table that resolves a path to its most specific route. */
module Router {
  import opened Wrappers
  import opened Bytes
  import opened Sorting
  import opened Text

  const SLASH: byte := 0x2f
  const DOT: byte := 0x2e
  const BACKSLASH: byte := 0x5c
  const OPEN: byte := 0x5b
  const CLOSE: byte := 0x5d
  const DOTS: Bytes := [DOT, DOT, DOT]

  datatype Kind = Literal | Dynamic | CatchAll | OptionalCatchAll
  datatype Segment = Segment(kind: Kind, value: Bytes)
  type Pattern = seq<Segment>
  type Params = map<Bytes, Bytes>

  datatype Route = Route(id: Bytes, pattern: Bytes, segments: Pattern)

  datatype Error =
    | NoLeadingSlash | InvalidSegment | MalformedParameter | EmptyName | CatchAllNotLast | NoID | DuplicatePattern

  // ---- Parsing ----

  function TrimLeft(s: Bytes): Bytes {
    if s != [] && s[0] == SLASH then TrimLeft(s[1..]) else s
  }

  function TrimRight(s: Bytes): Bytes {
    if s != [] && s[|s| - 1] == SLASH then TrimRight(s[..|s| - 1]) else s
  }

  function Trim(s: Bytes): Bytes {
    TrimRight(TrimLeft(s))
  }

  predicate Wrapped(part: Bytes, before: Bytes, after: Bytes) {
    |part| >= |before| + |after| && before <= part && part[|part| - |after|..] == after
  }

  function Inner(part: Bytes, before: Bytes, after: Bytes): Bytes
    requires Wrapped(part, before, after)
  {
    part[|before|..|part| - |after|]
  }

  const OPTIONAL_OPEN: Bytes := [OPEN, OPEN] + DOTS
  const OPTIONAL_CLOSE: Bytes := [CLOSE, CLOSE]
  const CATCH_OPEN: Bytes := [OPEN] + DOTS

  function ParseSegment(part: Bytes, last: bool): Result<Segment, Error> {
    if part == [] || part == [DOT] || part == [DOT, DOT] then Err(InvalidSegment)
    else if Wrapped(part, OPTIONAL_OPEN, OPTIONAL_CLOSE) then
      Named(OptionalCatchAll, Inner(part, OPTIONAL_OPEN, OPTIONAL_CLOSE), last)
    else if Wrapped(part, CATCH_OPEN, [CLOSE]) then Named(CatchAll, Inner(part, CATCH_OPEN, [CLOSE]), last)
    else if Wrapped(part, [OPEN], [CLOSE]) then Named(Dynamic, Inner(part, [OPEN], [CLOSE]), last)
    else if OPEN in part || CLOSE in part then Err(MalformedParameter)
    else Named(Literal, part, last)
  }

  function Named(kind: Kind, value: Bytes, last: bool): Result<Segment, Error> {
    if value == [] then Err(EmptyName)
    else if (kind.CatchAll? || kind.OptionalCatchAll?) && !last then Err(CatchAllNotLast)
    else Ok(Segment(kind, value))
  }

  function ParseParts(parts: seq<Bytes>): Result<Pattern, Error> {
    if parts == [] then Ok([])
    else
      match ParseSegment(parts[0], |parts| == 1)
      case Err(e) => Err(e)
      case Ok(segment) =>
        match ParseParts(parts[1..])
        case Err(e) => Err(e)
        case Ok(rest) => Ok([segment] + rest)
  }

  function Parse(source: Bytes): Result<Pattern, Error> {
    if source == [] || source[0] != SLASH then Err(NoLeadingSlash)
    else if Trim(source) == [] then Ok([])
    else ParseParts(Split(Trim(source), SLASH))
  }

  method ParsePattern(source: Bytes) returns (r: Result<Pattern, Error>)
    ensures r == Parse(source)
  {
    if |source| == 0 || source[0] != SLASH {
      return Err(NoLeadingSlash);
    }
    if Trim(source) == [] {
      return Ok([]);
    }
    var parts := Split(Trim(source), SLASH);
    var segments := [];
    var i := 0;
    assert parts[0..] == parts;
    assert ParseParts(parts).Ok? ==> [] + ParseParts(parts).value == ParseParts(parts).value;
    while i < |parts|
      invariant 0 <= i <= |parts|
      invariant ParseParts(parts) == Prepend(segments, ParseParts(parts[i..]))
    {
      assert parts[i..][1..] == parts[i + 1..];
      var segment := ParseSegment(parts[i], i == |parts| - 1);
      if segment.Err? {
        return Err(segment.error);
      }
      PrependMore(segments, segment.value, ParseParts(parts[i + 1..]));
      segments := segments + [segment.value];
      i := i + 1;
    }
    assert segments + [] == segments;
    r := Ok(segments);
  }

  function Prepend(segments: Pattern, r: Result<Pattern, Error>): Result<Pattern, Error> {
    if r.Err? then r else Ok(segments + r.value)
  }

  lemma PrependMore(segments: Pattern, segment: Segment, r: Result<Pattern, Error>)
    ensures Prepend(segments + [segment], r) == Prepend(segments, Prepend([segment], r))
  {
    if r.Ok? { assert segments + [segment] + r.value == segments + ([segment] + r.value); }
  }

  /** Only the last segment may take more than one part, and every value is there. */
  ghost predicate WellFormed(segments: Pattern) {
    forall i :: 0 <= i < |segments| ==>
      && segments[i].value != []
      && (segments[i].kind.CatchAll? || segments[i].kind.OptionalCatchAll? ==> i == |segments| - 1)
  }

  function PrintSegment(segment: Segment): Bytes {
    match segment.kind
    case Literal => segment.value
    case Dynamic => [OPEN] + segment.value + [CLOSE]
    case CatchAll => CATCH_OPEN + segment.value + [CLOSE]
    case OptionalCatchAll => OPTIONAL_OPEN + segment.value + OPTIONAL_CLOSE
  }

  function Print(segments: Pattern): seq<Bytes> {
    seq(|segments|, i requires 0 <= i < |segments| => PrintSegment(segments[i]))
  }

  lemma WrappedIs(part: Bytes, before: Bytes, after: Bytes)
    requires Wrapped(part, before, after)
    ensures part == before + Inner(part, before, after) + after
  {
  }

  lemma ParsedSegment(part: Bytes, last: bool)
    requires ParseSegment(part, last).Ok?
    ensures
      var segment := ParseSegment(part, last).value;
      && PrintSegment(segment) == part && segment.value != []
      && (segment.kind.CatchAll? || segment.kind.OptionalCatchAll? ==> last)
  {
    if Wrapped(part, OPTIONAL_OPEN, OPTIONAL_CLOSE) {
      WrappedIs(part, OPTIONAL_OPEN, OPTIONAL_CLOSE);
    } else if Wrapped(part, CATCH_OPEN, [CLOSE]) {
      WrappedIs(part, CATCH_OPEN, [CLOSE]);
    } else if Wrapped(part, [OPEN], [CLOSE]) {
      WrappedIs(part, [OPEN], [CLOSE]);
    }
  }

  lemma {:induction false} ParsedParts(parts: seq<Bytes>)
    requires ParseParts(parts).Ok?
    ensures WellFormed(ParseParts(parts).value) && Print(ParseParts(parts).value) == parts
  {
    if parts != [] {
      ParsedSegment(parts[0], |parts| == 1);
      ParsedParts(parts[1..]);
      var segments := ParseParts(parts).value;
      assert segments[1..] == ParseParts(parts[1..]).value;
      assert Print(segments)[1..] == Print(segments[1..]);
      assert |segments| == |Print(segments)|;
      forall i | 1 <= i < |segments|
        ensures segments[i].value != []
                && (segments[i].kind.CatchAll? || segments[i].kind.OptionalCatchAll? ==> i == |segments| - 1)
      {
        assert segments[i] == segments[1..][i - 1];
      }
      assert parts == [parts[0]] + parts[1..];
    }
  }

  /** A parsed pattern loses nothing but the slashes around it: two sources parse alike only if they trim alike. */
  lemma ParsedPattern(source: Bytes)
    requires Parse(source).Ok?
    ensures WellFormed(Parse(source).value)
    ensures Join(Print(Parse(source).value), SLASH) == Trim(source)
  {
    if Trim(source) != [] { ParsedParts(Split(Trim(source), SLASH)); }
  }

  // ---- Paths ----

  function DecodePart(part: Bytes): Option<Bytes> {
    match Unescape(part, false)
    case None => None
    case Some(decoded) =>
      if decoded == [DOT] || decoded == [DOT, DOT] || SLASH in decoded then None else Some(decoded)
  }

  function DecodeParts(parts: seq<Bytes>): Option<seq<Bytes>> {
    if parts == [] then Some([])
    else
      match (DecodePart(parts[0]), DecodeParts(parts[1..]))
      case (Some(part), Some(rest)) => Some([part] + rest)
      case _ => None
  }

  function SplitPath(path: Bytes): Option<seq<Bytes>> {
    if path == [] || path[0] != SLASH || BACKSLASH in path then None
    else if Trim(path) == [] then Some([])
    else DecodeParts(Split(Trim(path), SLASH))
  }

  method DecodePath(path: Bytes) returns (r: Option<seq<Bytes>>)
    ensures r == SplitPath(path)
  {
    if |path| == 0 || path[0] != SLASH || BACKSLASH in path {
      return None;
    }
    if Trim(path) == [] {
      return Some([]);
    }
    var encoded := Split(Trim(path), SLASH);
    var parts := [];
    var i := 0;
    assert encoded[0..] == encoded;
    assert DecodeParts(encoded).Some? ==> [] + DecodeParts(encoded).value == DecodeParts(encoded).value;
    while i < |encoded|
      invariant 0 <= i <= |encoded|
      invariant DecodeParts(encoded) ==
                match DecodeParts(encoded[i..]) { case None => None case Some(rest) => Some(parts + rest) }
    {
      assert encoded[i..][1..] == encoded[i + 1..];
      var part := DecodePart(encoded[i]);
      if part.None? {
        return None;
      }
      if DecodeParts(encoded[i + 1..]).Some? {
        assert parts + [part.value] + DecodeParts(encoded[i + 1..]).value
            == parts + ([part.value] + DecodeParts(encoded[i + 1..]).value);
      }
      parts := parts + [part.value];
      i := i + 1;
    }
    assert parts + [] == parts;
    r := Some(parts);
  }

  /** What matching relies on: no part holds a slash or names a directory, and the last one is not empty. */
  ghost predicate PathParts(parts: seq<Bytes>) {
    && (forall part :: part in parts ==> SLASH !in part && part != [DOT] && part != [DOT, DOT])
    && (parts != [] ==> parts[|parts| - 1] != [])
  }

  lemma {:induction false} DecodedParts(parts: seq<Bytes>)
    requires DecodeParts(parts).Some?
    ensures |DecodeParts(parts).value| == |parts|
    ensures forall part :: part in DecodeParts(parts).value ==> SLASH !in part && part != [DOT] && part != [DOT, DOT]
    ensures forall i :: 0 <= i < |parts| && parts[i] != [] ==> DecodeParts(parts).value[i] != []
  {
    if parts != [] {
      DecodedParts(parts[1..]);
    }
  }

  lemma {:induction false} TrimmedRight(s: Bytes)
    ensures TrimRight(s) != [] ==> TrimRight(s)[|TrimRight(s)| - 1] != SLASH
  {
    if s != [] && s[|s| - 1] == SLASH { TrimmedRight(s[..|s| - 1]); }
  }

  lemma {:induction false} LastPart(s: Bytes)
    requires s != [] && s[|s| - 1] != SLASH
    ensures Split(s, SLASH)[|Split(s, SLASH)| - 1] != []
  {
    if |s| > 1 {
      LastPart(s[1..]);
      var rest := Split(s[1..], SLASH);
      if s[0] == SLASH {
        assert Split(s, SLASH) == [[]] + rest && rest != [];
      } else {
        assert Split(s, SLASH) == [[s[0]] + rest[0]] + rest[1..];
      }
    } else {
      assert Split(s[1..], SLASH) == [[]];
      assert Split(s, SLASH)[0] == [s[0]] + [];
    }
  }

  lemma SplitPathFacts(path: Bytes)
    requires SplitPath(path).Some?
    ensures PathParts(SplitPath(path).value)
  {
    if Trim(path) != [] {
      DecodedParts(Split(Trim(path), SLASH));
      TrimmedRight(TrimLeft(path));
      LastPart(Trim(path));
    }
  }

  // ---- What is parsed ----

  lemma {:induction false} TrimLeftFacts(s: Bytes)
    ensures TrimLeft(s) != [] ==> TrimLeft(s)[0] != SLASH
    ensures exists n :: 0 <= n <= |s| && s[n..] == TrimLeft(s) && forall i :: 0 <= i < n ==> s[i] == SLASH
  {
    if s != [] && s[0] == SLASH {
      TrimLeftFacts(s[1..]);
      var n :| 0 <= n <= |s| - 1 && s[1..][n..] == TrimLeft(s[1..]) && forall i :: 0 <= i < n ==> s[1..][i] == SLASH;
      assert s[n + 1..] == s[1..][n..];
      forall i | 0 <= i < n + 1 ensures s[i] == SLASH {
        if i > 0 { assert s[1..][i - 1] == SLASH; }
      }
    } else {
      assert s[0..] == s;
    }
  }

  lemma {:induction false} TrimRightFacts(s: Bytes)
    ensures TrimRight(s) != [] ==> TrimRight(s)[|TrimRight(s)| - 1] != SLASH
    ensures |TrimRight(s)| <= |s| && s[..|TrimRight(s)|] == TrimRight(s)
    ensures forall i :: |TrimRight(s)| <= i < |s| ==> s[i] == SLASH
  {
    if s != [] && s[|s| - 1] == SLASH {
      TrimRightFacts(s[..|s| - 1]);
      forall i | |TrimRight(s)| <= i < |s| ensures s[i] == SLASH {
        if i < |s| - 1 { assert s[..|s| - 1][i] == SLASH; }
      }
    }
  }

  lemma TrimStays(s: Bytes)
    requires s == [] || (s[0] != SLASH && s[|s| - 1] != SLASH)
    ensures Trim(s) == s && Trim([SLASH] + s) == s
  {
    assert ([SLASH] + s)[1..] == s;
  }

  /** A segment that can be written so that it is read back as it is: what its brackets do not already say. */
  ghost predicate Writable(segment: Segment) {
    var v := segment.value;
    && v != [] && SLASH !in v
    && match segment.kind {
         case Literal => v != [DOT] && v != [DOT, DOT] && OPEN !in v && CLOSE !in v
         case Dynamic => !(DOTS <= v) && !Wrapped(v, CATCH_OPEN, [CLOSE])
         case _ => true
       }
  }

  lemma WrapIs(v: Bytes, before: Bytes, after: Bytes)
    ensures Wrapped(before + v + after, before, after) && Inner(before + v + after, before, after) == v
  {
  }

  lemma OptionalReadsBack(v: Bytes, last: bool)
    requires v != [] && last
    ensures ParseSegment(OPTIONAL_OPEN + v + OPTIONAL_CLOSE, last) == Ok(Segment(OptionalCatchAll, v))
  {
    WrapIs(v, OPTIONAL_OPEN, OPTIONAL_CLOSE);
  }

  lemma CatchReadsBack(v: Bytes, last: bool)
    requires v != [] && last
    ensures ParseSegment(CATCH_OPEN + v + [CLOSE], last) == Ok(Segment(CatchAll, v))
  {
    WrapIs(v, CATCH_OPEN, [CLOSE]);
    var part := CATCH_OPEN + v + [CLOSE];
    assert part[1] == DOT && OPTIONAL_OPEN[1] == OPEN;
    assert part[0] == OPEN;
  }

  lemma DynamicIsNoOther(v: Bytes)
    requires v != []
    ensures
      var part := [OPEN] + v + [CLOSE];
      && (Wrapped(part, CATCH_OPEN, [CLOSE]) <==> DOTS <= v)
      && (Wrapped(part, OPTIONAL_OPEN, OPTIONAL_CLOSE) <==> Wrapped(v, CATCH_OPEN, [CLOSE]))
  {
    var part := [OPEN] + v + [CLOSE];
    assert part[1..|part| - 1] == v;
    if |v| >= 3 {
      assert part[1] == v[0] && part[2] == v[1] && part[3] == v[2];
      assert CATCH_OPEN == [OPEN, DOT, DOT, DOT] && part[|part| - 1] == CLOSE;
    }
    if |v| >= 5 {
      assert part[4] == v[3] && part[|part| - 2] == v[|v| - 1];
      assert OPTIONAL_OPEN == [OPEN, OPEN, DOT, DOT, DOT];
    }
  }

  lemma DynamicReadsBack(v: Bytes, last: bool)
    requires Writable(Segment(Dynamic, v))
    ensures ParseSegment([OPEN] + v + [CLOSE], last) == Ok(Segment(Dynamic, v))
  {
    WrapIs(v, [OPEN], [CLOSE]);
    DynamicIsNoOther(v);
  }

  lemma LiteralReadsBack(v: Bytes, last: bool)
    requires Writable(Segment(Literal, v))
    ensures ParseSegment(v, last) == Ok(Segment(Literal, v))
  {
    assert v[0] in v && OPTIONAL_OPEN[0] == OPEN && CATCH_OPEN[0] == OPEN;
  }

  lemma WritableReadsBack(segment: Segment, last: bool)
    requires Writable(segment) && (segment.kind.CatchAll? || segment.kind.OptionalCatchAll? ==> last)
    ensures ParseSegment(PrintSegment(segment), last) == Ok(segment)
    ensures PrintSegment(segment) != [] && SLASH !in PrintSegment(segment)
  {
    match segment.kind
    case Literal => LiteralReadsBack(segment.value, last);
    case Dynamic => DynamicReadsBack(segment.value, last);
    case CatchAll => CatchReadsBack(segment.value, last);
    case OptionalCatchAll => OptionalReadsBack(segment.value, last);
  }

  lemma ParsedIsWritable(part: Bytes, last: bool)
    requires ParseSegment(part, last).Ok? && SLASH !in part
    ensures Writable(ParseSegment(part, last).value)
  {
    var segment := ParseSegment(part, last).value;
    ParsedSegment(part, last);
    assert forall b :: b in segment.value ==> b in part;
    if segment.kind.Dynamic? {
      DynamicIsNoOther(segment.value);
    }
  }

  ghost predicate AllWritable(segments: Pattern) {
    forall i :: 0 <= i < |segments| ==> Writable(segments[i])
  }

  lemma PrintCons(segments: Pattern)
    requires segments != []
    ensures Print(segments) == [PrintSegment(segments[0])] + Print(segments[1..])
  {
  }

  lemma ParseCons(part: Bytes, rest: seq<Bytes>)
    requires ParseSegment(part, rest == []).Ok? && ParseParts(rest).Ok?
    ensures ParseParts([part] + rest) == Ok([ParseSegment(part, rest == []).value] + ParseParts(rest).value)
  {
    assert ([part] + rest)[1..] == rest;
  }

  lemma {:induction false} PartsReadBack(segments: Pattern)
    requires WellFormed(segments) && AllWritable(segments)
    ensures ParseParts(Print(segments)) == Ok(segments)
    ensures forall part :: part in Print(segments) ==> part != [] && SLASH !in part
  {
    if segments != [] {
      var t, first := segments[1..], PrintSegment(segments[0]);
      assert WellFormed(t);
      PartsReadBack(t);
      WritableReadsBack(segments[0], |segments| == 1);
      PrintCons(segments);
      ParseCons(first, Print(t));
      assert segments == [segments[0]] + t;
    }
  }

  lemma {:induction false} PartsWritable(parts: seq<Bytes>)
    requires ParseParts(parts).Ok? && forall part :: part in parts ==> SLASH !in part
    ensures AllWritable(ParseParts(parts).value)
  {
    if parts != [] {
      ParsedIsWritable(parts[0], |parts| == 1);
      PartsWritable(parts[1..]);
      var rest := ParseParts(parts[1..]).value;
      assert ParseParts(parts).value == [ParseSegment(parts[0], |parts| == 1).value] + rest;
    }
  }

  lemma {:induction false} JoinEnds(parts: seq<Bytes>)
    requires parts != [] && forall part :: part in parts ==> part != [] && SLASH !in part
    ensures var s := Join(parts, SLASH); s != [] && s[0] != SLASH && s[|s| - 1] != SLASH
  {
    assert parts[0] in parts && parts[0][0] in parts[0] && parts[0][|parts[0]| - 1] in parts[0];
    if |parts| > 1 {
      forall part | part in parts[1..] ensures part in parts {}
      JoinEnds(parts[1..]);
    }
  }

  /** The language of patterns: a source parses to `segments` exactly when it starts with a slash and, but for slashes
      around it, is their writing, where every segment can be written and only the last takes several parts. */
  lemma ParseIff(source: Bytes, segments: Pattern)
    ensures Parse(source) == Ok(segments) <==>
            && source != [] && source[0] == SLASH
            && WellFormed(segments) && AllWritable(segments) && Join(Print(segments), SLASH) == Trim(source)
  {
    if Parse(source) == Ok(segments) {
      ParsedPattern(source);
      if Trim(source) != [] { PartsWritable(Split(Trim(source), SLASH)); }
    }
    if WellFormed(segments) && AllWritable(segments) && Join(Print(segments), SLASH) == Trim(source) {
      PartsReadBack(segments);
      if segments != [] {
        SplitJoin(Print(segments), SLASH);
        JoinEnds(Print(segments));
      }
    }
  }

  /** Trimming takes slashes, all of them, and nothing else. */
  lemma TrimFacts(s: Bytes) returns (n: nat, m: nat)
    ensures n <= m <= |s| && Trim(s) == s[n..m]
    ensures forall i :: 0 <= i < |s| && !(n <= i < m) ==> s[i] == SLASH
    ensures n < m ==> s[n] != SLASH && s[m - 1] != SLASH
  {
    TrimLeftFacts(s);
    var t := TrimLeft(s);
    n :| 0 <= n <= |s| && s[n..] == t && forall i :: 0 <= i < n ==> s[i] == SLASH;
    TrimRightFacts(t);
    m := n + |TrimRight(t)|;
    assert s[n..m] == t[..|TrimRight(t)|];
    forall i | m <= i < |s| ensures s[i] == SLASH { assert s[i] == t[i - n]; }
    assert n < m ==> s[n] == t[0];
  }

  // ---- Which paths are taken, and as which parts ----

  ghost predicate PartOk(part: Bytes) {
    && WellEscaped(part)
    && var decoded := Unescape(part, false);
       decoded.Some? && decoded.value != [DOT] && decoded.value != [DOT, DOT] && SLASH !in decoded.value
  }

  lemma {:induction false} DecodeIff(encoded: seq<Bytes>)
    ensures DecodeParts(encoded).Some? <==> forall part :: part in encoded ==> PartOk(part)
    ensures DecodeParts(encoded).Some? ==>
              && |DecodeParts(encoded).value| == |encoded|
              && forall i :: 0 <= i < |encoded| ==> Unescape(encoded[i], false) == Some(DecodeParts(encoded).value[i])
  {
    if encoded != [] {
      UnescapeIff(encoded[0], false);
      DecodeIff(encoded[1..]);
      assert DecodePart(encoded[0]).Some? <==> PartOk(encoded[0]);
      assert forall part :: part in encoded <==> part == encoded[0] || part in encoded[1..];
    }
  }

  /** A path is refused only for not starting with a slash, a backslash, a broken escape, or a part that decodes to a
      directory name or to something with a slash in it; else its parts are decoded one by one. */
  lemma SplitPathIff(path: Bytes)
    ensures
      var encoded := Split(Trim(path), SLASH);
      && (SplitPath(path).Some? <==>
            && path != [] && path[0] == SLASH && BACKSLASH !in path
            && (Trim(path) != [] ==> forall part :: part in encoded ==> PartOk(part)))
      && (SplitPath(path).Some? && Trim(path) == [] ==> SplitPath(path).value == [])
      && (SplitPath(path).Some? && Trim(path) != [] ==>
            && |SplitPath(path).value| == |encoded|
            && forall i :: 0 <= i < |encoded| ==> Unescape(encoded[i], false) == Some(SplitPath(path).value[i]))
  {
    DecodeIff(Split(Trim(path), SLASH));
  }

  function EscapeParts(parts: seq<Bytes>): seq<Bytes> {
    seq(|parts|, i requires 0 <= i < |parts| => PathEscape(parts[i]))
  }

  /** Parts a path can have, written out. */
  ghost predicate Reachable(parts: seq<Bytes>) {
    forall part :: part in parts ==> part != [] && SLASH !in part && part != [DOT] && part != [DOT, DOT]
  }

  lemma {:induction false} EscapedDecode(parts: seq<Bytes>)
    requires Reachable(parts)
    ensures DecodeParts(EscapeParts(parts)) == Some(parts)
  {
    if parts != [] {
      var escaped, t := EscapeParts(parts), parts[1..];
      forall part | part in t ensures part in parts {}
      EscapedDecode(t);
      assert parts[0] in parts;
      EscapedPart(parts[0]);
      assert escaped[0] == PathEscape(parts[0]) && escaped[1..] == EscapeParts(t);
      assert parts == [parts[0]] + t;
    }
  }

  lemma EscapedPart(part: Bytes)
    requires part != [] && SLASH !in part && part != [DOT] && part != [DOT, DOT]
    ensures DecodePart(PathEscape(part)) == Some(part)
    ensures PathEscape(part) != [] && SLASH !in PathEscape(part) && BACKSLASH !in PathEscape(part)
  {
    UnescapePath(part);
  }

  lemma EscapedParts(parts: seq<Bytes>)
    requires Reachable(parts)
    ensures forall part :: part in EscapeParts(parts) ==> part != [] && SLASH !in part && BACKSLASH !in part
  {
    forall i | 0 <= i < |parts|
      ensures var part := EscapeParts(parts)[i]; part != [] && SLASH !in part && BACKSLASH !in part
    {
      assert parts[i] in parts;
      EscapedPart(parts[i]);
    }
  }

  lemma {:induction false} JoinHolds(parts: seq<Bytes>, b: byte)
    requires b != SLASH && forall part :: part in parts ==> b !in part
    ensures b !in Join(parts, SLASH)
  {
    if |parts| > 1 { JoinHolds(parts[1..], b); }
  }

  /** Every list of parts is the list of some path's parts. */
  lemma EscapedPathSplits(parts: seq<Bytes>)
    requires Reachable(parts)
    ensures SplitPath([SLASH] + Join(EscapeParts(parts), SLASH)) == Some(parts)
  {
    var text := Join(EscapeParts(parts), SLASH);
    EscapedDecode(parts);
    EscapedParts(parts);
    JoinHolds(EscapeParts(parts), BACKSLASH);
    if parts != [] {
      JoinEnds(EscapeParts(parts));
      TrimStays(text);
      SplitJoin(EscapeParts(parts), SLASH);
    } else {
      TrimStays([]);
    }
  }

  // ---- Matching ----

  function MatchParts(segments: Pattern, parts: seq<Bytes>, params: Params): Option<Params> {
    if segments == [] then if parts == [] then Some(params) else None
    else
      var value := segments[0].value;
      if segments[0].kind.OptionalCatchAll? && parts == [] then Some(params[value := []])
      else if parts == [] then None
      else
        match segments[0].kind
        case Literal => if value != parts[0] then None else MatchParts(segments[1..], parts[1..], params)
        case Dynamic => MatchParts(segments[1..], parts[1..], params[value := parts[0]])
        case CatchAll => Some(params[value := Join(parts, SLASH)])
        case OptionalCatchAll => Some(params[value := Join(parts, SLASH)])
  }

  function Match(segments: Pattern, path: Bytes): Option<Params> {
    match SplitPath(path)
    case None => None
    case Some(parts) => MatchParts(segments, parts, map[])
  }

  method MatchPath(segments: Pattern, path: Bytes) returns (r: Option<Params>)
    ensures r == Match(segments, path)
  {
    var decoded := DecodePath(path);
    if decoded.None? {
      return None;
    }
    var parts := decoded.value;
    var params: Params := map[];
    assert segments[0..] == segments && parts[0..] == parts;
    for i := 0 to |segments|
      invariant i <= |parts|
      invariant MatchParts(segments[i..], parts[i..], params) == MatchParts(segments, parts, map[])
    {
      assert segments[i..][1..] == segments[i + 1..];
      var segment := segments[i];
      if segment.kind.OptionalCatchAll? && i == |parts| {
        return Some(params[segment.value := []]);
      }
      if i >= |parts| {
        return None;
      }
      assert parts[i..][1..] == parts[i + 1..];
      match segment.kind
      case Literal =>
        if segment.value != parts[i] {
          return None;
        }
      case Dynamic =>
        params := params[segment.value := parts[i]];
      case CatchAll =>
        return Some(params[segment.value := Join(parts[i..], SLASH)]);
      case OptionalCatchAll =>
        return Some(params[segment.value := Join(parts[i..], SLASH)]);
    }
    return if |parts| == |segments| then Some(params) else None;
  }

  /** Which parts a pattern takes, read off its shape. */
  ghost predicate Fits(segments: Pattern, parts: seq<Bytes>) {
    && (forall i :: 0 <= i < |segments| && segments[i].kind.Literal? ==> i < |parts| && segments[i].value == parts[i])
    && if segments == [] then parts == []
       else match segments[|segments| - 1].kind {
         case Literal => |parts| == |segments|
         case Dynamic => |parts| == |segments|
         case CatchAll => |parts| >= |segments|
         case OptionalCatchAll => |parts| >= |segments| - 1
       }
  }

  lemma {:induction false} MatchIff(segments: Pattern, parts: seq<Bytes>, params: Params)
    requires WellFormed(segments)
    ensures MatchParts(segments, parts, params).Some? <==> Fits(segments, parts)
  {
    if segments != [] && parts != [] && (segments[0].kind.Literal? || segments[0].kind.Dynamic?) {
      var more := if segments[0].kind.Literal? then params else params[segments[0].value := parts[0]];
      MatchIff(segments[1..], parts[1..], more);
      FitsTail(segments, parts);
    }
  }

  lemma FitsTail(segments: Pattern, parts: seq<Bytes>)
    requires segments != [] && parts != [] && (segments[0].kind.Literal? || segments[0].kind.Dynamic?)
    ensures Fits(segments, parts) <==>
            (segments[0].kind.Literal? ==> segments[0].value == parts[0]) && Fits(segments[1..], parts[1..])
  {
    var s, p := segments[1..], parts[1..];
    if Fits(segments, parts) {
      forall i | 0 <= i < |s| && s[i].kind.Literal? ensures i < |p| && s[i].value == p[i] {
        assert segments[i + 1].kind.Literal?;
      }
    }
    if (segments[0].kind.Literal? ==> segments[0].value == parts[0]) && Fits(s, p) {
      forall i | 0 <= i < |segments| && segments[i].kind.Literal? ensures i < |parts| && segments[i].value == parts[i] {
        if i > 0 { assert s[i - 1].kind.Literal?; }
      }
    }
  }

  // ---- Substitution ----

  function Names(segments: Pattern): set<Bytes> {
    set s <- segments | !s.kind.Literal? :: s.value
  }

  ghost predicate DistinctNames(segments: Pattern) {
    forall i, j :: 0 <= i < j < |segments| && !segments[i].kind.Literal? && !segments[j].kind.Literal? ==>
      segments[i].value != segments[j].value
  }

  function FillSegment(segment: Segment, params: Params): seq<Bytes>
    requires !segment.kind.Literal? ==> segment.value in params
  {
    match segment.kind
    case Literal => [segment.value]
    case Dynamic => [params[segment.value]]
    case CatchAll => Split(params[segment.value], SLASH)
    case OptionalCatchAll => if params[segment.value] == [] then [] else Split(params[segment.value], SLASH)
  }

  /** The parts a pattern stands for under `params`. */
  function Fill(segments: Pattern, params: Params): seq<Bytes>
    requires Names(segments) <= params.Keys
  {
    if segments == [] then [] else
    assert !segments[0].kind.Literal? ==> segments[0].value in Names(segments);
    assert Names(segments[1..]) <= Names(segments);
    FillSegment(segments[0], params) + Fill(segments[1..], params)
  }

  lemma NamesCons(segments: Pattern)
    requires segments != []
    ensures Names(segments) == Names(segments[1..]) + if segments[0].kind.Literal? then {} else {segments[0].value}
    ensures DistinctNames(segments) ==> DistinctNames(segments[1..])
    ensures DistinctNames(segments) && !segments[0].kind.Literal? ==> segments[0].value !in Names(segments[1..])
    ensures WellFormed(segments) ==> WellFormed(segments[1..])
  {
    assert segments == [segments[0]] + segments[1..];
  }

  /** Matching binds exactly the names of the pattern and keeps everything bound before. */
  lemma {:induction false} MatchBinds(segments: Pattern, parts: seq<Bytes>, params: Params)
    requires WellFormed(segments) && MatchParts(segments, parts, params).Some?
    ensures
      var r := MatchParts(segments, parts, params).value;
      r.Keys == params.Keys + Names(segments) && forall k :: k in params && k !in Names(segments) ==> r[k] == params[k]
  {
    if segments != [] {
      NamesCons(segments);
      if parts != [] && (segments[0].kind.Literal? || segments[0].kind.Dynamic?) {
        MatchBinds(segments[1..], parts[1..],
                   if segments[0].kind.Literal? then params else params[segments[0].value := parts[0]]);
      } else {
        assert |segments| == 1 && Names([]) == {};
      }
    }
  }

  lemma {:induction false} FillCongruence(segments: Pattern, a: Params, b: Params)
    requires Names(segments) <= a.Keys && Names(segments) <= b.Keys
    requires forall k :: k in Names(segments) ==> a[k] == b[k]
    ensures Fill(segments, a) == Fill(segments, b)
  {
    if segments != [] {
      NamesCons(segments);
      assert FillSegment(segments[0], a) == FillSegment(segments[0], b);
      assert forall k :: k in Names(segments[1..]) ==> k in Names(segments);
      FillCongruence(segments[1..], a, b);
    }
  }

  /** Putting the matched parameters back into the pattern rebuilds the path. */
  lemma {:induction false} FillUndoesMatch(segments: Pattern, parts: seq<Bytes>, params: Params)
    requires WellFormed(segments) && DistinctNames(segments) && PathParts(parts)
    requires MatchParts(segments, parts, params).Some?
    ensures Names(segments) <= MatchParts(segments, parts, params).value.Keys
    ensures Fill(segments, MatchParts(segments, parts, params).value) == parts
  {
    MatchBinds(segments, parts, params);
    if segments != [] {
      NamesCons(segments);
      var r := MatchParts(segments, parts, params).value;
      if parts != [] && (segments[0].kind.Literal? || segments[0].kind.Dynamic?) {
        var more := if segments[0].kind.Literal? then params else params[segments[0].value := parts[0]];
        PathTail(parts);
        FillUndoesMatch(segments[1..], parts[1..], more);
        FirstFills(segments, parts, params);
        assert r == MatchParts(segments[1..], parts[1..], more).value;
        assert Fill(segments, r) == [parts[0]] + parts[1..];
      } else {
        LastFills(segments, parts, params);
        assert Fill(segments[1..], r) == [];
      }
    }
  }

  lemma LastFills(segments: Pattern, parts: seq<Bytes>, params: Params)
    requires WellFormed(segments) && PathParts(parts) && segments != []
    requires parts == [] || segments[0].kind.CatchAll? || segments[0].kind.OptionalCatchAll?
    requires MatchParts(segments, parts, params).Some?
    ensures |segments| == 1 && segments[0].value in MatchParts(segments, parts, params).value
    ensures FillSegment(segments[0], MatchParts(segments, parts, params).value) == parts
  {
    assert |segments| == 1;
    CatchAllFills(segments[0], parts, MatchParts(segments, parts, params).value);
  }

  lemma FirstFills(segments: Pattern, parts: seq<Bytes>, params: Params)
    requires WellFormed(segments) && DistinctNames(segments) && segments != [] && parts != []
    requires segments[0].kind.Literal? || segments[0].kind.Dynamic?
    requires MatchParts(segments, parts, params).Some?
    ensures
      var r := MatchParts(segments, parts, params).value;
      (segments[0].kind.Dynamic? ==> segments[0].value in r) && FillSegment(segments[0], r) == [parts[0]]
  {
    NamesCons(segments);
    MatchBinds(segments[1..], parts[1..],
               if segments[0].kind.Literal? then params else params[segments[0].value := parts[0]]);
  }

  lemma PathTail(parts: seq<Bytes>)
    requires PathParts(parts) && parts != []
    ensures PathParts(parts[1..])
  {
    forall part | part in parts[1..] ensures part in parts { }
  }

  lemma CatchAllFills(segment: Segment, parts: seq<Bytes>, params: Params)
    requires PathParts(parts) && (segment.kind.CatchAll? || segment.kind.OptionalCatchAll?)
    requires parts == [] ==> segment.kind.OptionalCatchAll?
    requires segment.value in params && params[segment.value] == Join(parts, SLASH)
    ensures FillSegment(segment, params) == parts
  {
    if parts != [] {
      SplitJoin(parts, SLASH);
      JoinNotEmpty(parts);
    }
  }

  lemma {:induction false} JoinNotEmpty(parts: seq<Bytes>)
    requires parts != [] && parts[|parts| - 1] != []
    ensures Join(parts, SLASH) != []
  {
  }

  lemma MatchFilledCatchAll(segments: Pattern, params: Params, bound: Params)
    requires |segments| == 1 && segments[0].value in params && Names(segments) <= params.Keys
    requires segments[0].kind.CatchAll? || segments[0].kind.OptionalCatchAll?
    ensures MatchParts(segments, Fill(segments, params), bound)
         == Some(bound[segments[0].value := params[segments[0].value]])
  {
    var filled := FillSegment(segments[0], params);
    assert Fill(segments, params) == filled + [] == filled;
  }

  /** Conversely, the parts a pattern stands for match it with the same parameters. */
  lemma {:induction false} MatchUndoesFill(segments: Pattern, params: Params, bound: Params)
    requires WellFormed(segments) && DistinctNames(segments) && Names(segments) <= params.Keys
    requires bound == map k | k in params && k !in Names(segments) :: params[k]
    ensures MatchParts(segments, Fill(segments, params), bound) == Some(params)
  {
    if segments == [] {
      assert bound == params;
    } else {
      NamesCons(segments);
      var value, tail := segments[0].value, Fill(segments[1..], params);
      if segments[0].kind.Literal? || segments[0].kind.Dynamic? {
        var more := if segments[0].kind.Literal? then bound else bound[value := params[value]];
        MatchUndoesFill(segments[1..], params, more);
        assert (FillSegment(segments[0], params) + tail)[1..] == tail;
      } else {
        assert segments[1..] == [] && Names([]) == {};
        assert bound[value := params[value]] == params;
        MatchFilledCatchAll(segments, params, bound);
      }
    }
  }

  // ---- Specificity ----

  function Rank(kind: Kind): nat {
    match kind
    case Literal => 4
    case Dynamic => 3
    case CatchAll => 2
    case OptionalCatchAll => 1
  }

  function Specificity(segments: Pattern): seq<nat> {
    [|segments|] + seq(|segments|, i requires 0 <= i < |segments| => Rank(segments[i].kind))
  }

  /** Rank by rank; a pattern is more specific than its proper prefixes. */
  function Compare(a: Pattern, b: Pattern): int {
    if a == [] then if b == [] then 0 else -1
    else if b == [] then 1
    else if Rank(a[0].kind) > Rank(b[0].kind) then 1
    else if Rank(a[0].kind) < Rank(b[0].kind) then -1
    else Compare(a[1..], b[1..])
  }

  /** Missing ranks count as zero, below every rank there is, so comparing padded ranks is comparing patterns. */
  method CompareSpecificity(p: Pattern, q: Pattern) returns (order: int)
    ensures order == Compare(p, q)
  {
    var a, b := Specificity(p), Specificity(q);
    var max := if |b| > |a| then |b| else |a|;
    var i := 1;
    assert p[0..] == p && q[0..] == q;
    while i < max
      invariant 1 <= i <= max
      invariant i <= |a| && i <= |b|
      invariant Compare(p, q) == Compare(p[i - 1..], q[i - 1..])
    {
      var av := if i < |a| then a[i] else 0;
      var bv := if i < |b| then b[i] else 0;
      if av > bv {
        return 1;
      }
      if av < bv {
        return -1;
      }
      assert p[i - 1..][1..] == p[i..] && q[i - 1..][1..] == q[i..];
      i := i + 1;
    }
    return if |a| > |b| then 1 else if |a| < |b| then -1 else 0;
  }

  lemma {:induction false} CompareFlips(a: Pattern, b: Pattern)
    ensures Compare(a, b) == -Compare(b, a)
  {
    if a != [] && b != [] { CompareFlips(a[1..], b[1..]); }
  }

  lemma {:induction false} CompareTransitive(a: Pattern, b: Pattern, c: Pattern)
    requires Compare(a, b) >= 0 && Compare(b, c) >= 0
    ensures Compare(a, c) >= 0
    ensures Compare(a, b) > 0 || Compare(b, c) > 0 ==> Compare(a, c) > 0
  {
    if a != [] && b != [] && c != [] && Rank(a[0].kind) == Rank(b[0].kind) == Rank(c[0].kind) {
      CompareTransitive(a[1..], b[1..], c[1..]);
    }
  }

  lemma {:induction false} EquallySpecific(a: Pattern, b: Pattern)
    requires Compare(a, b) == 0
    ensures |a| == |b| && forall i :: 0 <= i < |a| ==> a[i].kind == b[i].kind
  {
    if a != [] {
      EquallySpecific(a[1..], b[1..]);
      forall i | 0 <= i < |a| ensures a[i].kind == b[i].kind {
        if i > 0 { assert a[i] == a[1..][i - 1] && b[i] == b[1..][i - 1]; }
      }
    }
  }

  // ---- The table ----

  /** At least as specific: the order of the table. */
  const MoreSpecific := (r: Route, q: Route) => Compare(r.segments, q.segments) >= 0

  function CheckRoutes(routes: seq<Route>, seen: set<Bytes>): Result<seq<Route>, Error> {
    if routes == [] then Ok([])
    else if routes[0].id == [] then Err(NoID)
    else if routes[0].pattern in seen then Err(DuplicatePattern)
    else
      match Parse(routes[0].pattern)
      case Err(e) => Err(e)
      case Ok(segments) =>
        match CheckRoutes(routes[1..], seen + {routes[0].pattern})
        case Err(e) => Err(e)
        case Ok(rest) => Ok([routes[0].(segments := segments)] + rest)
  }

  function Table(routes: seq<Route>): Result<seq<Route>, Error> {
    match CheckRoutes(routes, {})
    case Err(e) => Err(e)
    case Ok(parsed) => Ok(Sort(MoreSpecific, parsed))
  }

  method NewTable(routes: seq<Route>) returns (r: Result<seq<Route>, Error>)
    ensures r == Table(routes)
  {
    var parsed := [];
    var seen := {};
    var i := 0;
    assert routes[0..] == routes;
    assert CheckRoutes(routes, {}).Ok? ==> [] + CheckRoutes(routes, {}).value == CheckRoutes(routes, {}).value;
    while i < |routes|
      invariant 0 <= i <= |routes|
      invariant CheckRoutes(routes, {}) ==
                match CheckRoutes(routes[i..], seen) { case Err(e) => Err(e) case Ok(rest) => Ok(parsed + rest) }
    {
      var route := routes[i];
      assert routes[i..][1..] == routes[i + 1..];
      if route.id == [] {
        return Err(NoID);
      }
      if route.pattern in seen {
        return Err(DuplicatePattern);
      }
      var pattern := ParsePattern(route.pattern);
      if pattern.Err? {
        return Err(pattern.error);
      }
      seen := seen + {route.pattern};
      var rest := CheckRoutes(routes[i + 1..], seen);
      if rest.Ok? {
        assert parsed + [route.(segments := pattern.value)] + rest.value
            == parsed + ([route.(segments := pattern.value)] + rest.value);
      }
      parsed := parsed + [route.(segments := pattern.value)];
      i := i + 1;
    }
    assert parsed + [] == parsed;
    r := Ok(Sort(MoreSpecific, parsed));
  }

  function Resolve(table: seq<Route>, path: Bytes): Option<(Route, Params)> {
    if table == [] then None
    else
      match Match(table[0].segments, path)
      case Some(params) => Some((table[0], params))
      case None => Resolve(table[1..], path)
  }

  method ResolveRoute(table: seq<Route>, path: Bytes) returns (r: Option<(Route, Params)>)
    ensures r == Resolve(table, path)
  {
    assert table[0..] == table;
    for i := 0 to |table|
      invariant Resolve(table, path) == Resolve(table[i..], path)
    {
      assert table[i..][1..] == table[i + 1..];
      var params := MatchPath(table[i].segments, path);
      if params.Some? {
        return Some((table[i], params.value));
      }
    }
    return None;
  }

  /** The best of the matching routes, in registration order: an earlier one gives way only to a strictly more specific
      one. No sorting is involved. */
  function Best(routes: seq<Route>, path: Bytes): Option<(Route, Params)> {
    if routes == [] then None
    else
      var params, later := Match(routes[0].segments, path), Best(routes[1..], path);
      if params.Some? && (later.None? || Compare(routes[0].segments, later.value.0.segments) >= 0)
      then Some((routes[0], params.value))
      else later
  }

  lemma MoreSpecificIsTotal()
    ensures TotalPreorder(MoreSpecific)
  {
    forall r: Route, q: Route ensures MoreSpecific(r, q) || MoreSpecific(q, r) {
      CompareFlips(r.segments, q.segments);
    }
    forall r: Route, q: Route, s: Route | MoreSpecific(r, q) && MoreSpecific(q, s) ensures MoreSpecific(r, s) {
      CompareTransitive(r.segments, q.segments, s.segments);
    }
  }

  /** Putting a route where the order wants it makes the table answer it where it is the better match. */
  lemma {:induction false} ResolveInserted(route: Route, table: seq<Route>, path: Bytes)
    requires Ascending(MoreSpecific, table)
    ensures
      var params, later := Match(route.segments, path), Resolve(table, path);
      Resolve(Insert(MoreSpecific, route, table), path)
      == if params.Some? && (later.None? || Compare(route.segments, later.value.0.segments) >= 0)
         then Some((route, params.value)) else later
  {
    if table == [] || MoreSpecific(route, table[0]) {
      assert ([route] + table)[1..] == table;
      if Resolve(table, path).Some? {
        ResolvedIn(table, path);
        var k :| 0 <= k < |table| && table[k] == Resolve(table, path).value.0;
        assert k > 0 ==> MoreSpecific(table[0], table[k]);
        if k > 0 { CompareTransitive(route.segments, table[0].segments, table[k].segments); }
      }
    } else {
      assert Ascending(MoreSpecific, table[1..]);
      ResolveInserted(route, table[1..], path);
    }
  }

  lemma {:induction false} ResolvedIn(table: seq<Route>, path: Bytes)
    requires Resolve(table, path).Some?
    ensures Resolve(table, path).value.0 in table
  {
    if Match(table[0].segments, path).None? { ResolvedIn(table[1..], path); }
  }

  /** Resolving on the sorted table finds what scanning the routes as registered would pick. */
  lemma {:induction false} ResolveIsBest(routes: seq<Route>, path: Bytes)
    ensures Resolve(Sort(MoreSpecific, routes), path) == Best(routes, path)
  {
    if routes != [] {
      MoreSpecificIsTotal();
      SortAscends(MoreSpecific, routes[1..]);
      ResolveIsBest(routes[1..], path);
      ResolveInserted(routes[0], Sort(MoreSpecific, routes[1..]), path);
    }
  }

  /** The pick matches, no matching route is more specific, and of equally specific ones it was registered first. */
  lemma {:induction false} BestFacts(routes: seq<Route>, path: Bytes) returns (k: nat)
    ensures Best(routes, path).None? <==> forall i :: 0 <= i < |routes| ==> Match(routes[i].segments, path).None?
    ensures Best(routes, path).Some? ==>
              && k < |routes| && Best(routes, path).value.0 == routes[k]
              && Match(routes[k].segments, path) == Some(Best(routes, path).value.1)
              && forall i :: 0 <= i < |routes| && Match(routes[i].segments, path).Some? ==>
                   && Compare(routes[k].segments, routes[i].segments) >= 0
                   && (i < k ==> Compare(routes[k].segments, routes[i].segments) > 0)
  {
    k := 0;
    if routes != [] {
      var t := routes[1..];
      var j := BestFacts(t, path);
      var best := Best(routes, path);
      if best.Some? && Best(t, path) == best && !(Match(routes[0].segments, path).Some? &&
         Compare(routes[0].segments, best.value.0.segments) >= 0) {
        k := j + 1;
        CompareFlips(routes[0].segments, best.value.0.segments);
      }
      assert forall i :: 1 <= i < |routes| ==> routes[i] == t[i - 1];
      forall i | best.Some? && 0 <= i < |routes| && Match(routes[i].segments, path).Some?
        ensures Compare(routes[k].segments, routes[i].segments) >= 0
        ensures i < k ==> Compare(routes[k].segments, routes[i].segments) > 0
      {
        if k == 0 && i > 0 {
          CompareTransitive(routes[0].segments, t[j].segments, t[i - 1].segments);
        } else if i == 0 && k == 0 {
          CompareFlips(routes[0].segments, routes[0].segments);
        }
      }
    }
  }

  /** Same segments but for the names of parameters. */
  ghost predicate SameShape(a: Pattern, b: Pattern) {
    && |a| == |b|
    && forall i :: 0 <= i < |a| ==> a[i].kind == b[i].kind && (a[i].kind.Literal? ==> a[i].value == b[i].value)
  }

  lemma BothMatchSameShape(a: Pattern, b: Pattern, path: Bytes)
    requires WellFormed(a) && WellFormed(b) && Compare(a, b) == 0
    requires Match(a, path).Some? && Match(b, path).Some?
    ensures SameShape(a, b)
  {
    var parts := SplitPath(path).value;
    EquallySpecific(a, b);
    MatchIff(a, parts, map[]);
    MatchIff(b, parts, map[]);
  }

  lemma {:induction false} CheckedFacts(routes: seq<Route>, seen: set<Bytes>)
    requires CheckRoutes(routes, seen).Ok?
    ensures |CheckRoutes(routes, seen).value| == |routes|
    ensures forall i :: 0 <= i < |routes| ==>
              && Parse(routes[i].pattern).Ok?
              && CheckRoutes(routes, seen).value[i] == routes[i].(segments := Parse(routes[i].pattern).value)
              && WellFormed(CheckRoutes(routes, seen).value[i].segments)
  {
    if routes != [] {
      CheckedFacts(routes[1..], seen + {routes[0].pattern});
      ParsedPattern(routes[0].pattern);
    }
  }

  /** A table built from the same routes in another order. */
  lemma CheckedSame(a: seq<Route>, b: seq<Route>, route: Route)
    requires multiset(a) == multiset(b) && CheckRoutes(a, {}).Ok? && CheckRoutes(b, {}).Ok?
    requires route in CheckRoutes(a, {}).value
    ensures route in CheckRoutes(b, {}).value
  {
    CheckedFacts(a, {});
    CheckedFacts(b, {});
    SameElements(a, b);
    var parsed := CheckRoutes(a, {}).value;
    var i :| 0 <= i < |parsed| && parsed[i] == route;
    assert a[i] in b;
    var j :| 0 <= j < |b| && b[j] == a[i];
    assert CheckRoutes(b, {}).value[j] == route;
  }

  /** Resolving on a built table: the route matches, is well formed, and nothing registered beats it. */
  lemma ResolveFacts(routes: seq<Route>, path: Bytes)
    requires Table(routes).Ok?
    ensures
      var parsed, r := CheckRoutes(routes, {}).value, Resolve(Table(routes).value, path);
      && (r.None? <==> forall q :: q in parsed ==> Match(q.segments, path).None?)
      && (r.Some? ==> r.value.0 in parsed && Match(r.value.0.segments, path) == Some(r.value.1)
                      && forall q :: q in parsed && Match(q.segments, path).Some? ==> MoreSpecific(r.value.0, q))
  {
    var parsed := CheckRoutes(routes, {}).value;
    ResolveIsBest(parsed, path);
    var k := BestFacts(parsed, path);
  }

  /** The order of registration decides neither whether a path resolves nor the shape of the route it resolves to. */
  lemma OrderKeepsShape(a: seq<Route>, b: seq<Route>, path: Bytes)
    requires multiset(a) == multiset(b) && Table(a).Ok? && Table(b).Ok?
    ensures
      var r, q := Resolve(Table(a).value, path), Resolve(Table(b).value, path);
      && (r.Some? <==> q.Some?)
      && (r.Some? ==> SameShape(r.value.0.segments, q.value.0.segments))
  {
    ResolveFacts(a, path);
    ResolveFacts(b, path);
    var r, q := Resolve(Table(a).value, path), Resolve(Table(b).value, path);
    if r.Some? { CheckedSame(a, b, r.value.0); }
    if q.Some? { CheckedSame(b, a, q.value.0); }
    if r.Some? {
      CompareFlips(r.value.0.segments, q.value.0.segments);
      CheckedFacts(a, {});
      CheckedFacts(b, {});
      BothMatchSameShape(r.value.0.segments, q.value.0.segments, path);
    }
  }

  /** What the routes of a table must be: identified, well written, and registered under different patterns. */
  ghost predicate Buildable(routes: seq<Route>, seen: set<Bytes>) {
    && (forall r :: r in routes ==> r.id != [] && r.pattern !in seen && Parse(r.pattern).Ok?)
    && (forall i, j :: 0 <= i < j < |routes| ==> routes[i].pattern != routes[j].pattern)
  }

  lemma BuildableCons(routes: seq<Route>, seen: set<Bytes>)
    requires routes != []
    ensures Buildable(routes, seen) <==>
            && routes[0].id != [] && routes[0].pattern !in seen && Parse(routes[0].pattern).Ok?
            && Buildable(routes[1..], seen + {routes[0].pattern})
  {
    var t, more := routes[1..], seen + {routes[0].pattern};
    if Buildable(routes, seen) {
      forall r | r in t ensures r in routes && r.pattern !in more {
        var j :| 0 <= j < |t| && t[j] == r;
        assert routes[j + 1] == r;
      }
    }
    if routes[0].id != [] && routes[0].pattern !in seen && Parse(routes[0].pattern).Ok? && Buildable(t, more) {
      forall r | r in routes ensures r.id != [] && r.pattern !in seen && Parse(r.pattern).Ok? {
        if r != routes[0] { assert r in t; }
      }
      forall i, j | 0 <= i < j < |routes| ensures routes[i].pattern != routes[j].pattern {
        assert routes[j] == t[j - 1] && t[j - 1] in t;
        if i > 0 { assert routes[i] == t[i - 1]; }
      }
    }
  }

  lemma {:induction false} CheckIff(routes: seq<Route>, seen: set<Bytes>)
    ensures CheckRoutes(routes, seen).Ok? <==> Buildable(routes, seen)
  {
    if routes != [] {
      CheckIff(routes[1..], seen + {routes[0].pattern});
      BuildableCons(routes, seen);
    }
  }

  /** End to end: a resolved path is the route's pattern filled with the returned parameters. */
  lemma ResolvedPathRebuilds(routes: seq<Route>, path: Bytes)
    requires Table(routes).Ok? && Resolve(Table(routes).value, path).Some?
    ensures SplitPath(path).Some?
    ensures
      var (route, params) := Resolve(Table(routes).value, path).value;
      DistinctNames(route.segments) ==>
        params.Keys == Names(route.segments) && Fill(route.segments, params) == SplitPath(path).value
  {
    ResolveFacts(routes, path);
    CheckedFacts(routes, {});
    SplitPathFacts(path);
    var (route, params) := Resolve(Table(routes).value, path).value;
    if DistinctNames(route.segments) {
      MatchBinds(route.segments, SplitPath(path).value, map[]);
      FillUndoesMatch(route.segments, SplitPath(path).value, map[]);
    }
  }

  // ---- Precedence ----

  /** A literal before a parameter, a parameter before a catch-all, and a catch-all before an optional one. */
  ghost predicate Narrower(a: Kind, b: Kind) {
    || (a.Literal? && (b.Dynamic? || b.CatchAll? || b.OptionalCatchAll?))
    || (a.Dynamic? && (b.CatchAll? || b.OptionalCatchAll?))
    || (a.CatchAll? && b.OptionalCatchAll?)
  }

  /** The patterns first differ at segment `i`, where `a` has the narrower kind or `b` has ended. */
  ghost predicate OutranksAt(a: Pattern, b: Pattern, i: nat) {
    && i < |a| && i <= |b| && (forall j :: 0 <= j < i ==> a[j].kind == b[j].kind)
    && (i == |b| || Narrower(a[i].kind, b[i].kind))
  }

  ghost predicate Outranks(a: Pattern, b: Pattern) {
    exists i :: OutranksAt(a, b, i)
  }

  ghost predicate SameKinds(a: Pattern, b: Pattern) {
    |a| == |b| && forall i :: 0 <= i < |a| ==> a[i].kind == b[i].kind
  }

  lemma {:induction false} CompareOutranks(a: Pattern, b: Pattern)
    requires Compare(a, b) > 0
    ensures Outranks(a, b)
  {
    if b == [] || Rank(a[0].kind) > Rank(b[0].kind) {
      assert OutranksAt(a, b, 0);
    } else {
      CompareOutranks(a[1..], b[1..]);
      var i: nat :| OutranksAt(a[1..], b[1..], i);
      forall j | 0 <= j < i + 1 ensures a[j].kind == b[j].kind {
        if j > 0 { assert a[1..][j - 1].kind == b[1..][j - 1].kind; }
      }
      assert a[i + 1] == a[1..][i] && (i < |b| - 1 ==> b[i + 1] == b[1..][i]);
      assert OutranksAt(a, b, i + 1);
    }
  }

  /** What a table answers, read off the patterns as registered: nothing only if nothing matches, and otherwise a
      matching route that every other matching one either is outranked by, or has the kinds of and comes after. */
  lemma ResolvesByPrecedence(routes: seq<Route>, path: Bytes) returns (k: nat)
    requires Table(routes).Ok?
    ensures forall i :: 0 <= i < |routes| ==> Parse(routes[i].pattern).Ok?
    ensures
      var r := Resolve(Table(routes).value, path);
      && (r.None? <==> forall i :: 0 <= i < |routes| ==> Match(Parse(routes[i].pattern).value, path).None?)
      && (r.Some? ==>
            && k < |routes| && var p := Parse(routes[k].pattern).value;
            && r.value.0 == routes[k].(segments := p) && Match(p, path) == Some(r.value.1)
            && forall i :: 0 <= i < |routes| && i != k && Match(Parse(routes[i].pattern).value, path).Some? ==>
                 var q := Parse(routes[i].pattern).value;
                 Outranks(p, q) || (SameKinds(p, q) && k < i))
  {
    var parsed := CheckRoutes(routes, {}).value;
    CheckedFacts(routes, {});
    ResolveIsBest(parsed, path);
    k := BestFacts(parsed, path);
    if Best(parsed, path).Some? {
      var p := parsed[k].segments;
      forall i | 0 <= i < |routes| && i != k && Match(parsed[i].segments, path).Some?
        ensures Outranks(p, parsed[i].segments) || (SameKinds(p, parsed[i].segments) && k < i)
      {
        if Compare(p, parsed[i].segments) > 0 {
          CompareOutranks(p, parsed[i].segments);
        } else {
          EquallySpecific(p, parsed[i].segments);
        }
      }
    }
  }

  function Values(segments: Pattern): seq<Bytes> {
    seq(|segments|, i requires 0 <= i < |segments| => segments[i].value)
  }

  ghost predicate AllLiteral(segments: Pattern) {
    forall i :: 0 <= i < |segments| ==> segments[i].kind.Literal?
  }

  lemma LiteralMatches(segments: Pattern)
    requires WellFormed(segments) && AllLiteral(segments)
    ensures MatchParts(segments, Values(segments), map[]).Some?
  {
    MatchIff(segments, Values(segments), map[]);
  }

  /** `p` is `q` followed by a segment that takes any parts or none. */
  ghost predicate OptionallyExtends(p: Pattern, q: Pattern) {
    |p| == |q| + 1 && p[..|q|] == q && p[|q|].kind.OptionalCatchAll?
  }

  lemma BeatsLiteral(p: Pattern, q: Pattern)
    requires WellFormed(p) && AllLiteral(q) && MatchParts(p, Values(q), map[]).Some?
    requires Outranks(p, q) || SameKinds(p, q)
    ensures p == q || OptionallyExtends(p, q)
  {
    MatchIff(p, Values(q), map[]);
    var n := |q|;
    if Outranks(p, q) {
      var i: nat :| OutranksAt(p, q, i);
      assert i == n;
      assert |p| == n + 1 && p[n].kind.OptionalCatchAll?;
    }
    forall i | 0 <= i < n ensures p[i] == q[i] {
      assert p[i].kind == q[i].kind && p[i].value == Values(q)[i];
    }
  }

  lemma ExtensionMatches(p: Pattern, q: Pattern)
    requires WellFormed(p) && AllLiteral(q) && OptionallyExtends(p, q)
    ensures MatchParts(p, Values(q), map[]).Some?
    ensures !Outranks(q, p) && !SameKinds(q, p)
  {
    MatchIff(p, Values(q), map[]);
    assert forall i :: 0 <= i < |q| ==> p[i] == q[i];
  }

  lemma LiteralPath(source: Bytes, q: Pattern)
    requires Parse(source) == Ok(q) && AllLiteral(q)
    ensures WellFormed(q) && SplitPath([SLASH] + Join(EscapeParts(Values(q)), SLASH)) == Some(Values(q))
  {
    ParseIff(source, q);
    forall part | part in Values(q) ensures part != [] && SLASH !in part && part != [DOT] && part != [DOT, DOT] {
      var i :| 0 <= i < |q| && Values(q)[i] == part;
      assert Writable(q[i]);
    }
    EscapedPathSplits(Values(q));
  }

  /** The path written for a route of literals resolves to these literals exactly when no registered route goes on from
      them with an optional catch-all: such a route is longer and comes first. */
  lemma LiteralRouteWinsIff(routes: seq<Route>, k: nat)
    requires Table(routes).Ok? && k < |routes| && Parse(routes[k].pattern).Ok?
    requires AllLiteral(Parse(routes[k].pattern).value)
    ensures
      var q := Parse(routes[k].pattern).value;
      var r := Resolve(Table(routes).value, [SLASH] + Join(EscapeParts(Values(q)), SLASH));
      r.Some? &&
      (r.value.0.segments == q <==>
         forall i, p :: 0 <= i < |routes| && Parse(routes[i].pattern) == Ok(p) ==> !OptionallyExtends(p, q))
  {
    var q := Parse(routes[k].pattern).value;
    var path := [SLASH] + Join(EscapeParts(Values(q)), SLASH);
    LiteralPath(routes[k].pattern, q);
    LiteralMatches(q);
    var w := ResolvesByPrecedence(routes, path);
    var p := Parse(routes[w].pattern).value;
    ParseIff(routes[w].pattern, p);
    assert SameKinds(q, q);
    BeatsLiteral(p, q);
    forall i, e | 0 <= i < |routes| && Parse(routes[i].pattern) == Ok(e) && OptionallyExtends(e, q) ensures p != q {
      ParseIff(routes[i].pattern, e);
      ExtensionMatches(e, q);
    }
  }
}
