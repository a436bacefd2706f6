/** Splitting and joining byte strings at a separator, and percent-encoding as section 2.1 of RFC 3986 has it. */
module Text {
  import opened Wrappers
  import opened Bytes

  // ---- Split and join ----

  function Join(parts: seq<Bytes>, sep: byte): Bytes {
    if parts == [] then []
    else if |parts| == 1 then parts[0]
    else parts[0] + [sep] + Join(parts[1..], sep)
  }

  /** Never empty: the text before the first separator, and so on. */
  function Split(s: Bytes, sep: byte): (parts: seq<Bytes>)
    ensures parts != []
    ensures Join(parts, sep) == s
    ensures forall part :: part in parts ==> sep !in part
  {
    if s == [] then [[]]
    else
      var rest := Split(s[1..], sep);
      if s[0] == sep then
        assert ([[]] + rest)[1..] == rest;
        assert s == [sep] + s[1..];
        [[]] + rest
      else
        assert |rest| > 1 ==> ([[s[0]] + rest[0]] + rest[1..])[1..] == rest[1..];
        assert s == [s[0]] + s[1..];
        [[s[0]] + rest[0]] + rest[1..]
  }

  /** The parts with `a` put before the first. */
  function Glue(a: Bytes, parts: seq<Bytes>): seq<Bytes>
    requires parts != []
  {
    [a + parts[0]] + parts[1..]
  }

  lemma GlueTwice(x: byte, a: Bytes, parts: seq<Bytes>)
    requires parts != []
    ensures Glue([x], Glue(a, parts)) == Glue([x] + a, parts)
  {
    assert [x] + (a + parts[0]) == [x] + a + parts[0];
    assert Glue(a, parts)[1..] == parts[1..];
  }

  lemma GlueNothing(parts: seq<Bytes>)
    requires parts != []
    ensures Glue([], parts) == parts
  {
    assert [] + parts[0] == parts[0];
  }

  lemma {:induction false} SplitPrefix(a: Bytes, s: Bytes, sep: byte)
    requires sep !in a
    ensures Split(a + s, sep) == Glue(a, Split(s, sep))
  {
    if a == [] {
      assert a + s == s;
      GlueNothing(Split(s, sep));
    } else {
      var t := a[1..] + s;
      assert (a + s)[1..] == t && (a + s)[0] == a[0];
      SplitPrefix(a[1..], s, sep);
      SplitOn(a + s, sep);
      GlueTwice(a[0], a[1..], Split(s, sep));
      assert [a[0]] + a[1..] == a;
    }
  }

  lemma SplitOn(s: Bytes, sep: byte)
    requires s != [] && s[0] != sep
    ensures Split(s, sep) == Glue([s[0]], Split(s[1..], sep))
  {
  }

  /** Splitting undoes joining where no part holds the separator. */
  lemma {:induction false} SplitJoin(parts: seq<Bytes>, sep: byte)
    requires parts != [] && forall part :: part in parts ==> sep !in part
    ensures Split(Join(parts, sep), sep) == parts
  {
    if |parts| == 1 {
      assert parts[0] + [] == parts[0];
      SplitPrefix(parts[0], [], sep);
    } else {
      var tail := Join(parts[1..], sep);
      SplitJoin(parts[1..], sep);
      SplitPrefix(parts[0], [sep] + tail, sep);
      assert ([sep] + tail)[1..] == tail;
      assert parts[0] + ([sep] + tail) == Join(parts, sep);
      assert parts[0] + [] == parts[0];
    }
  }

  // ---- Percent-encoding ----

  const PERCENT: byte := 0x25
  const PLUS: byte := 0x2b
  const SPACE: byte := 0x20

  predicate Unreserved(b: byte) {
    0x41 <= b <= 0x5a || 0x61 <= b <= 0x7a || 0x30 <= b <= 0x39 || b == 0x2d || b == 0x5f || b == 0x2e || b == 0x7e
  }

  function Hex(n: nat): byte
    requires n < 16
  {
    if n < 10 then 0x30 + n else 0x41 + (n - 10)
  }

  function Unhex(b: byte): (r: Option<nat>)
    ensures r.Some? ==> r.value < 16
  {
    if 0x30 <= b <= 0x39 then Some(b - 0x30)
    else if 0x41 <= b <= 0x46 then Some(b - 0x41 + 10)
    else if 0x61 <= b <= 0x66 then Some(b - 0x61 + 10)
    else None
  }

  function EscapeByte(b: byte): Bytes {
    if Unreserved(b) then [b]
    else if b == SPACE then [PLUS]
    else [PERCENT, Hex(b / 16), Hex(b % 16)]
  }

  function QueryEscape(s: Bytes): Bytes {
    if s == [] then [] else EscapeByte(s[0]) + QueryEscape(s[1..])
  }

  function Cons(b: byte, rest: Option<Bytes>): Option<Bytes> {
    if rest.None? then None else Some([b] + rest.value)
  }

  /** `plus` says whether a plus sign stands for a space, as it does in a query but not in a path. */
  function Unescape(s: Bytes, plus: bool): Option<Bytes> {
    if s == [] then Some([])
    else if s[0] == PERCENT then
      if |s| < 3 || Unhex(s[1]).None? || Unhex(s[2]).None? then None
      else Cons(Unhex(s[1]).value * 16 + Unhex(s[2]).value, Unescape(s[3..], plus))
    else Cons(if plus && s[0] == PLUS then SPACE else s[0], Unescape(s[1..], plus))
  }

  lemma UnescapeByte(b: byte, s: Bytes)
    ensures Unescape(EscapeByte(b) + s, true) == Cons(b, Unescape(s, true))
  {
    var t := EscapeByte(b) + s;
    if Unreserved(b) || b == SPACE {
      assert t[1..] == s;
    } else {
      assert t[3..] == s;
      assert Unhex(Hex(b / 16)) == Some(b / 16) && Unhex(Hex(b % 16)) == Some(b % 16);
    }
  }

  lemma {:induction false} UnescapeQuery(s: Bytes)
    ensures Unescape(QueryEscape(s), true) == Some(s)
  {
    if s != [] {
      assert s == [s[0]] + s[1..];
      UnescapeByte(s[0], QueryEscape(s[1..]));
      UnescapeQuery(s[1..]);
    }
  }

  const UPPER_DIGITS: Bytes :=
    [0x30, 0x31, 0x32, 0x33, 0x34, 0x35, 0x36, 0x37, 0x38, 0x39, 0x41, 0x42, 0x43, 0x44, 0x45, 0x46]
  const LOWER_DIGITS: Bytes :=
    [0x30, 0x31, 0x32, 0x33, 0x34, 0x35, 0x36, 0x37, 0x38, 0x39, 0x61, 0x62, 0x63, 0x64, 0x65, 0x66]

  predicate HexDigit(b: byte) {
    b in UPPER_DIGITS || b in LOWER_DIGITS
  }

  lemma DigitValue(b: byte, n: nat)
    requires n < 16
    ensures Unhex(b) == Some(n) <==> b == UPPER_DIGITS[n] || b == LOWER_DIGITS[n]
    ensures Unhex(b).Some? <==> HexDigit(b)
    ensures Hex(n) == UPPER_DIGITS[n]
  {
  }

  /** Letters, digits and `-_.~` stand for themselves. */
  lemma {:induction false} QueryEscapeKeeps(s: Bytes)
    requires forall b :: b in s ==>
      || 0x30 <= b <= 0x39 || 0x41 <= b <= 0x5a || 0x61 <= b <= 0x7a
      || b in [0x2d, 0x5f, 0x2e, 0x7e]
    ensures QueryEscape(s) == s
  {
    if s != [] {
      assert s[0] in s && s == [s[0]] + s[1..];
      QueryEscapeKeeps(s[1..]);
    }
  }

  /** Byte by byte: a space becomes a plus sign, any other byte that may not stand for itself two upper-case digits. */
  lemma {:induction false} QueryEscapeSpells(a: Bytes, b: byte, c: Bytes)
    requires !Unreserved(b)
    ensures QueryEscape(a + [b] + c) == QueryEscape(a)
         + (if b == SPACE then [PLUS] else [PERCENT, UPPER_DIGITS[b / 16], UPPER_DIGITS[b % 16]]) + QueryEscape(c)
  {
    DigitValue(0, b / 16);
    DigitValue(0, b % 16);
    var s := a + [b] + c;
    if a == [] {
      assert s[0] == b && s[1..] == c;
    } else {
      assert s[0] == a[0] && s[1..] == a[1..] + [b] + c;
      QueryEscapeSpells(a[1..], b, c);
    }
  }

  /** Every percent sign is followed by two digits. */
  ghost predicate WellEscaped(s: Bytes) {
    forall i :: 0 <= i < |s| && s[i] == PERCENT ==> i + 2 < |s| && HexDigit(s[i + 1]) && HexDigit(s[i + 2])
  }

  lemma WellEscapedTail(s: Bytes, n: nat)
    requires n <= |s|
    requires forall i :: 0 <= i < n && s[i] == PERCENT ==> i + 2 < |s| && HexDigit(s[i + 1]) && HexDigit(s[i + 2])
    ensures WellEscaped(s) <==> WellEscaped(s[n..])
  {
    var t := s[n..];
    if WellEscaped(t) {
      forall i | 0 <= i < |s| && s[i] == PERCENT
        ensures i + 2 < |s| && HexDigit(s[i + 1]) && HexDigit(s[i + 2])
      {
        if i >= n { assert t[i - n] == PERCENT; }
      }
    }
  }

  /** Only a percent sign without its digits is refused. */
  lemma {:induction false} UnescapeIff(s: Bytes, plus: bool)
    ensures Unescape(s, plus).Some? <==> WellEscaped(s)
  {
    if s != [] {
      if s[0] != PERCENT {
        UnescapeIff(s[1..], plus);
        WellEscapedTail(s, 1);
      } else if |s| >= 3 {
        DigitValue(s[1], 0);
        DigitValue(s[2], 0);
        if HexDigit(s[1]) && HexDigit(s[2]) {
          UnescapeIff(s[3..], plus);
          WellEscapedTail(s, 3);
        }
      }
    }
  }

  /** Digits of either case are read; in a path any other byte, a plus sign too, stands for itself. */
  lemma UnescapeReads(h: nat, l: nat, x: byte, y: byte, b: byte, s: Bytes)
    requires h < 16 && l < 16 && b != PERCENT && Unescape(s, false).Some?
    requires (x == UPPER_DIGITS[h] || x == LOWER_DIGITS[h]) && (y == UPPER_DIGITS[l] || y == LOWER_DIGITS[l])
    ensures Unescape([PERCENT, x, y] + s, false) == Some([h * 16 + l] + Unescape(s, false).value)
    ensures Unescape([b] + s, false) == Some([b] + Unescape(s, false).value)
  {
    DigitValue(x, h);
    DigitValue(y, l);
    TripleRead(x, y, h, l, s);
    assert ([b] + s)[1..] == s;
  }

  lemma TripleRead(x: byte, y: byte, h: nat, l: nat, s: Bytes)
    requires Unhex(x) == Some(h) && Unhex(y) == Some(l) && Unescape(s, false).Some?
    ensures Unescape([PERCENT, x, y] + s, false) == Some([h * 16 + l] + Unescape(s, false).value)
  {
    assert ([PERCENT, x, y] + s)[3..] == s;
  }

  /** One way to write a byte string in a path; there are others. */
  function PathEscape(s: Bytes): Bytes {
    if s == [] then []
    else (if Unreserved(s[0]) then [s[0]] else [PERCENT, Hex(s[0] / 16), Hex(s[0] % 16)]) + PathEscape(s[1..])
  }

  lemma {:induction false} UnescapePath(s: Bytes)
    ensures Unescape(PathEscape(s), false) == Some(s)
    ensures s != [] ==> PathEscape(s) != []
    ensures forall b :: b in PathEscape(s) ==> Unreserved(b) || b == PERCENT
  {
    if s != [] {
      assert s == [s[0]] + s[1..];
      var t := PathEscape(s);
      UnescapePath(s[1..]);
      if Unreserved(s[0]) {
        assert t[1..] == PathEscape(s[1..]);
      } else {
        assert t[3..] == PathEscape(s[1..]);
        assert Unhex(Hex(s[0] / 16)) == Some(s[0] / 16) && Unhex(Hex(s[0] % 16)) == Some(s[0] % 16);
      }
    }
  }

  /** Escaped text has no delimiter of the query syntax. */
  lemma {:induction false} QueryEscapeIsPlain(s: Bytes, b: byte)
    requires b in QueryEscape(s)
    ensures Unreserved(b) || b == PLUS || b == PERCENT
  {
    if b in EscapeByte(s[0]) {
    } else {
      QueryEscapeIsPlain(s[1..], b);
    }
  }
}
