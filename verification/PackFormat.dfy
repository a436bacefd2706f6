/** The pack format by position: what the bytes of a file say at which offset, which files are packs, and what a reader
    hands out. */
module PackFormat {
  import opened Wrappers
  import opened Bytes
  import opened Pack

  const GBP: Bytes := [0x89, 0x47, 0x42, 0x50, 0x0d, 0x0a, 0x1a, 0x0a]
  const GBS: Bytes := [0x89, 0x47, 0x42, 0x53, 0x0d, 0x0a, 0x1a, 0x0a]
  const JSON_ZSTD: Bytes := [0x6a, 0x73, 0x6f, 0x6e, 0x2b, 0x7a, 0x73, 0x74, 0x64]

  /** Numbers are read most significant byte first. */
  lemma {:induction false} NumberCons(b: byte, s: Bytes)
    ensures Number([b] + s) == b * Pow(|s|) + Number(s)
  {
    if s == [] {
      assert [b] + s == [b] && [b][..0] == [];
    } else {
      var init := s[..|s| - 1];
      NumberCons(b, init);
      assert ([b] + s)[..|s|] == [b] + init;
      Widen(b, Pow(|init|), Number(init), s[|s| - 1]);
    }
  }

  lemma Widen(b: int, p: int, n: int, last: int)
    ensures (b * p + n) * 256 + last == b * (256 * p) + (n * 256 + last)
  {
  }

  ghost predicate NumberAt(s: Bytes, at: nat, w: nat, n: nat) {
    at + w <= |s| && Number(s[at..at + w]) == n
  }

  ghost predicate TextAt(s: Bytes, at: nat, t: Bytes) {
    at + |t| <= |s| && s[at..at + |t|] == t
  }

  lemma Shift(a: Bytes, x: Bytes, b: Bytes)
    ensures a + (x + b) == (a + x) + b && TextAt(a + (x + b), |a|, x)
  {
    assert (a + (x + b))[|a|..|a| + |x|] == x;
  }

  lemma NumberFound(a: Bytes, n: nat, w: nat, b: Bytes)
    requires n < Pow(w)
    ensures a + (BigEndian(n, w) + b) == (a + BigEndian(n, w)) + b
    ensures NumberAt(a + (BigEndian(n, w) + b), |a|, w, n)
  {
    NumberOfBigEndian(n, w);
    Shift(a, BigEndian(n, w), b);
  }

  lemma TextPieces(a: Bytes, t: Bytes, b: Bytes)
    requires |t| < 0x1_0000
    ensures
      var s := a + (Text(t) + b);
      s == (a + Text(t)) + b && NumberAt(s, |a|, 2, |t|) && TextAt(s, |a| + 2, t)
  {
    Widths();
    var length := BigEndian(|t|, 2);
    assert Text(t) + b == length + (t + b);
    NumberFound(a, |t|, 2, t + b);
    Shift(a + length, t, b);
    assert (a + length) + t == a + Text(t);
  }

  /** A header: kind of content, format, weigher, build, codec, number of records and length of the index. */
  lemma HeaderAt(h: Header)
    requires HeaderOk(h)
    ensures
      var s, n := HeaderBytes(h), |h.buildID|;
      && |s| == 41 + n
      && TextAt(s, 0, if h.content.Plans? then GBP else GBS) && NumberAt(s, 8, 4, 1) && NumberAt(s, 12, 4, h.weigher)
      && NumberAt(s, 16, 2, n) && TextAt(s, 18, h.buildID) && NumberAt(s, 18 + n, 2, 9) && TextAt(s, 20 + n, JSON_ZSTD)
      && NumberAt(s, 29 + n, 4, h.count) && NumberAt(s, 33 + n, 8, h.indexLen)
  {
    var n := |h.buildID|;
    var sizes := BigEndian(h.count, 4) + BigEndian(h.indexLen, 8);
    var names := Text(h.buildID) + (Text(CODEC) + sizes);
    var s := HeaderBytes(h);
    var a := StartAt(h, s, names);
    var b := NamesAt(h, s, a, sizes);
    SizesAt(h, s, b);
  }

  lemma StartAt(h: Header, s: Bytes, names: Bytes) returns (a: Bytes)
    requires HeaderOk(h)
    requires s == h.content.Magic() + (BigEndian(FORMAT_VERSION, 4) + (BigEndian(h.weigher, 4) + names))
    ensures |a| == 16 && s == a + names
    ensures TextAt(s, 0, if h.content.Plans? then GBP else GBS) && NumberAt(s, 8, 4, 1) && NumberAt(s, 12, 4, h.weigher)
  {
    Widths();
    var magic, rest := h.content.Magic(), BigEndian(h.weigher, 4) + names;
    Shift([], magic, BigEndian(1, 4) + rest);
    assert [] + (magic + (BigEndian(1, 4) + rest)) == s;
    NumberFound(magic, 1, 4, rest);
    NumberFound(magic + BigEndian(1, 4), h.weigher, 4, names);
    a := magic + BigEndian(1, 4) + BigEndian(h.weigher, 4);
  }

  lemma NamesAt(h: Header, s: Bytes, a: Bytes, sizes: Bytes) returns (b: Bytes)
    requires HeaderOk(h) && |a| == 16 && s == a + (Text(h.buildID) + (Text(CODEC) + sizes))
    ensures |b| == 29 + |h.buildID| && s == b + sizes
    ensures
      var n := |h.buildID|;
      && NumberAt(s, 16, 2, n) && TextAt(s, 18, h.buildID) && NumberAt(s, 18 + n, 2, 9) && TextAt(s, 20 + n, JSON_ZSTD)
  {
    TextPieces(a, h.buildID, Text(CODEC) + sizes);
    TextPieces(a + Text(h.buildID), CODEC, sizes);
    b := a + Text(h.buildID) + Text(CODEC);
  }

  lemma SizesAt(h: Header, s: Bytes, b: Bytes)
    requires HeaderOk(h) && |b| == 29 + |h.buildID| && s == b + (BigEndian(h.count, 4) + BigEndian(h.indexLen, 8))
    ensures NumberAt(s, 29 + |h.buildID|, 4, h.count) && NumberAt(s, 33 + |h.buildID|, 8, h.indexLen)
  {
    Widths();
    NumberFound(b, h.count, 4, BigEndian(h.indexLen, 8));
    NumberFound(b + BigEndian(h.count, 4), h.indexLen, 8, []);
    assert BigEndian(h.indexLen, 8) + [] == BigEndian(h.indexLen, 8);
  }

  /** An index entry: the key, five numbers and the digest. */
  lemma EntryAt(rec: Record)
    requires EntryOk(rec)
    ensures
      var s, k := Entry(rec), |rec.key|;
      && |s| == 74 + k && NumberAt(s, 0, 2, k) && TextAt(s, 2, rec.key)
      && NumberAt(s, 2 + k, 8, rec.offset) && NumberAt(s, 10 + k, 8, rec.length)
      && NumberAt(s, 18 + k, 8, rec.encodedLen) && NumberAt(s, 26 + k, 8, rec.decodedWeight)
      && NumberAt(s, 34 + k, 8, rec.peakWeight)
      && TextAt(s, 42 + k, rec.digest)
  {
    var s, k := Entry(rec), |rec.key|;
    Widths();
    assert s == Entry(rec) + [];
    EntryParts(rec, [], s);
    EntryKey(rec, FieldBytes(rec), s);
    var f := s[2 + k..];
    assert s[2 + k..10 + k] == f[..8] && s[10 + k..18 + k] == f[8..16] && s[18 + k..26 + k] == f[16..24];
    assert s[26 + k..34 + k] == f[24..32] && s[34 + k..42 + k] == f[32..40] && s[42 + k..74 + k] == f[40..72];
  }

  // ---- Which files are packs ----

  /** The file starts with the header and index of `o`; keys ascend, records are of permitted sizes and lie apart behind
      the index and within the file. */
  ghost predicate IsPack(c: ContentType, file: Bytes, o: Opened) {
    var h, start := o.header, |HeaderBytes(o.header)| + |IndexBytes(o.records)|;
    && (c.Plans? || c.Static?) && h.content == c && h.weigher < 0x1_0000_0000 && 1 <= |h.buildID| <= 256
    && h.count == |o.records| <= 0x10_0000 && h.indexLen == |IndexBytes(o.records)| < 0x1_0000_0000_0000_0000
    && HeaderBytes(h) + IndexBytes(o.records) <= file
    && (forall i :: 0 <= i < |o.records| ==> RecordOk(o.records[i], start, |file|))
    && (forall i, j :: 0 <= i < j < |o.records| ==> Smaller(o.records[i].key, o.records[j].key))
    && (forall i, j :: 0 <= i < j < |o.records| ==>
          || o.records[i].offset + o.records[i].length <= o.records[j].offset
          || o.records[j].offset + o.records[j].length <= o.records[i].offset)
  }

  ghost predicate RecordOk(rec: Record, start: nat, end: nat) {
    && 1 <= |rec.key| <= 1024 && 1 <= rec.length <= 0x4000_0000 && 1 <= rec.encodedLen <= 0x4000_0000
    && rec.decodedWeight < 0x1_0000_0000_0000_0000 && rec.peakWeight < 0x1_0000_0000_0000_0000
    && rec.offset < 0x1_0000_0000_0000_0000 && start <= rec.offset && rec.offset + rec.length <= end
  }

  lemma KeysAscendIff(records: seq<Record>)
    ensures KeysAscend(records) <==>
            forall i, j :: 0 <= i < j < |records| ==> Smaller(records[i].key, records[j].key)
  {
    forall i, j | 0 <= i < j < |records|
      ensures Before(records[i].key, records[j].key) <==> Smaller(records[i].key, records[j].key)
    {
      BeforeIff(records[i].key, records[j].key);
    }
  }

  lemma DisjointIff(records: seq<Record>)
    requires KeysAscend(records)
    ensures Disjoint(records) <==>
            forall i, j :: 0 <= i < j < |records| ==>
              || records[i].offset + records[i].length <= records[j].offset
              || records[j].offset + records[j].length <= records[i].offset
  {
    if Disjoint(records) { DisjointApart(records); }
    if forall i, j :: 0 <= i < j < |records| ==>
         || records[i].offset + records[i].length <= records[j].offset
         || records[j].offset + records[j].length <= records[i].offset
    {
      forall a, b | a in records && b in records && a != b
        ensures a.offset + a.length <= b.offset || b.offset + b.length <= a.offset
      {
        var i :| 0 <= i < |records| && records[i] == a;
        var j :| 0 <= j < |records| && records[j] == b;
      }
    }
  }

  lemma EntriesOkIff(records: seq<Record>, start: nat, size: nat)
    ensures EntriesOk(records, start, size) <==>
            forall i :: 0 <= i < |records| ==> RecordOk(records[i], start, size)
  {
    if EntriesOk(records, start, size) {
      forall i | 0 <= i < |records| ensures RecordOk(records[i], start, size) {
        assert records[i] in records;
      }
    }
  }

  lemma DescribesIff(file: Bytes, o: Opened)
    ensures Describes(o, file) <==> IsPack(o.header.content, file, o)
  {
    var h, start := o.header, HeaderLen(o.header) + |IndexBytes(o.records)|;
    KeysAscendIff(o.records);
    EntriesOkIff(o.records, start, |file|);
    if KeysAscend(o.records) { DisjointIff(o.records); }
    assert HeaderOk(h) <==> (h.content.Plans? || h.content.Static?) && h.weigher < 0x1_0000_0000
                            && 1 <= |h.buildID| <= 256 && h.count <= 0x10_0000 && h.indexLen < 0x1_0000_0000_0000_0000;
  }

  /** Exactly the packs are opened, each as what it describes. */
  lemma OpenIffPack(c: ContentType, file: Bytes, o: Opened)
    ensures OpenRaw(c, file) == Ok(o) <==> IsPack(c, file, o)
  {
    OpenRawIff(c, file, o);
    DescribesIff(file, o);
  }

  // ---- What a reader hands out ----

  /** Weights count only if this package's weigher wrote them; otherwise they are taken from the length. */
  lemma WeightsIff(c: ContentType, file: Bytes, raw: Opened, o: Opened)
    requires OpenRaw(c, file) == Ok(raw) && Open(c, file) == Ok(o)
    ensures o.header == raw.header && |o.records| == |raw.records|
    ensures forall i :: 0 <= i < |o.records| ==>
              var a, b := raw.records[i], o.records[i];
              && b == a.(decodedWeight := b.decodedWeight, peakWeight := b.peakWeight)
              && (raw.header.weigher == 1 ==> b == a)
              && (raw.header.weigher != 1 && c == Static ==>
                    b.decodedWeight == 3 * a.encodedLen && b.peakWeight == 5 * a.encodedLen)
              && (raw.header.weigher != 1 && c == Plans ==>
                    b.decodedWeight == 5 * a.encodedLen && b.peakWeight == 8 * a.encodedLen)
  {
    OpenRawIff(c, file, raw);
  }

  /** The record indexed under the key has these bytes and their digest. */
  ghost predicate IsRecordOf(digest: Bytes -> Digest, rec: Record, file: Bytes, key: Bytes, stored: Bytes) {
    rec.key == key && |stored| == rec.length && TextAt(file, rec.offset, stored) && digest(stored) == rec.digest
  }

  lemma ReadIs(digest: Bytes -> Digest, o: Opened, file: Bytes, key: Bytes, rec: Record, stored: Bytes)
    requires Lookup(o, key) == Some(rec) && rec.key == key && rec.offset + rec.length <= |file|
    ensures ReadRecord(digest, o, file, key) == Ok(stored) <==> IsRecordOf(digest, rec, file, key, stored)
    ensures ReadRecord(digest, o, file, key).Err? ==> ReadRecord(digest, o, file, key) == Err(DigestMismatch)
  {
  }

  lemma FoundOnce(o: Opened, key: Bytes, rec: Record)
    requires KeysAscend(o.records)
    ensures Lookup(o, key) == Some(rec) <==> rec in o.records && rec.key == key
    ensures Lookup(o, key).None? <==> forall r :: r in o.records ==> r.key != key
  {
    LookupIff(o, key, rec);
    if Lookup(o, key).Some? { LookupIff(o, key, Lookup(o, key).value); }
    forall r | r in o.records && r.key == key ensures Lookup(o, key).Some? { LookupIff(o, key, r); }
  }

  /** Of an opened file a record is read exactly as the bytes it is indexed at, and only if they have the digest it is
      indexed with; a key that is not indexed is not found. */
  lemma ReadRecordIff(
      digest: Bytes -> Digest, c: ContentType, file: Bytes, o: Opened, key: Bytes, stored: Bytes)
    requires Open(c, file) == Ok(o)
    ensures ReadRecord(digest, o, file, key) == Ok(stored) <==>
            exists rec :: rec in o.records && IsRecordOf(digest, rec, file, key, stored)
    ensures ReadRecord(digest, o, file, key) == Err(NotFound) <==> forall rec :: rec in o.records ==> rec.key != key
    ensures ReadRecord(digest, o, file, key).Err? ==>
              ReadRecord(digest, o, file, key).error in {NotFound, DigestMismatch}
  {
    OpenedIsSound(c, file, o);
    if Lookup(o, key).None? {
      forall rec { FoundOnce(o, key, rec); }
    } else {
      var rec := Lookup(o, key).value;
      FoundOnce(o, key, rec);
      forall r | r in o.records && r.key == key ensures r == rec { FoundOnce(o, key, r); }
      var i :| 0 <= i < |o.records| && o.records[i] == rec;
      assert InRegion(o.records[i], HeaderLen(o.header) + o.header.indexLen, |file|);
      ReadIs(digest, o, file, key, rec, stored);
    }
  }
}
