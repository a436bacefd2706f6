/** The pack container: a header, an index sorted by key, and the stored records. The reader is shown to accept exactly
    the files of that form; that the writer's files are read back, and that accepted files re-encode to their own
    prefix, follow from it. */
module Pack {
  import opened Wrappers
  import opened Bytes
  import opened Lists
  import opened Sorting

  const FORMAT_VERSION := 1
  const WEIGHER_VERSION := 1
  const CODEC: Bytes := [0x6a, 0x73, 0x6f, 0x6e, 0x2b, 0x7a, 0x73, 0x74, 0x64]
  const MAX_BUILD_ID_LEN := 256
  const MAX_KEY_LEN := 1024
  const MAX_RECORDS := 0x10_0000
  const MAX_STORED_LEN := 0x4000_0000
  const MAX_ENCODED_LEN := 0x4000_0000
  const DIGEST_LEN := 32
  const ENTRY_FIXED := 2 + 5 * 8 + DIGEST_LEN

  type Digest = d: Bytes | |d| == DIGEST_LEN witness seq(DIGEST_LEN, _ => 0)

  datatype ContentType = Plans | Static | Unknown {
    function Magic(): (m: Bytes)
      ensures |m| == 8
    {
      if Static? then [0x89, 0x47, 0x42, 0x53, 0x0d, 0x0a, 0x1a, 0x0a]
      else [0x89, 0x47, 0x42, 0x50, 0x0d, 0x0a, 0x1a, 0x0a]
    }
  }

  datatype Record = Record(
    key: Bytes, offset: nat, length: nat, encodedLen: nat, decodedWeight: nat, peakWeight: nat, digest: Digest)

  datatype Header = Header(content: ContentType, weigher: nat, buildID: Bytes, count: nat, indexLen: nat)

  datatype Error =
    | InvalidContent | WrongContent | BadMagic | Truncated | UnsupportedFormat | BadLength | UnsupportedCodec
    | TooManyRecords | IndexTooLong | DuplicateKey | NotSorted | OutsideRegion | TrailingBytes | Overlap
    | NotFound | DigestMismatch | EncodedTooLong | InvalidEntry

  // ---- Layout ----

  function Text(s: Bytes): Bytes {
    BigEndian(|s|, 2) + s
  }

  function HeaderBytes(h: Header): Bytes {
    h.content.Magic() + (BigEndian(FORMAT_VERSION, 4) + (BigEndian(h.weigher, 4) + (Text(h.buildID) + (Text(CODEC)
    + (BigEndian(h.count, 4) + BigEndian(h.indexLen, 8))))))
  }

  function HeaderLen(h: Header): (n: nat)
    ensures n == |HeaderBytes(h)|
  {
    16 + 2 + |h.buildID| + 2 + |CODEC| + 4 + 8
  }

  function FieldBytes(rec: Record): Bytes {
    BigEndian(rec.offset, 8) + (BigEndian(rec.length, 8) + (BigEndian(rec.encodedLen, 8)
    + (BigEndian(rec.decodedWeight, 8) + (BigEndian(rec.peakWeight, 8) + rec.digest))))
  }

  function Entry(rec: Record): (s: Bytes)
    ensures |s| == ENTRY_FIXED + |rec.key|
  {
    Text(rec.key) + FieldBytes(rec)
  }

  function IndexBytes(records: seq<Record>): Bytes {
    if records == [] then [] else Entry(records[0]) + IndexBytes(records[1..])
  }

  predicate EntryOk(rec: Record) {
    && 1 <= |rec.key| <= MAX_KEY_LEN && 1 <= rec.length <= MAX_STORED_LEN && 1 <= rec.encodedLen <= MAX_ENCODED_LEN
    && rec.offset < 0x1_0000_0000_0000_0000 && rec.decodedWeight < 0x1_0000_0000_0000_0000
    && rec.peakWeight < 0x1_0000_0000_0000_0000
  }

  predicate HeaderOk(h: Header) {
    && !h.content.Unknown? && h.weigher < 0x1_0000_0000 && 1 <= |h.buildID| <= MAX_BUILD_ID_LEN
    && h.count <= MAX_RECORDS && h.indexLen < 0x1_0000_0000_0000_0000
  }

  // ---- Reading ----

  function ReadNumber(s: Bytes, w: nat): Result<(nat, Bytes), Error> {
    if |s| < w then Err(Truncated) else Ok((Number(s[..w]), s[w..]))
  }

  function ReadText(s: Bytes, maxLen: nat): Result<(Bytes, Bytes), Error> {
    match ReadNumber(s, 2)
    case Err(e) => Err(e)
    case Ok((n, rest)) =>
      if n == 0 || n > maxLen then Err(BadLength)
      else if |rest| < n then Err(Truncated)
      else Ok((rest[..n], rest[n..]))
  }

  function ReadMagic(c: ContentType, s: Bytes): Result<Bytes, Error> {
    if c.Unknown? then Err(InvalidContent)
    else if |s| < 8 then Err(Truncated)
    else if s[..8] == c.Magic() then Ok(s[8..])
    else if s[..8] == Plans.Magic() || s[..8] == Static.Magic() then Err(WrongContent)
    else Err(BadMagic)
  }

  function ReadHeader(c: ContentType, file: Bytes): Result<(Header, Bytes), Error> {
    match ReadMagic(c, file)
    case Err(e) => Err(e)
    case Ok(s1) =>
      match ReadNumber(s1, 4)
      case Err(e) => Err(e)
      case Ok((version, s2)) =>
        if version != FORMAT_VERSION then Err(UnsupportedFormat) else
        match ReadNumber(s2, 4)
        case Err(e) => Err(e)
        case Ok((weigher, s3)) => ReadNames(c, weigher, s3)
  }

  function ReadNames(c: ContentType, weigher: nat, s: Bytes): Result<(Header, Bytes), Error> {
    match ReadText(s, MAX_BUILD_ID_LEN)
    case Err(e) => Err(e)
    case Ok((buildID, s1)) =>
      match ReadText(s1, MAX_BUILD_ID_LEN)
      case Err(e) => Err(e)
      case Ok((codec, s2)) =>
        if codec != CODEC then Err(UnsupportedCodec) else
        match ReadSizes(s2)
        case Err(e) => Err(e)
        case Ok((count, indexLen, rest)) => Ok((Header(c, weigher, buildID, count, indexLen), rest))
  }

  function ReadSizes(s: Bytes): Result<(nat, nat, Bytes), Error> {
    match ReadNumber(s, 4)
    case Err(e) => Err(e)
    case Ok((count, s1)) =>
      if count > MAX_RECORDS then Err(TooManyRecords) else
      match ReadNumber(s1, 8)
      case Err(e) => Err(e)
      case Ok((indexLen, rest)) => Ok((count, indexLen, rest))
  }

  /** The five numbers and the digest that follow a key. */
  function ParseFields(key: Bytes, f: Bytes): Record
    requires |f| >= 5 * 8 + DIGEST_LEN
  {
    Record(key, Number(f[..8]), Number(f[8..16]), Number(f[16..24]), Number(f[24..32]), Number(f[32..40]),
           f[40..40 + DIGEST_LEN])
  }

  function ParseEntry(index: Bytes): Result<(Record, Bytes), Error> {
    if |index| < 2 then Err(Truncated) else
    var keyLen := Number(index[..2]);
    if keyLen == 0 || keyLen > MAX_KEY_LEN then Err(BadLength)
    else if |index| < ENTRY_FIXED + keyLen then Err(Truncated)
    else
      var rec := ParseFields(index[2..2 + keyLen], index[2 + keyLen..]);
      if rec.length == 0 || rec.length > MAX_STORED_LEN then Err(BadLength)
      else if rec.encodedLen == 0 || rec.encodedLen > MAX_ENCODED_LEN then Err(BadLength)
      else Ok((rec, index[ENTRY_FIXED + keyLen..]))
  }

  predicate InRegion(rec: Record, start: nat, size: nat) {
    start <= rec.offset <= size && rec.length <= size - rec.offset
  }

  /** What the reader checks of a parsed entry after the records before it. */
  function Admit(before: seq<Record>, rec: Record, start: nat, size: nat): Option<Error> {
    if before != [] && before[|before| - 1].key == rec.key then Some(DuplicateKey)
    else if before != [] && !Before(before[|before| - 1].key, rec.key) then Some(NotSorted)
    else if !InRegion(rec, start, size) then Some(OutsideRegion)
    else None
  }

  type EntryParser = Bytes -> Result<(Record, Bytes), Error>

  function ReadEntries(parse: EntryParser, index: Bytes, count: nat, before: seq<Record>, start: nat, size: nat)
    : Result<seq<Record>, Error>
    decreases count
  {
    if count == 0 then if index == [] then Ok(before) else Err(TrailingBytes)
    else
      match NextEntry(parse, index, before, start, size)
      case Err(e) => Err(e)
      case Ok((rec, rest)) => ReadEntries(parse, rest, count - 1, before + [rec], start, size)
  }

  function NextEntry(parse: EntryParser, index: Bytes, before: seq<Record>, start: nat, size: nat)
    : Result<(Record, Bytes), Error>
  {
    match parse(index)
    case Err(e) => Err(e)
    case Ok((rec, rest)) => if Admit(before, rec, start, size).Some? then Err(Admit(before, rec, start, size).value)
                            else Ok((rec, rest))
  }

  const OffsetOrder := (a: Record, b: Record) => a.offset <= b.offset

  /** Only neighbours in offset order are compared. */
  predicate NeighboursApart(spans: seq<Record>) {
    forall i :: 1 <= i < |spans| ==> spans[i - 1].offset + spans[i - 1].length <= spans[i].offset
  }

  datatype Opened = Opened(header: Header, records: seq<Record>)

  function OpenIndex(h: Header, rest: Bytes, start: nat, size: nat): Result<Opened, Error> {
    if h.indexLen > |rest| then Err(IndexTooLong) else
    match ReadEntries(ParseEntry, rest[..h.indexLen], h.count, [], start + h.indexLen, size)
    case Err(e) => Err(e)
    case Ok(records) => if NeighboursApart(Sort(OffsetOrder, records)) then Ok(Opened(h, records)) else Err(Overlap)
  }

  /** The checks on opening, before weights of a foreign weigher are replaced. */
  function OpenRaw(c: ContentType, file: Bytes): Result<Opened, Error> {
    match ReadHeader(c, file)
    case Err(e) => Err(e)
    case Ok((h, rest)) => OpenIndex(h, rest, HeaderLen(h), |file|)
  }

  function Fallback(c: ContentType, rec: Record): Record {
    if c.Static? then rec.(decodedWeight := rec.encodedLen * (5 - 2), peakWeight := rec.encodedLen * 5)
    else rec.(decodedWeight := rec.encodedLen * (8 - 3), peakWeight := rec.encodedLen * 8)
  }

  function WithFallback(c: ContentType, records: seq<Record>): seq<Record> {
    seq(|records|, i requires 0 <= i < |records| => Fallback(c, records[i]))
  }

  function Reweigh(o: Opened): Opened {
    if o.header.weigher == WEIGHER_VERSION then o
    else o.(records := WithFallback(o.header.content, o.records))
  }

  function Open(c: ContentType, file: Bytes): Result<Opened, Error> {
    match OpenRaw(c, file)
    case Err(e) => Err(e)
    case Ok(o) => Ok(Reweigh(o))
  }

  function KeyMap(records: seq<Record>): (m: map<Bytes, nat>)
    ensures forall k :: k in m ==> m[k] < |records| && records[m[k]].key == k
  {
    if records == [] then map[]
    else KeyMap(records[..|records| - 1])[records[|records| - 1].key := |records| - 1]
  }

  function Lookup(o: Opened, key: Bytes): Option<Record> {
    var byKey := KeyMap(o.records);
    if key in byKey then Some(o.records[byKey[key]]) else None
  }

  function ReadRecord(digest: Bytes -> Digest, o: Opened, file: Bytes, key: Bytes): Result<Bytes, Error> {
    match Lookup(o, key)
    case None => Err(NotFound)
    case Some(rec) =>
      if rec.offset + rec.length > |file| then Err(Truncated)
      else
        var stored := file[rec.offset..rec.offset + rec.length];
        if digest(stored) != rec.digest then Err(DigestMismatch) else Ok(stored)
  }

  // ---- What the reader accepts ----

  ghost predicate KeysAscend(records: seq<Record>) {
    forall i, j :: 0 <= i < j < |records| ==> Before(records[i].key, records[j].key)
  }

  ghost predicate Disjoint(records: seq<Record>) {
    forall a, b :: a in records && b in records && a != b ==>
      a.offset + a.length <= b.offset || b.offset + b.length <= a.offset
  }

  ghost predicate EntriesOk(records: seq<Record>, start: nat, size: nat) {
    forall rec :: rec in records ==> EntryOk(rec) && InRegion(rec, start, size)
  }

  ghost predicate Indexes(o: Opened, index: Bytes, start: nat, size: nat) {
    && o.header.count == |o.records| && o.header.indexLen == |index| && index == IndexBytes(o.records)
    && EntriesOk(o.records, start + |index|, size) && KeysAscend(o.records) && Disjoint(o.records)
  }

  /** `file` is the header and index of `o`, followed by a region in which its records lie apart. */
  ghost predicate Describes(o: Opened, file: Bytes) {
    && HeaderOk(o.header)
    && HeaderBytes(o.header) + IndexBytes(o.records) <= file
    && Indexes(o, IndexBytes(o.records), HeaderLen(o.header), |file|)
  }

  lemma Prefix(a: Bytes, b: Bytes)
    ensures (a + b)[..|a|] == a && (a + b)[|a|..] == b
  {
  }

  lemma ReadNumberIff(s: Bytes, w: nat, n: nat, rest: Bytes)
    ensures ReadNumber(s, w) == Ok((n, rest)) <==> n < Pow(w) && s == BigEndian(n, w) + rest
  {
    if |s| >= w { BigEndianOfNumber(s[..w]); }
    if n < Pow(w) {
      NumberOfBigEndian(n, w);
      Prefix(BigEndian(n, w), rest);
    }
  }

  lemma ReadTextIff(s: Bytes, maxLen: nat, t: Bytes, rest: Bytes)
    requires maxLen < 0x1_0000
    ensures ReadText(s, maxLen) == Ok((t, rest)) <==> 1 <= |t| <= maxLen && s == Text(t) + rest
  {
    Widths();
    if ReadText(s, maxLen) == Ok((t, rest)) {
      ReadNumberIff(s, 2, |t|, s[2..]);
      assert s[2..] == t + rest;
    }
    if 1 <= |t| <= maxLen && s == Text(t) + rest {
      assert s == BigEndian(|t|, 2) + (t + rest);
      ReadNumberIff(s, 2, |t|, t + rest);
      Prefix(t, rest);
    }
  }

  lemma ReadMagicIff(c: ContentType, s: Bytes, rest: Bytes)
    ensures ReadMagic(c, s) == Ok(rest) <==> !c.Unknown? && s == c.Magic() + rest
  {
    Prefix(c.Magic(), rest);
    if |s| >= 8 { assert s == s[..8] + s[8..]; }
  }

  lemma ReadSizesIff(s: Bytes, count: nat, indexLen: nat, rest: Bytes)
    ensures ReadSizes(s) == Ok((count, indexLen, rest)) <==>
            count <= MAX_RECORDS && indexLen < 0x1_0000_0000_0000_0000
            && s == BigEndian(count, 4) + (BigEndian(indexLen, 8) + rest)
  {
    Widths();
    var s1 := BigEndian(indexLen, 8) + rest;
    ReadNumberIff(s, 4, count, s1);
    ReadNumberIff(s1, 8, indexLen, rest);
    if |s| >= 4 {
      ReadNumberIff(s, 4, Number(s[..4]), s[4..]);
      ReadNumberIff(s[4..], 8, indexLen, rest);
    }
  }

  lemma ReadNamesIff(c: ContentType, weigher: nat, s: Bytes, h: Header, rest: Bytes)
    ensures ReadNames(c, weigher, s) == Ok((h, rest)) <==>
            && h.content == c && h.weigher == weigher && 1 <= |h.buildID| <= MAX_BUILD_ID_LEN
            && h.count <= MAX_RECORDS && h.indexLen < 0x1_0000_0000_0000_0000
            && s == Text(h.buildID) + (Text(CODEC) + (BigEndian(h.count, 4) + (BigEndian(h.indexLen, 8) + rest)))
  {
    var s2 := BigEndian(h.count, 4) + (BigEndian(h.indexLen, 8) + rest);
    var s1 := Text(CODEC) + s2;
    ReadTextIff(s, MAX_BUILD_ID_LEN, h.buildID, s1);
    ReadTextIff(s1, MAX_BUILD_ID_LEN, CODEC, s2);
    ReadSizesIff(s2, h.count, h.indexLen, rest);
    match ReadText(s, MAX_BUILD_ID_LEN)
    case Err(_) =>
    case Ok((buildID, t1)) =>
      ReadTextIff(s, MAX_BUILD_ID_LEN, buildID, t1);
      match ReadText(t1, MAX_BUILD_ID_LEN)
      case Err(_) =>
      case Ok((codec, t2)) =>
        ReadTextIff(t1, MAX_BUILD_ID_LEN, codec, t2);
        ReadSizesIff(t2, h.count, h.indexLen, rest);
  }

  lemma HeaderNested(h: Header, rest: Bytes)
    ensures HeaderBytes(h) + rest ==
            h.content.Magic() + (BigEndian(FORMAT_VERSION, 4) + (BigEndian(h.weigher, 4)
            + (Text(h.buildID) + (Text(CODEC) + (BigEndian(h.count, 4) + (BigEndian(h.indexLen, 8) + rest))))))
  {
  }

  /** The header is parsed exactly when it was printed. */
  lemma ReadHeaderIff(c: ContentType, file: Bytes, h: Header, rest: Bytes)
    ensures ReadHeader(c, file) == Ok((h, rest)) <==> h.content == c && HeaderOk(h) && file == HeaderBytes(h) + rest
  {
    Widths();
    HeaderNested(h, rest);
    var s3 := Text(h.buildID) + (Text(CODEC) + (BigEndian(h.count, 4) + (BigEndian(h.indexLen, 8) + rest)));
    var s2 := BigEndian(h.weigher, 4) + s3;
    var s1 := BigEndian(FORMAT_VERSION, 4) + s2;
    ReadMagicIff(c, file, s1);
    ReadNumberIff(s1, 4, FORMAT_VERSION, s2);
    ReadNumberIff(s2, 4, h.weigher, s3);
    ReadNamesIff(c, h.weigher, s3, h, rest);
    match ReadMagic(c, file)
    case Err(_) =>
    case Ok(t1) =>
      ReadMagicIff(c, file, t1);
      match ReadNumber(t1, 4)
      case Err(_) =>
      case Ok((version, t2)) =>
        ReadNumberIff(t1, 4, version, t2);
        match ReadNumber(t2, 4)
        case Err(_) =>
        case Ok((weigher, t3)) =>
          ReadNumberIff(t2, 4, weigher, t3);
          ReadNamesIff(c, weigher, t3, h, rest);
  }

  /** Every number fits the width it is printed with. */
  predicate Fits(rec: Record) {
    && |rec.key| < 0x1_0000 && rec.offset < 0x1_0000_0000_0000_0000 && rec.length < 0x1_0000_0000_0000_0000
    && rec.encodedLen < 0x1_0000_0000_0000_0000 && rec.decodedWeight < 0x1_0000_0000_0000_0000
    && rec.peakWeight < 0x1_0000_0000_0000_0000
  }

  lemma FieldsParse(key: Bytes, rec: Record, rest: Bytes)
    requires Fits(rec) && key == rec.key
    ensures ParseFields(key, FieldBytes(rec) + rest) == rec
    ensures (FieldBytes(rec) + rest)[72..] == rest
  {
    Widths();
    var f := FieldBytes(rec) + rest;
    assert f[..8] == BigEndian(rec.offset, 8);
    assert f[8..16] == BigEndian(rec.length, 8);
    assert f[16..24] == BigEndian(rec.encodedLen, 8);
    assert f[24..32] == BigEndian(rec.decodedWeight, 8);
    assert f[32..40] == BigEndian(rec.peakWeight, 8);
    assert f[40..72] == rec.digest;
    NumberOfBigEndian(rec.offset, 8);
    NumberOfBigEndian(rec.length, 8);
    NumberOfBigEndian(rec.encodedLen, 8);
    NumberOfBigEndian(rec.decodedWeight, 8);
    NumberOfBigEndian(rec.peakWeight, 8);
  }

  lemma EntryKey(rec: Record, fields: Bytes, index: Bytes)
    requires |rec.key| < 0x1_0000 && index == Text(rec.key) + fields
    ensures |index| >= 2 + |rec.key| && Number(index[..2]) == |rec.key|
    ensures index[2..2 + |rec.key|] == rec.key && index[2 + |rec.key|..] == fields
  {
    Widths();
    NumberOfBigEndian(|rec.key|, 2);
    assert index[..2] == BigEndian(|rec.key|, 2);
  }

  /** Where the parser finds the parts of a printed entry. */
  lemma EntryParts(rec: Record, rest: Bytes, index: Bytes)
    requires Fits(rec) && index == Entry(rec) + rest
    ensures |index| >= ENTRY_FIXED + |rec.key| && Number(index[..2]) == |rec.key|
    ensures ParseFields(index[2..2 + |rec.key|], index[2 + |rec.key|..]) == rec
    ensures index[ENTRY_FIXED + |rec.key|..] == rest
  {
    var fields := FieldBytes(rec) + rest;
    assert index == Text(rec.key) + fields;
    EntryKey(rec, fields, index);
    FieldsParse(rec.key, rec, rest);
    assert index[ENTRY_FIXED + |rec.key|..] == fields[72..];
  }

  lemma FieldsPrint(key: Bytes, f: Bytes)
    requires |f| >= 72
    ensures FieldBytes(ParseFields(key, f)) == f[..72]
  {
    BigEndianOfNumber(f[..8]);
    BigEndianOfNumber(f[8..16]);
    BigEndianOfNumber(f[16..24]);
    BigEndianOfNumber(f[24..32]);
    BigEndianOfNumber(f[32..40]);
    Join(f, 32, 40, 72);
    Join(f, 24, 32, 72);
    Join(f, 16, 24, 72);
    Join(f, 8, 16, 72);
    Join(f, 0, 8, 72);
  }

  lemma Join(f: Bytes, i: nat, j: nat, k: nat)
    requires i <= j <= k <= |f|
    ensures f[i..j] + f[j..k] == f[i..k]
  {
  }

  /** An index entry is parsed exactly when it was printed. */
  lemma ParseEntryIff(index: Bytes, rec: Record, rest: Bytes)
    ensures ParseEntry(index) == Ok((rec, rest)) <==> EntryOk(rec) && index == Entry(rec) + rest
  {
    Widths();
    if ParseEntry(index) == Ok((rec, rest)) {
      EntryPrinted(index, rec, rest);
    }
    if EntryOk(rec) && index == Entry(rec) + rest {
      EntryParsed(index, rec, rest);
    }
  }

  lemma EntryPrinted(index: Bytes, rec: Record, rest: Bytes)
    requires ParseEntry(index) == Ok((rec, rest))
    ensures EntryOk(rec) && index == Entry(rec) + rest
  {
    var keyLen := Number(index[..2]);
    assert EntryOk(rec) by { Widths(); }
    PiecesPrinted(index, keyLen, rec);
    EntryRejoins(index, keyLen);
  }

  lemma PiecesPrinted(index: Bytes, keyLen: nat, rec: Record)
    requires |index| >= ENTRY_FIXED + keyLen && keyLen == Number(index[..2])
    requires rec == ParseFields(index[2..2 + keyLen], index[2 + keyLen..])
    ensures Text(rec.key) == index[..2] + index[2..2 + keyLen] && FieldBytes(rec) == index[2 + keyLen..][..72]
  {
    FieldsPrint(rec.key, index[2 + keyLen..]);
    BigEndianOfNumber(index[..2]);
  }

  lemma EntryRejoins(index: Bytes, keyLen: nat)
    requires |index| >= ENTRY_FIXED + keyLen
    ensures index == index[..2] + index[2..2 + keyLen] + index[2 + keyLen..][..72] + index[ENTRY_FIXED + keyLen..]
  {
  }

  lemma EntryParsed(index: Bytes, rec: Record, rest: Bytes)
    requires EntryOk(rec) && index == Entry(rec) + rest
    ensures ParseEntry(index) == Ok((rec, rest))
  {
    EntryParts(rec, rest, index);
  }

  /** One more entry keeps the keys ascending exactly when it follows the last one. */
  lemma AscendMore(before: seq<Record>, rec: Record)
    requires KeysAscend(before)
    ensures KeysAscend(before + [rec]) <==> before == [] || Before(before[|before| - 1].key, rec.key)
  {
    var more := before + [rec];
    if before != [] {
      assert more[|before| - 1] == before[|before| - 1] && more[|before|] == rec;
      if Before(before[|before| - 1].key, rec.key) {
        forall i | 0 <= i < |before| ensures Before(before[i].key, rec.key) {
          if i < |before| - 1 { BeforeIsTransitive(before[i].key, before[|before| - 1].key, rec.key); }
        }
      }
    }
  }

  lemma AdmitIff(before: seq<Record>, rec: Record, start: nat, size: nat)
    requires KeysAscend(before)
    ensures Admit(before, rec, start, size).None? <==> KeysAscend(before + [rec]) && InRegion(rec, start, size)
  {
    AscendMore(before, rec);
    if before != [] { BeforeIsTotal(before[|before| - 1].key, rec.key); }
  }

  lemma {:induction false} AscendPrefix(before: seq<Record>, more: seq<Record>)
    requires KeysAscend(before + more)
    ensures KeysAscend(before)
  {
    forall i, j | 0 <= i < j < |before| ensures Before(before[i].key, before[j].key) {
      assert (before + more)[i] == before[i] && (before + more)[j] == before[j];
    }
  }

  /** `parse` undoes `Entry`. */
  ghost predicate Undoes(parse: EntryParser) {
    forall index, rec, rest :: UndoesAt(parse, index, rec, rest)
  }

  ghost predicate UndoesAt(parse: EntryParser, index: Bytes, rec: Record, rest: Bytes) {
    parse(index) == Ok((rec, rest)) <==> EntryOk(rec) && index == Entry(rec) + rest
  }

  lemma ParseEntryUndoes()
    ensures Undoes(ParseEntry)
  {
    forall index, rec, rest ensures UndoesAt(ParseEntry, index, rec, rest) {
      ParseEntryIff(index, rec, rest);
    }
  }

  ghost predicate Printed(index: Bytes, count: nat, before: seq<Record>, start: nat, size: nat, more: seq<Record>) {
    |more| == count && index == IndexBytes(more) && KeysAscend(before + more) && EntriesOk(more, start, size)
  }

  /** The index is parsed exactly when it was printed from admissible records. */
  lemma {:induction false} ReadEntriesIff(
      parse: EntryParser, index: Bytes, count: nat, before: seq<Record>, start: nat, size: nat, more: seq<Record>)
    requires Undoes(parse) && KeysAscend(before)
    ensures ReadEntries(parse, index, count, before, start, size) == Ok(before + more) <==>
            Printed(index, count, before, start, size, more)
    decreases count
  {
    if count == 0 {
      if before == before + more { assert |more| == 0; }
      assert before + [] == before;
    } else if more == [] {
      if ReadEntries(parse, index, count, before, start, size).Ok? {
        ReadEntriesGrows(parse, index, count, before, start, size);
      }
    } else {
      var tail := more[1..];
      assert before + more == before + [more[0]] + tail;
      if ReadEntries(parse, index, count, before, start, size) == Ok(before + more) {
        var rest := FirstEntry(parse, index, count, before, start, size, more);
        ReadEntriesIff(parse, rest, count - 1, before + [more[0]], start, size, tail);
        assert more == [more[0]] + tail;
      }
      if Printed(index, count, before, start, size, more) {
        assert UndoesAt(parse, index, more[0], IndexBytes(tail));
        AscendPrefix(before + [more[0]], tail);
        AdmitIff(before, more[0], start, size);
        ReadEntriesIff(parse, IndexBytes(tail), count - 1, before + [more[0]], start, size, tail);
      }
    }
  }

  lemma {:induction false} ReadEntriesGrows(
      parse: EntryParser, index: Bytes, count: nat, before: seq<Record>, start: nat, size: nat)
    requires ReadEntries(parse, index, count, before, start, size).Ok?
    ensures before <= ReadEntries(parse, index, count, before, start, size).value
    ensures |ReadEntries(parse, index, count, before, start, size).value| == |before| + count
    decreases count
  {
    if count > 0 {
      var (rec, rest) := parse(index).value;
      ReadEntriesGrows(parse, rest, count - 1, before + [rec], start, size);
    }
  }

  lemma FirstEntry(
      parse: EntryParser, index: Bytes, count: nat, before: seq<Record>, start: nat, size: nat, more: seq<Record>)
    returns (rest: Bytes)
    requires Undoes(parse) && KeysAscend(before) && count > 0 && more != []
    requires ReadEntries(parse, index, count, before, start, size) == Ok(before + more)
    ensures EntryOk(more[0]) && index == Entry(more[0]) + rest
    ensures KeysAscend(before + [more[0]]) && InRegion(more[0], start, size)
    ensures ReadEntries(parse, rest, count - 1, before + [more[0]], start, size) == Ok(before + more)
  {
    var rec := parse(index).value.0;
    rest := parse(index).value.1;
    ReadEntriesGrows(parse, rest, count - 1, before + [rec], start, size);
    assert (before + more)[|before|] == more[0] && (before + [rec])[|before|] == rec;
    assert UndoesAt(parse, index, rec, rest);
    AdmitIff(before, rec, start, size);
  }

  // ---- Overlaps ----

  lemma OffsetOrderIsTotal()
    ensures TotalPreorder(OffsetOrder)
  {
  }

  /** In offset order each span ends before every later one starts, not only before its neighbour. */
  lemma {:induction false} AllApart(spans: seq<Record>, i: nat, j: nat)
    requires NeighboursApart(spans) && i < j < |spans|
    ensures spans[i].offset + spans[i].length <= spans[j].offset
    decreases j
  {
    if i < j - 1 { AllApart(spans, i, j - 1); }
  }

  lemma RecordsDistinct(records: seq<Record>)
    requires KeysAscend(records)
    ensures Distinct(records) && forall i, j :: 0 <= i < j < |records| ==> records[i] != records[j]
  {
    DistinctIff(records);
    forall i, j | 0 <= i < j < |records| ensures records[i] != records[j] {
      assert Before(records[i].key, records[j].key);
      BeforeIsTotal(records[i].key, records[i].key);
    }
  }

  lemma ApartIsDisjoint(records: seq<Record>, spans: seq<Record>)
    requires NeighboursApart(spans) && forall rec :: rec in records ==> rec in spans
    ensures Disjoint(records)
  {
    forall a, b | a in records && b in records && a != b
      ensures a.offset + a.length <= b.offset || b.offset + b.length <= a.offset
    {
      assert a in spans && b in spans;
      var i :| 0 <= i < |spans| && spans[i] == a;
      var j :| 0 <= j < |spans| && spans[j] == b;
      if i < j { AllApart(spans, i, j); } else { AllApart(spans, j, i); }
    }
  }

  lemma DisjointIsApart(records: seq<Record>, spans: seq<Record>)
    requires Disjoint(records) && Distinct(spans) && Ascending(OffsetOrder, spans)
    requires forall rec :: rec in spans ==> rec in records && rec.length >= 1
    ensures NeighboursApart(spans)
  {
    DistinctIff(spans);
    forall i | 1 <= i < |spans| ensures spans[i - 1].offset + spans[i - 1].length <= spans[i].offset {
      assert spans[i - 1] in spans && spans[i] in spans && spans[i - 1] != spans[i];
      assert OffsetOrder(spans[i - 1], spans[i]);
    }
  }

  /** The neighbour check finds every overlap. */
  lemma OverlapIff(records: seq<Record>)
    requires KeysAscend(records) && forall rec :: rec in records ==> rec.length >= 1
    ensures NeighboursApart(Sort(OffsetOrder, records)) <==> Disjoint(records)
  {
    var spans := Sort(OffsetOrder, records);
    OffsetOrderIsTotal();
    SortAscends(OffsetOrder, records);
    SortPermutes(OffsetOrder, records);
    SameElements(spans, records);
    RecordsDistinct(records);
    OnceEach(records);
    OnceEach(spans);
    if NeighboursApart(spans) { ApartIsDisjoint(records, spans); }
    if Disjoint(records) { DisjointIsApart(records, spans); }
  }

  // ---- The reader accepts exactly what is described ----

  lemma OpenIndexIff(h: Header, rest: Bytes, start: nat, size: nat, o: Opened)
    ensures OpenIndex(h, rest, start, size) == Ok(o) <==>
            o.header == h && h.indexLen <= |rest| && Indexes(o, rest[..h.indexLen], start, size)
  {
    if h.indexLen <= |rest| {
      var index := rest[..h.indexLen];
      assert [] + o.records == o.records;
      ParseEntryUndoes();
      ReadEntriesIff(ParseEntry, index, h.count, [], start + h.indexLen, size, o.records);
      if ReadEntries(ParseEntry, index, h.count, [], start + h.indexLen, size) == Ok(o.records) {
        OverlapIff(o.records);
      }
    }
  }

  lemma PrefixSplit(a: Bytes, b: Bytes, file: Bytes)
    ensures a + b <= file <==> a <= file && b <= file[|a|..]
  {
    if a <= file && b <= file[|a|..] {
      assert file == a + file[|a|..] && file[|a|..] == b + file[|a|..][|b|..];
    }
    if a + b <= file {
      assert file == a + b + file[|a| + |b|..];
    }
  }

  lemma OpenAfterHeaderIff(file: Bytes, head: Bytes, rest: Bytes, o: Opened)
    requires file == head + rest
    ensures OpenIndex(o.header, rest, |head|, |file|) == Ok(o) <==>
            head + IndexBytes(o.records) <= file && Indexes(o, IndexBytes(o.records), |head|, |file|)
  {
    var h, index := o.header, IndexBytes(o.records);
    OpenIndexIff(h, rest, |head|, |file|, o);
    Prefix(head, rest);
    PrefixSplit(head, index, file);
    assert index <= rest <==> |index| <= |rest| && index == rest[..|index|];
  }

  lemma OpenRawIff(c: ContentType, file: Bytes, o: Opened)
    ensures OpenRaw(c, file) == Ok(o) <==> o.header.content == c && Describes(o, file)
  {
    if OpenRaw(c, file) == Ok(o) {
      AcceptedIsDescribed(c, file, o);
    }
    if o.header.content == c && Describes(o, file) {
      DescribedIsAccepted(c, file, o);
    }
  }

  lemma AcceptedIsDescribed(c: ContentType, file: Bytes, o: Opened)
    requires OpenRaw(c, file) == Ok(o)
    ensures o.header.content == c && Describes(o, file)
  {
    var (h, rest) := ReadHeader(c, file).value;
    OpenIndexIff(h, rest, HeaderLen(h), |file|, o);
    ReadHeaderIff(c, file, h, rest);
    OpenAfterHeaderIff(file, HeaderBytes(h), rest, o);
  }

  lemma DescribedIsAccepted(c: ContentType, file: Bytes, o: Opened)
    requires o.header.content == c && Describes(o, file)
    ensures OpenRaw(c, file) == Ok(o)
  {
    var head := HeaderBytes(o.header);
    PrefixSplit(head, IndexBytes(o.records), file);
    var rest := file[|head|..];
    assert file == head + rest;
    ReadHeaderIff(c, file, o.header, rest);
    OpenAfterHeaderIff(file, head, rest, o);
  }

  /** The printed index determines its records. */
  lemma {:induction false} IndexInjective(a: seq<Record>, b: seq<Record>)
    requires |a| == |b| && IndexBytes(a) == IndexBytes(b)
    requires (forall rec :: rec in a ==> Fits(rec)) && (forall rec :: rec in b ==> Fits(rec))
    ensures a == b
  {
    if a != [] {
      EntryParts(a[0], IndexBytes(a[1..]), IndexBytes(a));
      EntryParts(b[0], IndexBytes(b[1..]), IndexBytes(b));
      IndexInjective(a[1..], b[1..]);
      assert a == [a[0]] + a[1..] && b == [b[0]] + b[1..];
    }
  }

  predicate Apart(a: Record, b: Record) {
    a.offset + a.length <= b.offset || b.offset + b.length <= a.offset
  }

  ghost predicate PairwiseApart(records: seq<Record>) {
    forall i, j :: 0 <= i < j < |records| ==> Apart(records[i], records[j])
  }

  /** Replacing weights moves no record. */
  lemma ReweighMovesNothing(o: Opened)
    requires KeysAscend(o.records)
    ensures Reweigh(o).header == o.header && |Reweigh(o).records| == |o.records|
    ensures forall i :: 0 <= i < |o.records| ==>
              Reweigh(o).records[i] == o.records[i].(decodedWeight := Reweigh(o).records[i].decodedWeight,
                                                     peakWeight := Reweigh(o).records[i].peakWeight)
    ensures KeysAscend(Reweigh(o).records)
  {
  }

  lemma DisjointApart(records: seq<Record>)
    requires Disjoint(records) && KeysAscend(records)
    ensures PairwiseApart(records)
  {
    RecordsDistinct(records);
    forall i, j | 0 <= i < j < |records| ensures Apart(records[i], records[j]) {
      assert records[i] in records && records[j] in records;
    }
  }

  /** What a caller may rely on after opening a file, whoever wrote it. Under the current weigher the header and index
      re-encode to the file's own prefix. */
  lemma OpenedIsSound(c: ContentType, file: Bytes, o: Opened)
    requires Open(c, file) == Ok(o)
    ensures o.header.content == c && HeaderOk(o.header) && o.header.count == |o.records| && KeysAscend(o.records)
    ensures o.header.weigher == WEIGHER_VERSION ==> HeaderBytes(o.header) + IndexBytes(o.records) <= file
    ensures forall i :: 0 <= i < |o.records| ==>
              InRegion(o.records[i], HeaderLen(o.header) + o.header.indexLen, |file|)
    ensures PairwiseApart(o.records)
  {
    var raw := OpenRaw(c, file).value;
    OpenRawIff(c, file, raw);
    ReweighMovesNothing(raw);
    DisjointApart(raw.records);
    forall i | 0 <= i < |o.records| ensures InRegion(o.records[i], HeaderLen(o.header) + o.header.indexLen, |file|) {
      assert raw.records[i] in raw.records;
    }
    forall i, j | 0 <= i < j < |o.records| ensures Apart(o.records[i], o.records[j]) {
      assert Apart(raw.records[i], raw.records[j]);
    }
  }

  /** Every record is found under its key, and nothing else is. */
  lemma LookupIff(o: Opened, key: Bytes, rec: Record)
    requires KeysAscend(o.records)
    ensures Lookup(o, key) == Some(rec) <==> rec in o.records && rec.key == key
  {
    if rec in o.records && rec.key == key {
      var i :| 0 <= i < |o.records| && o.records[i] == rec;
      KeyMapHas(o.records, i);
      var j := KeyMap(o.records)[key];
      SameKeySamePlace(o.records, i, j);
    }
  }

  lemma {:induction false} KeyMapHas(records: seq<Record>, i: nat)
    requires i < |records|
    ensures records[i].key in KeyMap(records)
  {
    if i < |records| - 1 { KeyMapHas(records[..|records| - 1], i); }
  }

  lemma SameKeySamePlace(records: seq<Record>, i: nat, j: nat)
    requires KeysAscend(records) && i < |records| && j < |records| && records[i].key == records[j].key
    ensures i == j
  {
    BeforeIsTotal(records[i].key, records[i].key);
  }

  // ---- Writing ----

  datatype Item = Item(
    key: Bytes, stored: Bytes, digest: Digest, encodedLen: nat, decodedWeight: nat, peakWeight: nat)

  const KeyOrder := (a: Item, b: Item) => !Before(b.key, a.key)

  function Layout(items: seq<Item>, offset: nat): seq<Record> {
    if items == [] then [] else
    var it := items[0];
    [Record(it.key, offset, |it.stored|, it.encodedLen, it.decodedWeight, it.peakWeight, it.digest)]
    + Layout(items[1..], offset + |it.stored|)
  }

  function StoredBytes(items: seq<Item>): Bytes {
    if items == [] then [] else items[0].stored + StoredBytes(items[1..])
  }

  function IndexLen(items: seq<Item>): nat {
    if items == [] then 0 else ENTRY_FIXED + |items[0].key| + IndexLen(items[1..])
  }

  function WrittenHeader(c: ContentType, buildID: Bytes, sorted: seq<Item>): Header {
    Header(c, WEIGHER_VERSION, buildID, |sorted|, IndexLen(sorted))
  }

  function WrittenRecords(c: ContentType, buildID: Bytes, sorted: seq<Item>): seq<Record> {
    Layout(sorted, HeaderLen(WrittenHeader(c, buildID, sorted)) + IndexLen(sorted))
  }

  function WrittenSorted(c: ContentType, buildID: Bytes, sorted: seq<Item>): Bytes {
    HeaderBytes(WrittenHeader(c, buildID, sorted))
    + IndexBytes(WrittenRecords(c, buildID, sorted)) + StoredBytes(sorted)
  }

  function Written(c: ContentType, buildID: Bytes, items: seq<Item>): Bytes {
    WrittenSorted(c, buildID, Sort(KeyOrder, items))
  }

  /** What `add` checks, and what its callers have seen to: an entry that parsed is not empty. */
  predicate ItemOk(it: Item) {
    && 1 <= |it.key| <= MAX_KEY_LEN && 1 <= it.encodedLen <= MAX_ENCODED_LEN && it.stored != []
    && it.decodedWeight < 0x1_0000_0000_0000_0000 && it.peakWeight < 0x1_0000_0000_0000_0000
  }

  /** What a builder holds: bounded keys, each once. */
  ghost predicate ItemsOk(items: seq<Item>) {
    && |items| <= MAX_RECORDS
    && (forall it :: it in items ==> ItemOk(it))
    && (forall i, j :: 0 <= i < j < |items| ==> items[i].key != items[j].key)
  }

  /** The only bound the reader puts on a record that the builder does not. */
  predicate Readable(it: Item) {
    |it.stored| <= MAX_STORED_LEN
  }

  /** Record `i` of the layout: its place, and where its bytes are. */
  lemma {:induction false} LayoutAt(items: seq<Item>, offset: nat, i: nat)
    requires i < |items|
    ensures
      var records, bytes := Layout(items, offset), StoredBytes(items);
      && |records| == |items|
      && var rec := records[i];
      && rec == Record(items[i].key, rec.offset, |items[i].stored|, items[i].encodedLen, items[i].decodedWeight,
                       items[i].peakWeight, items[i].digest)
      && offset <= rec.offset && rec.offset + rec.length <= offset + |bytes|
      && bytes[rec.offset - offset..rec.offset - offset + rec.length] == items[i].stored
  {
    var first, rest := items[0].stored, items[1..];
    if i == 0 {
      LayoutLen(items, offset);
      Prefix(first, StoredBytes(rest));
    } else {
      LayoutAt(rest, offset + |first|, i - 1);
      var rec := Layout(rest, offset + |first|)[i - 1];
      assert Layout(items, offset)[i] == rec;
      SliceOfTail(first, StoredBytes(rest), rec.offset - offset, rec.length);
    }
  }

  lemma {:induction false} LayoutLen(items: seq<Item>, offset: nat)
    ensures |Layout(items, offset)| == |items| && |IndexBytes(Layout(items, offset))| == IndexLen(items)
  {
    if items != [] {
      var records := Layout(items, offset);
      LayoutLen(items[1..], offset + |items[0].stored|);
      assert records[1..] == Layout(items[1..], offset + |items[0].stored|);
    }
  }

  /** Records are laid out one after the other. */
  lemma {:induction false} LayoutApart(items: seq<Item>, offset: nat, i: nat, j: nat)
    requires i < j < |items|
    ensures |Layout(items, offset)| == |items|
    ensures Layout(items, offset)[i].offset + Layout(items, offset)[i].length <= Layout(items, offset)[j].offset
  {
    if i == 0 {
      LayoutAt(items[1..], offset + |items[0].stored|, j - 1);
    } else {
      LayoutApart(items[1..], offset + |items[0].stored|, i - 1, j - 1);
    }
  }

  lemma KeyOrderIsTotal()
    ensures TotalPreorder(KeyOrder)
  {
    forall a: Item, b: Item ensures KeyOrder(a, b) || KeyOrder(b, a) {
      BeforeIsTotal(a.key, b.key);
    }
    forall a: Item, b: Item, c: Item | KeyOrder(a, b) && KeyOrder(b, c) ensures KeyOrder(a, c) {
      BeforeIsTotal(a.key, b.key);
      BeforeIsTotal(b.key, c.key);
      BeforeIsTotal(a.key, c.key);
      if Before(a.key, b.key) && Before(b.key, c.key) { BeforeIsTransitive(a.key, b.key, c.key); }
    }
  }

  lemma SortedItems(items: seq<Item>)
    requires ItemsOk(items)
    ensures
      var sorted := Sort(KeyOrder, items);
      && |sorted| == |items| && (forall it :: it in sorted <==> it in items) && Distinct(sorted)
      && (forall i, j :: 0 <= i < j < |sorted| ==> Before(sorted[i].key, sorted[j].key))
  {
    var sorted := Sort(KeyOrder, items);
    KeyOrderIsTotal();
    SortAscends(KeyOrder, items);
    SortPermutes(KeyOrder, items);
    SameElements(sorted, items);
    DistinctIff(items);
    OnceEach(items);
    OnceEach(sorted);
    DistinctIff(sorted);
    forall i, j | 0 <= i < j < |sorted| ensures Before(sorted[i].key, sorted[j].key) {
      assert KeyOrder(sorted[i], sorted[j]) && sorted[i] != sorted[j];
      BeforeIsTotal(sorted[i].key, sorted[j].key);
      if sorted[i].key == sorted[j].key { KeyIdentifies(items, sorted[i], sorted[j]); }
    }
  }

  lemma KeyIdentifies(items: seq<Item>, a: Item, b: Item)
    requires ItemsOk(items) && a in items && b in items && a.key == b.key
    ensures a == b
  {
  }

  /** The file does not depend on the order in which records were added. */
  lemma WrittenIsCanonical(c: ContentType, buildID: Bytes, a: seq<Item>, b: seq<Item>)
    requires ItemsOk(a) && multiset(a) == multiset(b)
    ensures Written(c, buildID, a) == Written(c, buildID, b)
  {
    KeyOrderIsTotal();
    SortAscends(KeyOrder, a);
    SortAscends(KeyOrder, b);
    SortPermutes(KeyOrder, a);
    SortPermutes(KeyOrder, b);
    forall x, y | x in multiset(a) && y in multiset(a) && KeyOrder(x, y) && KeyOrder(y, x) ensures x == y {
      BeforeIsTotal(x.key, y.key);
      KeyIdentifies(a, x, y);
    }
    AscendingIsUnique(KeyOrder, Sort(KeyOrder, a), Sort(KeyOrder, b));
  }

  lemma {:induction false} IndexLenBound(items: seq<Item>)
    requires forall it :: it in items ==> ItemOk(it)
    ensures IndexLen(items) <= |items| * (ENTRY_FIXED + MAX_KEY_LEN)
  {
    if items != [] {
      assert items[0] in items;
      IndexLenBound(items[1..]);
    }
  }

  /** Whatever the builder holds, the header it writes is a valid one. */
  lemma WrittenHeaderOk(c: ContentType, buildID: Bytes, sorted: seq<Item>)
    requires !c.Unknown? && 1 <= |buildID| <= MAX_BUILD_ID_LEN && |sorted| <= MAX_RECORDS
    requires forall it :: it in sorted ==> ItemOk(it)
    ensures HeaderOk(WrittenHeader(c, buildID, sorted))
  {
    IndexLenBound(sorted);
  }

  /** The index entries of a file below 2^63 bytes fit their fields. */
  lemma LayoutFits(sorted: seq<Item>, start: nat)
    requires forall it :: it in sorted ==> ItemOk(it)
    requires start + |StoredBytes(sorted)| < 0x8000_0000_0000_0000
    ensures forall rec :: rec in Layout(sorted, start) ==> Fits(rec)
  {
    LayoutLen(sorted, start);
    var records := Layout(sorted, start);
    forall rec | rec in records ensures Fits(rec) {
      var i :| 0 <= i < |records| && records[i] == rec;
      LayoutAt(sorted, start, i);
      assert sorted[i] in sorted;
    }
  }

  /** A file built from `sorted` under header `h`. */
  ghost predicate Built(h: Header, sorted: seq<Item>, file: Bytes) {
    var start := HeaderLen(h) + h.indexLen;
    && HeaderOk(h) && h.count == |sorted| && h.indexLen == IndexLen(sorted)
    && file == HeaderBytes(h) + IndexBytes(Layout(sorted, start)) + StoredBytes(sorted)
    && |file| < 0x8000_0000_0000_0000
    && (forall it :: it in sorted ==> ItemOk(it))
    && (forall i, j :: 0 <= i < j < |sorted| ==> Before(sorted[i].key, sorted[j].key))
  }

  lemma BuiltSize(h: Header, sorted: seq<Item>, file: Bytes)
    requires Built(h, sorted, file)
    ensures |file| == HeaderLen(h) + h.indexLen + |StoredBytes(sorted)|
    ensures |IndexBytes(Layout(sorted, HeaderLen(h) + h.indexLen))| == h.indexLen
    ensures |Layout(sorted, HeaderLen(h) + h.indexLen)| == |sorted|
  {
    LayoutLen(sorted, HeaderLen(h) + h.indexLen);
  }

  ghost predicate AllReadable(items: seq<Item>) {
    forall it :: it in items ==> Readable(it)
  }

  lemma BuiltDescribed(h: Header, sorted: seq<Item>, file: Bytes)
    requires Built(h, sorted, file) && AllReadable(sorted)
    ensures Describes(Opened(h, Layout(sorted, HeaderLen(h) + h.indexLen)), file)
  {
    BuiltIndexes(h, sorted, HeaderLen(h), |file|) by { BuiltSize(h, sorted, file); }
  }

  lemma BuiltIndexes(h: Header, sorted: seq<Item>, start: nat, size: nat)
    requires h.count == |sorted| && h.indexLen == IndexLen(sorted) && AllReadable(sorted)
    requires size == start + h.indexLen + |StoredBytes(sorted)| < 0x8000_0000_0000_0000
    requires forall it :: it in sorted ==> ItemOk(it)
    requires forall i, j :: 0 <= i < j < |sorted| ==> Before(sorted[i].key, sorted[j].key)
    ensures var records := Layout(sorted, start + h.indexLen);
            Indexes(Opened(h, records), IndexBytes(records), start, size)
  {
    LayoutLen(sorted, start + h.indexLen);
    LaidOutOk(sorted, start + h.indexLen, size);
    LaidOutApart(sorted, start + h.indexLen);
  }

  lemma LaidOutOk(sorted: seq<Item>, start: nat, size: nat)
    requires forall it :: it in sorted ==> ItemOk(it)
    requires AllReadable(sorted) && size == start + |StoredBytes(sorted)| < 0x8000_0000_0000_0000
    ensures EntriesOk(Layout(sorted, start), start, size)
  {
    var records := Layout(sorted, start);
    forall rec | rec in records ensures EntryOk(rec) && InRegion(rec, start, size) {
      var i :| 0 <= i < |records| && records[i] == rec;
      LayoutLen(sorted, start);
      LayoutAt(sorted, start, i);
      assert sorted[i] in sorted && Readable(sorted[i]) && ItemOk(sorted[i]);
    }
  }

  lemma LaidOutApart(sorted: seq<Item>, start: nat)
    requires forall i, j :: 0 <= i < j < |sorted| ==> Before(sorted[i].key, sorted[j].key)
    ensures KeysAscend(Layout(sorted, start)) && Disjoint(Layout(sorted, start))
  {
    var records := Layout(sorted, start);
    LayoutLen(sorted, start);
    forall i, j | 0 <= i < j < |records|
      ensures Before(records[i].key, records[j].key) && records[i].offset + records[i].length <= records[j].offset
    {
      LayoutAt(sorted, start, i);
      LayoutAt(sorted, start, j);
      LayoutApart(sorted, start, i, j);
    }
    forall a, b | a in records && b in records && a != b
      ensures a.offset + a.length <= b.offset || b.offset + b.length <= a.offset
    {
      var i :| 0 <= i < |records| && records[i] == a;
      var j :| 0 <= j < |records| && records[j] == b;
      if i < j { assert records[i].offset + records[i].length <= records[j].offset; }
    }
  }

  lemma HeaderInjective(a: Header, b: Header, restA: Bytes, restB: Bytes, file: Bytes)
    requires HeaderOk(a) && HeaderOk(b) && a.content == b.content
    requires file == HeaderBytes(a) + restA && file == HeaderBytes(b) + restB
    ensures a == b && restA == restB
  {
    ReadHeaderIff(a.content, file, a, restA);
    ReadHeaderIff(a.content, file, b, restB);
  }

  /** Only the written header and index describe the written file. */
  lemma BuiltDescribedBy(h: Header, sorted: seq<Item>, file: Bytes, o: Opened)
    requires Built(h, sorted, file) && o.header.content == h.content && Describes(o, file)
    ensures o == Opened(h, Layout(sorted, HeaderLen(h) + h.indexLen)) && AllReadable(sorted)
  {
    var start := HeaderLen(h) + h.indexLen;
    var records := Layout(sorted, start);
    BuiltSize(h, sorted, file);
    LayoutFits(sorted, start);
    SamePrefix(o.header, h, IndexBytes(o.records), IndexBytes(records), StoredBytes(sorted), file);
    IndexInjective(o.records, records);
    ReadableIfOk(sorted, start, |file|);
  }

  /** A file starts with one header and, given its length, one index. */
  lemma SamePrefix(a: Header, b: Header, indexA: Bytes, indexB: Bytes, tail: Bytes, file: Bytes)
    requires HeaderOk(a) && HeaderOk(b) && a.content == b.content
    requires HeaderBytes(a) + indexA <= file && file == HeaderBytes(b) + indexB + tail
    requires a.indexLen == |indexA| && b.indexLen == |indexB|
    ensures a == b && indexA == indexB
  {
    var rest := file[HeaderLen(a)..];
    PrefixSplit(HeaderBytes(a), indexA, file);
    assert file == HeaderBytes(a) + rest;
    Reassociate(HeaderBytes(b), indexB, tail);
    HeaderInjective(a, b, rest, indexB + tail, file);
    Prefix(indexB, tail);
  }

  lemma Reassociate(a: Bytes, b: Bytes, c: Bytes)
    ensures a + b + c == a + (b + c)
  {
  }

  lemma ReadableIfOk(sorted: seq<Item>, start: nat, size: nat)
    requires EntriesOk(Layout(sorted, start), start, size)
    ensures AllReadable(sorted)
  {
    var records := Layout(sorted, start);
    forall it | it in sorted ensures Readable(it) {
      var i :| 0 <= i < |sorted| && sorted[i] == it;
      LayoutAt(sorted, start, i);
      assert records[i] in records;
    }
  }

  lemma WrittenIsBuilt(c: ContentType, buildID: Bytes, items: seq<Item>)
    requires !c.Unknown? && 1 <= |buildID| <= MAX_BUILD_ID_LEN && ItemsOk(items)
    requires |Written(c, buildID, items)| < 0x8000_0000_0000_0000
    ensures Built(WrittenHeader(c, buildID, Sort(KeyOrder, items)), Sort(KeyOrder, items), Written(c, buildID, items))
  {
    SortedItems(items);
    WrittenHeaderOk(c, buildID, Sort(KeyOrder, items));
  }

  lemma SortedReadable(items: seq<Item>)
    requires ItemsOk(items)
    ensures AllReadable(Sort(KeyOrder, items)) <==> AllReadable(items)
  {
    SortedItems(items);
  }

  /** `records` say where `file` holds the bytes of `items`. */
  ghost predicate Holds(file: Bytes, records: seq<Record>, items: seq<Item>) {
    && |records| == |items|
    && forall i :: 0 <= i < |items| ==> HoldsAt(file, records[i], items[i])
  }

  predicate HoldsAt(file: Bytes, rec: Record, it: Item) {
    && rec == Record(it.key, rec.offset, |it.stored|, it.encodedLen, it.decodedWeight, it.peakWeight, it.digest)
    && rec.offset + rec.length <= |file| && file[rec.offset..rec.offset + rec.length] == it.stored
  }

  lemma BuiltHolds(h: Header, sorted: seq<Item>, file: Bytes)
    requires Built(h, sorted, file)
    ensures Holds(file, Layout(sorted, HeaderLen(h) + h.indexLen), sorted)
  {
    var start := HeaderLen(h) + h.indexLen;
    BuiltSize(h, sorted, file);
    LayoutHolds(HeaderBytes(h) + IndexBytes(Layout(sorted, start)), sorted, start);
  }

  lemma LayoutHolds(front: Bytes, sorted: seq<Item>, start: nat)
    requires |front| == start
    ensures Holds(front + StoredBytes(sorted), Layout(sorted, start), sorted)
  {
    LayoutLen(sorted, start);
    forall i | 0 <= i < |sorted| ensures HoldsAt(front + StoredBytes(sorted), Layout(sorted, start)[i], sorted[i]) {
      LayoutHoldsAt(front, sorted, start, i);
    }
  }

  lemma LayoutHoldsAt(front: Bytes, sorted: seq<Item>, start: nat, i: nat)
    requires |front| == start && i < |sorted|
    ensures |Layout(sorted, start)| == |sorted|
    ensures HoldsAt(front + StoredBytes(sorted), Layout(sorted, start)[i], sorted[i])
  {
    LayoutAt(sorted, start, i);
    var rec := Layout(sorted, start)[i];
    SliceOfTail(front, StoredBytes(sorted), rec.offset, rec.length);
  }

  lemma SliceOfTail(a: Bytes, b: Bytes, at: nat, n: nat)
    requires |a| <= at && at + n <= |a| + |b|
    ensures (a + b)[at..at + n] == b[at - |a|..at - |a| + n]
  {
  }

  lemma BuiltOpensIff(h: Header, sorted: seq<Item>, file: Bytes)
    requires Built(h, sorted, file)
    ensures OpenRaw(h.content, file).Ok? <==> AllReadable(sorted)
    ensures AllReadable(sorted) ==>
              OpenRaw(h.content, file) == Ok(Opened(h, Layout(sorted, HeaderLen(h) + h.indexLen)))
  {
    if AllReadable(sorted) {
      BuiltDescribed(h, sorted, file);
      OpenRawIff(h.content, file, Opened(h, Layout(sorted, HeaderLen(h) + h.indexLen)));
    }
    if OpenRaw(h.content, file).Ok? {
      OpenRawIff(h.content, file, OpenRaw(h.content, file).value);
      BuiltDescribedBy(h, sorted, file, OpenRaw(h.content, file).value);
    }
  }

  /** The outcome of opening `file`, given the builder's records in key order. */
  ghost predicate ReadsBack(h: Header, sorted: seq<Item>, file: Bytes, r: Result<Opened, Error>) {
    && (r.Ok? <==> AllReadable(sorted))
    && (r.Ok? ==> r.value.header == h && Holds(file, r.value.records, sorted))
  }

  lemma BuiltReadsBack(h: Header, sorted: seq<Item>, file: Bytes)
    requires Built(h, sorted, file) && h.weigher == WEIGHER_VERSION
    ensures ReadsBack(h, sorted, file, Open(h.content, file))
  {
    BuiltOpensIff(h, sorted, file);
    BuiltHolds(h, sorted, file);
  }

  /** Reading back what the builder wrote succeeds exactly when no record is stored in more than 2^30 bytes: the builder
      bounds a record before compression only. */
  lemma ReadsBackIff(c: ContentType, buildID: Bytes, items: seq<Item>, file: Bytes, r: Result<Opened, Error>)
    requires !c.Unknown? && 1 <= |buildID| <= MAX_BUILD_ID_LEN && ItemsOk(items)
    requires file == Written(c, buildID, items) && |file| < 0x8000_0000_0000_0000
    requires r == Open(c, file)
    ensures r.Ok? <==> AllReadable(items)
    ensures r.Ok? ==> r.value.header == WrittenHeader(c, buildID, Sort(KeyOrder, items))
    ensures r.Ok? ==> Holds(file, r.value.records, Sort(KeyOrder, items))
  {
    SortedReadable(items);
    WrittenIsBuilt(c, buildID, items);
    BuiltReadsBack(WrittenHeader(c, buildID, Sort(KeyOrder, items)), Sort(KeyOrder, items), file);
  }

  /** A record the builder takes and the reader refuses: one byte too long once stored. */
  lemma OversizeIsRefused(c: ContentType, buildID: Bytes, it: Item)
    requires !c.Unknown? && 1 <= |buildID| <= MAX_BUILD_ID_LEN
    requires ItemOk(it) && |it.stored| == MAX_STORED_LEN + 1
    ensures ItemsOk([it]) && Open(c, Written(c, buildID, [it])).Err?
  {
    var file := Written(c, buildID, [it]);
    WrittenSize(c, buildID, it);
    ReadsBackIff(c, buildID, [it], file, Open(c, file));
    assert it in [it];
  }

  lemma WrittenSize(c: ContentType, buildID: Bytes, it: Item)
    requires |buildID| <= MAX_BUILD_ID_LEN && |it.key| <= MAX_KEY_LEN
    ensures |Written(c, buildID, [it])| <= 0x1000 + |it.stored|
  {
    assert Sort(KeyOrder, [it]) == [it] by {
      assert [it][1..] == [] && [it] + [] == [it];
    }
    assert [it][1..] == [];
    var h := WrittenHeader(c, buildID, [it]);
    LayoutLen([it], HeaderLen(h) + IndexLen([it]));
    assert StoredBytes([it]) == it.stored + StoredBytes([]);
    assert IndexLen([it]) == ENTRY_FIXED + |it.key| + IndexLen([]);
  }

  /** `it` is found under its key and read back. */
  ghost predicate ComesBack(digest: Bytes -> Digest, o: Opened, file: Bytes, it: Item) {
    && ReadRecord(digest, o, file, it.key) == Ok(it.stored)
    && Lookup(o, it.key).Some?
    && var rec := Lookup(o, it.key).value;
      && rec.length == |it.stored| && rec.encodedLen == it.encodedLen
      && rec.decodedWeight == it.decodedWeight && rec.peakWeight == it.peakWeight
  }

  lemma HeldComesBack(digest: Bytes -> Digest, o: Opened, file: Bytes, items: seq<Item>, i: nat)
    requires Holds(file, o.records, items) && KeysAscend(o.records) && i < |items|
    requires items[i].digest == digest(items[i].stored)
    ensures ComesBack(digest, o, file, items[i])
  {
    assert HoldsAt(file, o.records[i], items[i]);
    LookupIff(o, items[i].key, o.records[i]);
  }

  lemma OnlyHeldIsFound(o: Opened, file: Bytes, items: seq<Item>, key: Bytes)
    requires Holds(file, o.records, items) && KeysAscend(o.records) && Lookup(o, key).Some?
    ensures exists it :: it in items && it.key == key
  {
    var rec := Lookup(o, key).value;
    LookupIff(o, key, rec);
    var i :| 0 <= i < |o.records| && o.records[i] == rec;
    assert HoldsAt(file, o.records[i], items[i]);
    assert items[i] in items;
  }

  /** Every added record then comes back under its key, with its lengths, weights and stored bytes, and no other key
      is found. */
  lemma RecordsComeBack(
      digest: Bytes -> Digest, c: ContentType, buildID: Bytes, items: seq<Item>, file: Bytes, o: Opened)
    requires !c.Unknown? && 1 <= |buildID| <= MAX_BUILD_ID_LEN && ItemsOk(items)
    requires file == Written(c, buildID, items) && |file| < 0x8000_0000_0000_0000 && Open(c, file) == Ok(o)
    requires forall it :: it in items ==> it.digest == digest(it.stored)
    ensures o.header.buildID == buildID
    ensures forall it :: it in items ==> ComesBack(digest, o, file, it)
    ensures forall key :: Lookup(o, key).Some? ==> exists it :: it in items && it.key == key
  {
    ReadsBackIff(c, buildID, items, file, Open(c, file));
    OpenedIsSound(c, file, o);
    SortedItems(items);
    HeldAllComeBack(digest, o, file, items, Sort(KeyOrder, items));
  }

  lemma HeldAllComeBack(digest: Bytes -> Digest, o: Opened, file: Bytes, items: seq<Item>, sorted: seq<Item>)
    requires Holds(file, o.records, sorted) && KeysAscend(o.records)
    requires forall it :: it in items ==> it.digest == digest(it.stored)
    requires forall it :: it in sorted <==> it in items
    ensures forall it :: it in items ==> ComesBack(digest, o, file, it)
    ensures forall key :: Lookup(o, key).Some? ==> exists it :: it in items && it.key == key
  {
    forall it | it in items ensures ComesBack(digest, o, file, it) {
      assert it in sorted;
      var i :| 0 <= i < |sorted| && sorted[i] == it;
      HeldComesBack(digest, o, file, sorted, i);
    }
    forall key | Lookup(o, key).Some? ensures exists it :: it in items && it.key == key {
      OnlyHeldIsFound(o, file, sorted, key);
      var it :| it in sorted && it.key == key;
      assert it in items;
    }
  }

  // ---- The objects ----

  type Word = n: nat | n < 0x1_0000_0000_0000_0000

  function Keys(items: seq<Item>): set<Bytes> {
    set it <- items :: it.key
  }

  lemma KeysMore(items: seq<Item>, it: Item)
    ensures Keys(items + [it]) == Keys(items) + {it.key}
  {
  }

  lemma ItemsMore(items: seq<Item>, it: Item)
    requires ItemsOk(items) && ItemOk(it) && it.key !in Keys(items) && |items| < MAX_RECORDS
    ensures ItemsOk(items + [it])
  {
    var more := items + [it];
    forall i, j | 0 <= i < j < |more| ensures more[i].key != more[j].key {
      if j == |items| { assert items[i] in items && items[i].key in Keys(items); }
    }
  }

  /** What the builder is given: parsing an entry for its key, compression and the digest. Nothing empty parses, and
      nothing that is not empty is compressed to nothing. */
  datatype Codec = Codec(parses: (Bytes, Bytes) -> bool, encode: Bytes -> Bytes, digest: Bytes -> Digest)

  ghost predicate CodecOk(codec: Codec) {
    && (forall key :: !(codec.parses)(key, []))
    && (forall encoded :: encoded != [] ==> (codec.encode)(encoded) != [])
  }

  function ItemFor(codec: Codec, key: Bytes, encoded: Bytes, decodedWeight: Word, peakWeight: Word): Item {
    var stored := (codec.encode)(encoded);
    Item(key, stored, (codec.digest)(stored), |encoded|, decodedWeight, peakWeight)
  }

  /** Why a record cannot join those added, in the order the builder checks. */
  ghost function AddFault(records: seq<Item>, key: Bytes, encoded: Bytes): Option<Error> {
    if |key| == 0 || |key| > MAX_KEY_LEN then Some(BadLength)
    else if exists it :: it in records && it.key == key then Some(DuplicateKey)
    else if |records| == MAX_RECORDS then Some(TooManyRecords)
    else if |encoded| > MAX_ENCODED_LEN then Some(EncodedTooLong) else None
  }

  class Builder {
    const content: ContentType
    const buildID: Bytes
    const codec: Codec
    var records: seq<Item>
    var keys: set<Bytes>

    ghost predicate Valid()
      reads this
    {
      && !content.Unknown? && 1 <= |buildID| <= MAX_BUILD_ID_LEN && CodecOk(codec)
      && ItemsOk(records) && keys == Keys(records)
      && forall it :: it in records ==> it.digest == (codec.digest)(it.stored)
    }

    constructor (content: ContentType, buildID: Bytes, codec: Codec)
      requires !content.Unknown? && 1 <= |buildID| <= MAX_BUILD_ID_LEN && CodecOk(codec)
      ensures Valid() && records == []
      ensures this.content == content && this.buildID == buildID && this.codec == codec
    {
      this.content, this.buildID, this.codec := content, buildID, codec;
      records, keys := [], {};
    }

    /** `AddPlan` and `AddStatic`: the entry must be of the pack's kind and parse before it is added. */
    method AddEntry(kind: ContentType, key: Bytes, encoded: Bytes, decodedWeight: Word, peakWeight: Word)
      returns (err: Option<Error>)
      requires Valid()
      modifies this
      ensures Valid()
      ensures err == if content != kind then Some(WrongContent)
                     else if !(codec.parses)(key, encoded) then Some(InvalidEntry)
                     else AddFault(old(records), key, encoded)
      ensures records == if err.Some? then old(records) else
                old(records) + [ItemFor(codec, key, encoded, decodedWeight, peakWeight)]
    {
      if content != kind {
        return Some(WrongContent);
      }
      if !(codec.parses)(key, encoded) {
        return Some(InvalidEntry);
      }
      err := Add(key, encoded, decodedWeight, peakWeight);
    }

    method Add(key: Bytes, encoded: Bytes, decodedWeight: Word, peakWeight: Word) returns (err: Option<Error>)
      requires Valid() && encoded != []
      modifies this
      ensures Valid()
      ensures err == AddFault(old(records), key, encoded)
      ensures records == if err.Some? then old(records) else
                old(records) + [ItemFor(codec, key, encoded, decodedWeight, peakWeight)]
    {
      if |key| == 0 || |key| > MAX_KEY_LEN {
        return Some(BadLength);
      }
      if key in keys {
        return Some(DuplicateKey);
      }
      if |records| >= MAX_RECORDS {
        return Some(TooManyRecords);
      }
      if |encoded| > MAX_ENCODED_LEN {
        return Some(EncodedTooLong);
      }
      var it := ItemFor(codec, key, encoded, decodedWeight, peakWeight);
      KeysMore(records, it);
      ItemsMore(records, it);
      keys := keys + {key};
      records := records + [it];
      return None;
    }

    method WriteTo() returns (out: Bytes)
      requires Valid()
      ensures out == Written(content, buildID, records)
    {
      var sorted := Sort(KeyOrder, records);
      var indexLen := MeasureIndex(sorted);
      var head := HeaderBytes(Header(content, WEIGHER_VERSION, buildID, |sorted|, indexLen));
      var offset := |head| + indexLen;
      var index := PrintIndex(sorted, offset);
      var stored := PrintStored(sorted);
      out := head + index + stored;
    }

    method PrintStored(sorted: seq<Item>) returns (stored: Bytes)
      ensures stored == StoredBytes(sorted)
    {
      stored := [];
      var i := 0;
      assert sorted[0..] == sorted;
      while i < |sorted|
        invariant 0 <= i <= |sorted|
        invariant stored + StoredBytes(sorted[i..]) == StoredBytes(sorted)
      {
        assert sorted[i..][1..] == sorted[i + 1..];
        Reassociate(stored, sorted[i].stored, StoredBytes(sorted[i + 1..]));
        stored := stored + sorted[i].stored;
        i := i + 1;
      }
      assert stored + [] == stored;
    }

    method MeasureIndex(sorted: seq<Item>) returns (indexLen: nat)
      ensures indexLen == IndexLen(sorted)
    {
      indexLen := 0;
      var i := 0;
      assert sorted[0..] == sorted;
      while i < |sorted|
        invariant 0 <= i <= |sorted|
        invariant indexLen + IndexLen(sorted[i..]) == IndexLen(sorted)
      {
        assert sorted[i..][1..] == sorted[i + 1..];
        indexLen := indexLen + ENTRY_FIXED + |sorted[i].key|;
        i := i + 1;
      }
    }

    method PrintIndex(sorted: seq<Item>, start: nat) returns (index: Bytes)
      ensures index == IndexBytes(Layout(sorted, start))
    {
      index := [];
      var offset: nat := start;
      var i := 0;
      assert sorted[0..] == sorted;
      while i < |sorted|
        invariant 0 <= i <= |sorted|
        invariant index + IndexBytes(Layout(sorted[i..], offset)) == IndexBytes(Layout(sorted, start))
      {
        var it := sorted[i];
        var rec := Record(it.key, offset, |it.stored|, it.encodedLen, it.decodedWeight, it.peakWeight, it.digest);
        assert sorted[i..][1..] == sorted[i + 1..];
        assert Layout(sorted[i..], offset)[1..] == Layout(sorted[i + 1..], offset + |it.stored|);
        Reassociate(index, Entry(rec), IndexBytes(Layout(sorted[i + 1..], offset + |it.stored|)));
        index := index + Entry(rec);
        offset := offset + |it.stored|;
        i := i + 1;
      }
      assert index + [] == index;
    }
  }

  method NewBuilder(content: ContentType, buildID: Bytes, codec: Codec) returns (r: Result<Builder, Error>)
    requires CodecOk(codec)
    ensures r.Ok? <==> !content.Unknown? && 1 <= |buildID| <= MAX_BUILD_ID_LEN
    ensures r.Ok? ==> fresh(r.value) && r.value.Valid() && r.value.records == []
    ensures r.Ok? ==> r.value.content == content && r.value.buildID == buildID && r.value.codec == codec
    ensures r.Err? ==> r.error == if content.Unknown? then InvalidContent else BadLength
  {
    if content.Unknown? {
      return Err(InvalidContent);
    }
    if |buildID| == 0 || |buildID| > MAX_BUILD_ID_LEN {
      return Err(BadLength);
    }
    var b := new Builder(content, buildID, codec);
    r := Ok(b);
  }

  lemma KeyMapMore(records: seq<Record>, rec: Record)
    ensures KeyMap(records + [rec]) == KeyMap(records)[rec.key := |records|]
  {
    assert (records + [rec])[..|records|] == records;
  }

  lemma {:induction false} KeyMapByKeys(a: seq<Record>, b: seq<Record>)
    requires |a| == |b| && forall i :: 0 <= i < |a| ==> a[i].key == b[i].key
    ensures KeyMap(a) == KeyMap(b)
  {
    if a != [] {
      KeyMapByKeys(a[..|a| - 1], b[..|b| - 1]);
    }
  }

  method TakeEntry(parse: EntryParser, index: Bytes, records: seq<Record>, start: nat, size: nat)
    returns (r: Result<(Record, Bytes), Error>)
    ensures r == NextEntry(parse, index, records, start, size)
  {
    r := parse(index);
    if r.Err? {
      return;
    }
    var rec := r.value.0;
    if |records| > 0 {
      var prev := records[|records| - 1];
      if prev.key == rec.key {
        return Err(DuplicateKey);
      }
      if !Before(prev.key, rec.key) {
        return Err(NotSorted);
      }
    }
    if rec.offset < start || rec.offset > size || rec.length > size - rec.offset {
      return Err(OutsideRegion);
    }
  }

  /** `NewReader` after the header: consumes the index entry by entry. */
  method ScanIndex(parse: EntryParser, index: Bytes, count: nat, start: nat, size: nat)
    returns (r: Result<seq<Record>, Error>, byKey: map<Bytes, nat>)
    ensures r == ReadEntries(parse, index, count, [], start, size)
    ensures r.Ok? ==> byKey == KeyMap(r.value)
  {
    var rest, records := index, [];
    byKey := map[];
    var i := 0;
    while i < count
      invariant 0 <= i <= count
      invariant ReadEntries(parse, rest, count - i, records, start, size)
             == ReadEntries(parse, index, count, [], start, size)
      invariant byKey == KeyMap(records)
    {
      var taken := TakeEntry(parse, rest, records, start, size);
      if taken.Err? {
        return Err(taken.error), byKey;
      }
      var (rec, after) := taken.value;
      KeyMapMore(records, rec);
      byKey := byKey[rec.key := |records|];
      records := records + [rec];
      rest := after;
      i := i + 1;
    }
    if |rest| != 0 {
      return Err(TrailingBytes), byKey;
    }
    r := Ok(records);
  }

  method FindOverlap(spans: seq<Record>) returns (found: bool)
    ensures found <==> !NeighboursApart(spans)
  {
    var i := 1;
    while i < |spans|
      invariant 1 <= i
      invariant forall k :: 1 <= k < i && k < |spans| ==> spans[k - 1].offset + spans[k - 1].length <= spans[k].offset
    {
      if spans[i - 1].offset + spans[i - 1].length > spans[i].offset {
        return true;
      }
      i := i + 1;
    }
    return false;
  }

  method ReadIndex(h: Header, rest: Bytes, start: nat, size: nat)
    returns (r: Result<Opened, Error>, byKey: map<Bytes, nat>)
    ensures r == OpenIndex(h, rest, start, size)
    ensures r.Ok? ==> byKey == KeyMap(r.value.records)
  {
    byKey := map[];
    if h.indexLen > |rest| {
      return Err(IndexTooLong), byKey;
    }
    var scanned;
    scanned, byKey := ScanIndex(ParseEntry, rest[..h.indexLen], h.count, start + h.indexLen, size);
    if scanned.Err? {
      return Err(scanned.error), byKey;
    }
    var overlaps := FindOverlap(Sort(OffsetOrder, scanned.value));
    if overlaps {
      return Err(Overlap), byKey;
    }
    r := Ok(Opened(h, scanned.value));
  }

  method NewReader(c: ContentType, file: Bytes) returns (r: Result<Opened, Error>, byKey: map<Bytes, nat>)
    ensures r == Open(c, file)
    ensures r.Ok? ==> byKey == KeyMap(r.value.records)
  {
    byKey := map[];
    var header := ReadHeader(c, file);
    if header.Err? {
      return Err(header.error), byKey;
    }
    r, byKey := ReadIndex(header.value.0, header.value.1, HeaderLen(header.value.0), |file|);
    if r.Ok? && header.value.0.weigher != WEIGHER_VERSION {
      var records := ReplaceWeights(r.value.header.content, r.value.records);
      KeyMapByKeys(r.value.records, records);
      r := Ok(r.value.(records := records));
    }
  }

  method ReplaceWeights(c: ContentType, indexed: seq<Record>) returns (records: seq<Record>)
    ensures records == WithFallback(c, indexed)
  {
    records := indexed;
    for i := 0 to |records|
      invariant |records| == |indexed|
      invariant forall k :: 0 <= k < i ==> records[k] == Fallback(c, indexed[k])
      invariant forall k :: i <= k < |records| ==> records[k] == indexed[k]
    {
      records := records[i := Fallback(c, records[i])];
    }
  }
}
