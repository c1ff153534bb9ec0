/** The file of the incremental build cache: a four-byte magic number, a four-byte record count, and
    the records, each a JSON text behind its eight-byte length. Numbers are little-endian. */
module CacheFile {
  import opened Basics

  type Byte = x: int | 0 <= x < 256
  type Int64 = x: int | -0x8000_0000_0000_0000 <= x < 0x8000_0000_0000_0000

  const TWO_32: nat := 0x1_0000_0000
  const TWO_63: nat := 0x8000_0000_0000_0000
  const TWO_64: nat := 0x1_0000_0000_0000_0000
  const MAGIC_HEADER: nat := 20130808

  // ---------------------------------------------------------------- numbers

  function LittleEndian(n: nat, width: nat): (bs: seq<Byte>)
    ensures |bs| == width
  {
    if width == 0 then [] else [n % 256] + LittleEndian(n / 256, width - 1)
  }

  function Number(bs: seq<Byte>): nat {
    if bs == [] then 0 else bs[0] + 256 * Number(bs[1..])
  }

  function Power256(w: nat): nat {
    if w == 0 then 1 else 256 * Power256(w - 1)
  }

  lemma {:induction false} NumberRoundTrip(n: nat, width: nat)
    requires n < Power256(width)
    ensures Number(LittleEndian(n, width)) == n
  {
    if width > 0 {
      NumberRoundTrip(n / 256, width - 1);
      assert LittleEndian(n, width)[1..] == LittleEndian(n / 256, width - 1);
    }
  }

  function Signed(n: nat): int {
    if n < TWO_63 then n else n - TWO_64
  }

  // ---------------------------------------------------------------- records

  /** What a cached post carries. */
  datatype Entry = Entry(path: string, mtime: Int64, isPage: bool,
                         id: string, title: string, updatedAt: string, html: string)

  /** The JSON object of a cached post. The write time is stored as the signed tick count of the file
      clock and read back as an unsigned number. */
  datatype Json = Json(file_path: string, file_last_write_time: Int64, is_page: bool,
                       post_id: string, post_title: string, post_updated_at: string, post_content_html: string)

  function ToJson(e: Entry): Json {
    Json(e.path, e.mtime, e.isPage, e.id, e.title, e.updatedAt, e.html)
  }

  function ToUnsigned(t: Int64): (u: nat)
    ensures u < TWO_64
  {
    t % TWO_64
  }

  function ToSigned(u: nat): Int64
    requires u < TWO_64
  {
    Signed(u)
  }

  function FromJson(j: Json): Entry {
    Entry(j.file_path, ToSigned(ToUnsigned(j.file_last_write_time)), j.is_page,
          j.post_id, j.post_title, j.post_updated_at, j.post_content_html)
  }

  /** Write times before the epoch of the file clock survive the detour through unsigned numbers. */
  lemma JsonRoundTrip(e: Entry)
    ensures FromJson(ToJson(e)) == e
  {
  }

  /** The JSON library, as far as the cache relies on it. */
  datatype JsonCodec = JsonCodec(dump: Json -> seq<Byte>, parse: seq<Byte> -> Option<Json>)

  /** Every text the library writes is nonempty, and read back as what was written. */
  ghost predicate Lossless(codec: JsonCodec) {
    forall j :: codec.parse(codec.dump(j)) == Some(j) && codec.dump(j) != []
  }

  /** The text of the entry has a length that the file format can express. */
  predicate Fits(codec: JsonCodec, e: Entry) {
    |codec.dump(ToJson(e))| < TWO_63
  }

  ghost predicate AllFit(codec: JsonCodec, es: seq<Entry>) {
    forall e | e in es :: Fits(codec, e)
  }

  // ---------------------------------------------------------------- writing

  function Record(codec: JsonCodec, e: Entry): seq<Byte> {
    var text := codec.dump(ToJson(e));
    LittleEndian(|text| % TWO_64, 8) + text
  }

  function Records(codec: JsonCodec, es: seq<Entry>): seq<Byte> {
    if es == [] then [] else Record(codec, es[0]) + Records(codec, es[1..])
  }

  /** The count is a 32-bit number. */
  function Header(n: nat): (bs: seq<Byte>)
    ensures |bs| == 8
  {
    LittleEndian(MAGIC_HEADER, 4) + LittleEndian(n % TWO_32, 4)
  }

  function Encode(codec: JsonCodec, es: seq<Entry>): seq<Byte> {
    Header(|es|) + Records(codec, es)
  }

  lemma {:induction false} RecordsAppend(codec: JsonCodec, es: seq<Entry>, e: Entry)
    ensures Records(codec, es + [e]) == Records(codec, es) + Record(codec, e)
  {
    if es == [] {
      assert [e][1..] == [];
      assert Records(codec, [e]) == Record(codec, e) + [];
      assert es + [e] == [e];
    } else {
      assert (es + [e])[1..] == es[1..] + [e];
      RecordsAppend(codec, es[1..], e);
      assert Record(codec, es[0]) + (Records(codec, es[1..]) + Record(codec, e))
          == Records(codec, es) + Record(codec, e);
    }
  }

  // ---------------------------------------------------------------- reading

  datatype Ending = Complete | BadLength | Threw

  /** The records read before the reader stops, and why it stops: after the announced number of
      them, at a length that is not positive, or in an exception because the file ends early or a
      record is not the JSON of a post. */
  function ReadRecords(codec: JsonCodec, bs: seq<Byte>, n: nat): (seq<Entry>, Ending)
    decreases n
  {
    if n == 0 then ([], Complete)
    else if |bs| < 8 then ([], Threw)
    else
      var len := Signed(Number(bs[..8]));
      if len <= 0 then ([], BadLength)
      else if |bs| < 8 + len then ([], Threw)
      else match codec.parse(bs[8..8 + len])
        case None => ([], Threw)
        case Some(j) =>
          var (rest, ending) := ReadRecords(codec, bs[8 + len..], n - 1);
          ([FromJson(j)] + rest, ending)
  }

  /** Entries by path; a later entry replaces an earlier one. */
  function Collect(es: seq<Entry>): map<string, Entry> {
    if es == [] then map[] else Collect(es[..|es| - 1])[es[|es| - 1].path := es[|es| - 1]]
  }

  datatype LoadStatus = Ok | Rejected | Thrown

  function StatusOf(ending: Ending): LoadStatus {
    match ending
    case Complete => Ok
    case BadLength => Rejected
    case Threw => Thrown
  }

  datatype LoadResult = LoadResult(status: LoadStatus, entries: map<string, Entry>)

  function Decode(codec: JsonCodec, file: Option<seq<Byte>>): LoadResult {
    match file
    case None => LoadResult(Ok, map[])
    case Some(bs) =>
      if |bs| < 8 || Number(bs[..4]) != MAGIC_HEADER then LoadResult(Rejected, map[])
      else if Number(bs[4..8]) == 0 then LoadResult(Rejected, map[])
      else
        var (es, ending) := ReadRecords(codec, bs[8..], Number(bs[4..8]));
        LoadResult(StatusOf(ending), Collect(es))
  }

  /** What is loaded of a file that may be missing, and may not be possible to open. */
  function Loaded(codec: JsonCodec, file: Option<seq<Byte>>, readable: bool): LoadResult {
    if file.Some? && !readable then LoadResult(Rejected, map[]) else Decode(codec, file)
  }

  // ---------------------------------------------------------------- round trip

  lemma Powers()
    ensures Power256(4) == TWO_32 && Power256(8) == TWO_64
  {
  }

  lemma LengthRead(n: nat)
    requires n < TWO_63
    ensures Signed(Number(LittleEndian(n % TWO_64, 8))) == n
  {
    Powers();
    var m := n % TWO_64;
    assert m == n;
    NumberRoundTrip(m, 8);
  }

  lemma RecordRead(codec: JsonCodec, e: Entry, rest: seq<Byte>, n: nat)
    requires Lossless(codec) && Fits(codec, e) && n > 0
    ensures var (es, ending) := ReadRecords(codec, rest, n - 1);
            ReadRecords(codec, Record(codec, e) + rest, n) == ([e] + es, ending)
  {
    var text := codec.dump(ToJson(e));
    var length := LittleEndian(|text| % TWO_64, 8);
    var bs := Record(codec, e) + rest;
    assert codec.parse(text) == Some(ToJson(e));
    LengthRead(|text|);
    Slices(length, text, rest);
    JsonRoundTrip(e);
  }

  lemma Slices(a: seq<Byte>, b: seq<Byte>, c: seq<Byte>)
    ensures var s := a + b + c;
            s[..|a|] == a && s[|a|..|a| + |b|] == b && s[|a| + |b|..] == c
  {
  }

  lemma {:induction false} RecordsRead(codec: JsonCodec, es: seq<Entry>)
    requires Lossless(codec) && AllFit(codec, es)
    ensures ReadRecords(codec, Records(codec, es), |es|) == (es, Complete)
  {
    if es != [] {
      var head, rest := es[0], Records(codec, es[1..]);
      RecordsRead(codec, es[1..]);
      calc {
        ReadRecords(codec, Records(codec, es), |es|);
        ReadRecords(codec, Record(codec, head) + rest, |es|);
        { RecordRead(codec, head, rest, |es|); }
        ([head] + es[1..], Complete);
        { assert [head] + es[1..] == es; }
        (es, Complete);
      }
    }
  }

  lemma HeaderRead(n: nat)
    requires n < TWO_32
    ensures Number(Header(n)[..4]) == MAGIC_HEADER && Number(Header(n)[4..8]) == n
  {
    Powers();
    NumberRoundTrip(MAGIC_HEADER, 4);
    NumberRoundTrip(n, 4);
    assert Header(n)[..4] == LittleEndian(MAGIC_HEADER, 4);
    assert Header(n)[4..8] == LittleEndian(n % TWO_32, 4);
  }

  lemma HeaderApart(header: seq<Byte>, records: seq<Byte>)
    requires |header| == 8
    ensures var bs := header + records;
            bs[..4] == header[..4] && bs[4..8] == header[4..8] && bs[8..] == records
  {
  }

  /** Reading back a written file gives the same entries. A file without entries is reported as
      rejected, with nothing loaded. */
  lemma DecodeEncode(codec: JsonCodec, es: seq<Entry>)
    requires Lossless(codec) && AllFit(codec, es) && |es| < TWO_32
    ensures Decode(codec, Some(Encode(codec, es)))
         == LoadResult(if es == [] then Rejected else Ok, Collect(es))
  {
    HeaderRead(|es|);
    HeaderApart(Header(|es|), Records(codec, es));
    RecordsRead(codec, es);
  }

  /** `es` lists every entry of `m` once, in some order. */
  ghost predicate Lists(es: seq<Entry>, m: map<string, Entry>) {
    && (forall j, k | 0 <= j < k < |es| :: es[j].path != es[k].path)
    && (forall e | e in es :: e.path in m && m[e.path] == e)
    && (forall p | p in m :: m[p] in es && m[p].path == p)
  }

  lemma {:induction false} CollectContains(es: seq<Entry>)
    requires forall j, k | 0 <= j < k < |es| :: es[j].path != es[k].path
    ensures forall e | e in es :: e.path in Collect(es) && Collect(es)[e.path] == e
    ensures forall p | p in Collect(es) :: Collect(es)[p] in es && Collect(es)[p].path == p
  {
    if es != [] {
      var front := es[..|es| - 1];
      CollectContains(front);
      assert es == front + [es[|es| - 1]];
    }
  }

  /** Whatever order the entries are written in, loading the stored file gives the stored map. */
  lemma LoadAfterStore(codec: JsonCodec, m: map<string, Entry>, es: seq<Entry>)
    requires Lossless(codec) && AllFit(codec, es) && Lists(es, m) && |es| < TWO_32
    ensures Decode(codec, Some(Encode(codec, es))) == LoadResult(if m == map[] then Rejected else Ok, m)
  {
    DecodeEncode(codec, es);
    CollectContains(es);
    assert Collect(es) == m;
    assert es == [] <==> m == map[] by {
      if es != [] { assert es[0] in es; }
    }
  }
}
