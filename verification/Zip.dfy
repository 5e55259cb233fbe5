/** The ZIP writer of scripts/pack-narration-assets.ts, and a reader after sections 4.3.7, 4.3.12 and 4.3.16 of APPNOTE.TXT. */
module Zip {
  import opened Options

  type Byte = b: int | 0 <= b < 256
  type Bytes = seq<Byte>

  const LOCAL := 0x04034b50
  const CENTRAL := 0x02014b50
  const END := 0x06054b50
  const TWO_32 := 0x1_0000_0000
  const TWO_16 := 0x1_0000

  /** A name in UTF-8, and its contents. */
  datatype Entry = Entry(name: Bytes, data: Bytes)

  datatype Codec = Codec(deflate: Bytes -> Bytes, crc: Bytes -> nat)

  /** The lowest bytes of a value, lowest first. */
  function Le(v: nat, width: nat): (b: Bytes)
    ensures |b| == width
    decreases width, v
  {
    if width == 0 then [] else [v % 256] + Le(v / 256, width - 1)
  }

  function Num16(b: Bytes, i: nat): nat
    requires i + 2 <= |b|
  {
    var low: nat, high: nat := b[i], b[i + 1];
    low + 256 * high
  }

  function Num32(b: Bytes, i: nat): nat
    requires i + 4 <= |b|
  {
    Num16(b, i) + TWO_16 * Num16(b, i + 2)
  }

  lemma Le16Bytes(v: nat)
    ensures Le(v, 2)[0] == v % 256 && Le(v, 2)[1] == v / 256 % 256
  {
    assert Le(v, 2) == [v % 256] + Le(v / 256, 1);
  }

  /** Written in two or four bytes and read back, a value is reduced to what the bytes can hold. */
  lemma Le16Reads(v: nat)
    ensures Num16(Le(v, 2), 0) == v % TWO_16
  {
    Le16Bytes(v);
  }

  lemma Le32Reads(v: nat)
    ensures Num32(Le(v, 4), 0) == v % TWO_32
  {
    var q := v / 256 / 256;
    assert Le(v, 4) == [v % 256] + ([v / 256 % 256] + Le(q, 2));
    Le16Bytes(v);
    Le16Bytes(q);
    assert v == v % TWO_16 + TWO_16 * q;
  }

  /** A part of a header: a number of two or four bytes, or bytes as they are. */
  datatype Field = Two(value: nat) | Four(value: nat) | Raw(bytes: Bytes)

  /** Four bytes hold a number modulo 2 to the 32: the writer's `>>> 0`. */
  function Encoded(f: Field): Bytes {
    match f
    case Two(v) => Le(v, 2)
    case Four(v) => Le(v, 4)
    case Raw(b) => b
  }

  /** The bytes of the first k fields. */
  function Concat(fields: seq<Field>, k: nat): Bytes
    requires k <= |fields|
  {
    if k == 0 then [] else Concat(fields, k - 1) + Encoded(fields[k - 1])
  }

  function Header(fields: seq<Field>): Bytes {
    Concat(fields, |fields|)
  }

  /** The ten fields the two headers of an entry share stand in the middle of both. */
  function LocalFields(c: Codec, e: Entry): seq<Field> {
    [Four(LOCAL),
     Two(20), Two(0x0800), Two(8), Two(0), Two(0x21),
     Four(c.crc(e.data)), Four(|c.deflate(e.data)|), Four(|e.data|), Two(|e.name|), Two(0),
     Raw(e.name)]
  }

  function CentralFields(c: Codec, e: Entry, place: nat): seq<Field> {
    [Four(CENTRAL), Two(20),
     Two(20), Two(0x0800), Two(8), Two(0), Two(0x21),
     Four(c.crc(e.data)), Four(|c.deflate(e.data)|), Four(|e.data|), Two(|e.name|), Two(0),
     Two(0), Two(0), Two(0), Four(0), Four(place), Raw(e.name)]
  }

  function EndFields(count: nat, size: nat, place: nat): seq<Field> {
    [Four(END), Two(0), Two(0), Two(count), Two(count), Four(size), Four(place), Two(0)]
  }

  function LocalHeader(c: Codec, e: Entry): Bytes {
    Header(LocalFields(c, e))
  }

  function CentralHeader(c: Codec, e: Entry, place: nat): Bytes {
    Header(CentralFields(c, e, place))
  }

  /** The local headers and packed bytes of the first k entries. */
  function Locals(c: Codec, entries: seq<Entry>, k: nat): Bytes
    requires k <= |entries|
  {
    if k == 0 then []
    else Locals(c, entries, k - 1) + (LocalHeader(c, entries[k - 1]) + c.deflate(entries[k - 1].data))
  }

  /** Where the k-th local header belongs: after as many records of 30 bytes, a name and packed bytes. */
  function Place(c: Codec, entries: seq<Entry>, k: nat): nat
    requires k <= |entries|
  {
    if k == 0 then 0
    else Place(c, entries, k - 1) + 30 + |entries[k - 1].name| + |c.deflate(entries[k - 1].data)|
  }

  /** The central headers of the first k entries, each with the place of its local header. */
  function Directory(c: Codec, entries: seq<Entry>, k: nat): Bytes
    requires k <= |entries|
  {
    if k == 0 then [] else Directory(c, entries, k - 1) + CentralHeader(c, entries[k - 1], Place(c, entries, k - 1))
  }

  function Archive(c: Codec, entries: seq<Entry>): Bytes {
    var n := |entries|;
    var directory := Directory(c, entries, n);
    Locals(c, entries, n) + directory + Header(EndFields(n, |directory|, Place(c, entries, n)))
  }

  predicate Fits(f: Field) {
    f.Two? ==> f.value < TWO_16
  }

  /** What the two-byte fields can hold; beyond it the writer throws. */
  predicate FitsShort(entries: seq<Entry>) {
    |entries| < TWO_16 && NamesFit(entries, |entries|)
  }

  predicate NamesFit(entries: seq<Entry>, k: nat)
    requires k <= |entries|
  {
    k == 0 || (NamesFit(entries, k - 1) && |entries[k - 1].name| < TWO_16)
  }

  lemma {:induction false} NamesFitIff(entries: seq<Entry>, k: nat)
    requires k <= |entries|
    ensures NamesFit(entries, k) <==> forall i :: 0 <= i < k ==> |entries[i].name| < TWO_16
  {
    if k > 0 {
      NamesFitIff(entries, k - 1);
    }
  }

  /** The two-byte writer throws on a number that does not fit. */
  method Encode(f: Field) returns (out: Option<Bytes>)
    ensures out == if Fits(f) then Some(Encoded(f)) else None
  {
    match f {
      case Two(v) =>
        if v > 0xffff {
          return None;
        }
        Le16Bytes(v);
        assert Le(v, 2) == [v % 256, v / 256];
        return Some([v % 256, v / 256]);
      case Four(v) =>
        return Some(Le(v, 4));
      case Raw(b) =>
        return Some(b);
    }
  }

  method Join(fields: seq<Field>) returns (out: Option<Bytes>)
    ensures out == if forall i :: 0 <= i < |fields| ==> Fits(fields[i]) then Some(Header(fields)) else None
  {
    var bytes: Bytes := [];
    for k := 0 to |fields|
      invariant bytes == Concat(fields, k)
      invariant forall i :: 0 <= i < k ==> Fits(fields[i])
    {
      var next := Encode(fields[k]);
      if next.None? {
        return None;
      }
      bytes := bytes + next.value;
    }
    return Some(bytes);
  }

  /** The two headers of one entry, from the same ten fields. */
  method Headers(c: Codec, e: Entry, packed: Bytes, offset: nat) returns (local: Option<Bytes>, central: Option<Bytes>)
    requires packed == c.deflate(e.data)
    ensures local == if |e.name| < TWO_16 then Some(LocalHeader(c, e)) else None
    ensures central == if |e.name| < TWO_16 then Some(CentralHeader(c, e, offset)) else None
  {
    var shared := [
      Two(20), Two(0x0800), Two(8), Two(0), Two(0x21),
      Four(c.crc(e.data)), Four(|packed|), Four(|e.data|), Two(|e.name|), Two(0)];
    var localFields := [Four(LOCAL)] + shared + [Raw(e.name)];
    var centralFields := [Four(CENTRAL), Two(20)] + shared + [Two(0), Two(0), Two(0), Four(0), Four(offset), Raw(e.name)];
    assert localFields == LocalFields(c, e) && localFields[9] == Two(|e.name|);
    assert centralFields == CentralFields(c, e, offset) && centralFields[10] == Two(|e.name|);
    local := Join(localFields);
    central := Join(centralFields);
  }

  method EndRecord(count: nat, size: nat, offset: nat) returns (record: Option<Bytes>)
    ensures record == if count < TWO_16 then Some(Header(EndFields(count, size, offset))) else None
  {
    var fields := [Four(END), Two(0), Two(0), Two(count), Two(count), Four(size), Four(offset), Two(0)];
    assert fields[3] == Two(count);
    record := Join(fields);
  }

  /** The writer: a local header, the packed bytes and a central header an entry, then the end record. */
  method ZipEntries(c: Codec, entries: seq<Entry>) returns (file: Result<Bytes, string>)
    ensures file == if FitsShort(entries) then Ok(Archive(c, entries)) else Err("RangeError")
  {
    var parts: Bytes, directory: Bytes := [], [];
    var offset: nat := 0;
    for k := 0 to |entries|
      invariant parts == Locals(c, entries, k) && directory == Directory(c, entries, k)
      invariant offset == Place(c, entries, k)
      invariant NamesFit(entries, k)
    {
      var packed := c.deflate(entries[k].data);
      var local, central := Headers(c, entries[k], packed, offset);
      if local.None? || central.None? {
        NamesFitDown(entries, k + 1);
        return Err("RangeError");
      }
      LocalLength(c, entries[k]);
      parts := parts + (local.value + packed);
      directory := directory + central.value;
      offset := offset + |local.value| + |packed|;
    }
    var end := EndRecord(|entries|, |directory|, offset);
    return if end.None? then Err("RangeError") else Ok(parts + directory + end.value);
  }

  lemma {:induction false} NamesFitDown(entries: seq<Entry>, k: nat)
    requires k <= |entries| && !NamesFit(entries, k)
    ensures !NamesFit(entries, |entries|)
    decreases |entries| - k
  {
    if k < |entries| {
      NamesFitDown(entries, k + 1);
    }
  }

  /** What both headers say of how an entry is stored: version needed, flags, method, time and date. */
  datatype Manner = Manner(needs: nat, flags: nat, packing: nat, time: nat, date: nat)

  /** What the central header alone says: version made by, disk, internal and external attributes. */
  datatype Origin = Origin(made: nat, disk: nat, inside: nat, outside: nat)

  /** What a reader learns of one entry. */
  datatype Found = Found(name: Bytes, manner: Manner, origin: Origin, crc: nat, size: nat, packed: Bytes)

  /** A central header as read, and where the next one begins. */
  datatype Central = Central(name: Bytes, manner: Manner, origin: Origin, crc: nat, packedSize: nat, size: nat, place: nat, next: nat)

  function ReadManner(b: Bytes, at: nat): Manner
    requires at + 10 <= |b|
  {
    Manner(Num16(b, at), Num16(b, at + 2), Num16(b, at + 4), Num16(b, at + 6), Num16(b, at + 8))
  }

  function ReadOrigin(b: Bytes, at: nat): Origin
    requires at + 42 <= |b|
  {
    Origin(Num16(b, at + 4), Num16(b, at + 34), Num16(b, at + 36), Num32(b, at + 38))
  }

  function ReadCentral(file: Bytes, at: nat): Option<Central> {
    if |file| < at + 46 || Num32(file, at) != CENTRAL then None
    else
      var nameEnd := at + 46 + Num16(file, at + 28);
      if |file| < nameEnd then None
      else Some(Central(file[at + 46..nameEnd], ReadManner(file, at + 6), ReadOrigin(file, at),
                        Num32(file, at + 16), Num32(file, at + 20), Num32(file, at + 24),
                        Num32(file, at + 42), nameEnd + Num16(file, at + 30) + Num16(file, at + 32)))
  }

  /** The packed bytes behind a local header, if it agrees with the central one. */
  function ReadLocal(file: Bytes, h: Central): Option<Bytes> {
    var at := h.place;
    if |file| < at + 30 || Num32(file, at) != LOCAL then None
    else
      var nameEnd := at + 30 + Num16(file, at + 26);
      var start := nameEnd + Num16(file, at + 28);
      if |file| < start + h.packedSize || file[at + 30..nameEnd] != h.name || ReadManner(file, at + 4) != h.manner then None
      else if Num32(file, at + 14) != h.crc || Num32(file, at + 18) != h.packedSize || Num32(file, at + 22) != h.size then None
      else Some(file[start..start + h.packedSize])
  }

  /** One entry, and where the next central header begins. */
  function ReadEntry(file: Bytes, at: nat): Option<(Found, nat)> {
    var h := ReadCentral(file, at);
    if h.None? then None
    else
      var packed := ReadLocal(file, h.value);
      if packed.None? then None
      else Some((Found(h.value.name, h.value.manner, h.value.origin, h.value.crc, h.value.size, packed.value), h.value.next))
  }

  function ReadFrom(read: nat -> Option<(Found, nat)>, at: nat, count: nat): Option<seq<Found>>
    decreases count
  {
    if count == 0 then Some([])
    else
      var entry := read(at);
      if entry.None? then None
      else
        var rest := ReadFrom(read, entry.value.1, count - 1);
        if rest.None? then None else Some([entry.value.0] + rest.value)
  }

  /**
   * The end record, in the last 22 bytes: one disk, all the entries on it, no
   * comment, and a directory that reaches from its place to the record.
   */
  predicate EndAgrees(file: Bytes)
    requires |file| >= 22
  {
    var at := |file| - 22;
    && Num32(file, at) == END && Num16(file, at + 4) == 0 && Num16(file, at + 6) == 0 && Num16(file, at + 20) == 0
    && Num16(file, at + 8) == Num16(file, at + 10)
    && Num32(file, at + 16) <= at && Num32(file, at + 12) == (at - Num32(file, at + 16)) % TWO_32
  }

  function ReadArchive(file: Bytes): Option<seq<Found>> {
    if |file| < 22 || !EndAgrees(file) then None
    else ReadFrom(at => ReadEntry(file, at), Num32(file, |file| - 6), Num16(file, |file| - 12))
  }

  /** A chunk of bytes at a place in a file. */
  ghost predicate Holds(file: Bytes, at: nat, chunk: Bytes) {
    at + |chunk| <= |file| && forall k {:trigger chunk[k]} :: 0 <= k < |chunk| ==> file[at + k] == chunk[k]
  }

  lemma HoldsPart(file: Bytes, at: nat, chunk: Bytes, i: nat, part: Bytes)
    requires Holds(file, at, chunk) && Holds(chunk, i, part)
    ensures Holds(file, at + i, part)
  {
    forall k | 0 <= k < |part| ensures file[at + i + k] == part[k] {
      assert chunk[i + k] == part[k] && file[at + (i + k)] == chunk[i + k];
    }
  }

  lemma Holds16(file: Bytes, at: nat, chunk: Bytes, i: nat)
    requires Holds(file, at, chunk) && i + 2 <= |chunk|
    ensures Num16(file, at + i) == Num16(chunk, i)
  {
    assert file[at + i] == chunk[i] && file[at + (i + 1)] == chunk[i + 1];
  }

  lemma Holds32(file: Bytes, at: nat, chunk: Bytes, i: nat)
    requires Holds(file, at, chunk) && i + 4 <= |chunk|
    ensures Num32(file, at + i) == Num32(chunk, i)
  {
    Holds16(file, at, chunk, i);
    Holds16(file, at, chunk, i + 2);
  }

  lemma HoldsSlice(file: Bytes, at: nat, chunk: Bytes)
    requires Holds(file, at, chunk)
    ensures file[at..at + |chunk|] == chunk
  {
  }

  lemma Field16(b: Bytes, i: nat, v: nat)
    requires Holds(b, i, Le(v, 2))
    ensures Num16(b, i) == v % TWO_16
  {
    Holds16(b, i, Le(v, 2), 0);
    Le16Reads(v);
  }

  lemma Field32(b: Bytes, i: nat, v: nat)
    requires Holds(b, i, Le(v, 4))
    ensures Num32(b, i) == v % TWO_32
  {
    Holds32(b, i, Le(v, 4), 0);
    Le32Reads(v);
  }

  /** What the reader is to find: the name, the checksum, the packed bytes, and the length as four bytes hold it. */
  function Expected(c: Codec, e: Entry): Found {
    Found(e.name, Packed(), Origin(20, 0, 0, 0), c.crc(e.data) % TWO_32, |e.data| % TWO_32, c.deflate(e.data))
  }

  /** Version 2.0, a name in UTF-8, deflated, at the first instant the format has. */
  function Packed(): Manner {
    Manner(20, 0x0800, 8, 0, 0x21)
  }

  /** A local header tells of an entry; so does a central one, with the place of the local. */
  ghost predicate LocalTells(b: Bytes, f: Found) {
    && |b| == 30 + |f.name| && Num32(b, 0) == LOCAL && ReadManner(b, 4) == f.manner
    && Num32(b, 14) == f.crc && Num32(b, 18) == |f.packed| && Num32(b, 22) == f.size
    && Num16(b, 26) == |f.name| && Num16(b, 28) == 0 && Holds(b, 30, f.name)
  }

  ghost predicate CentralTells(b: Bytes, f: Found, place: nat) {
    && |b| == 46 + |f.name| && Num32(b, 0) == CENTRAL && ReadManner(b, 6) == f.manner && ReadOrigin(b, 0) == f.origin
    && Num32(b, 16) == f.crc && Num32(b, 20) == |f.packed| && Num32(b, 24) == f.size
    && Num16(b, 28) == |f.name| && Num16(b, 30) == 0 && Num16(b, 32) == 0
    && Num32(b, 42) == place && Holds(b, 46, f.name)
  }

  function Width(f: Field): nat {
    match f
    case Two(_) => 2
    case Four(_) => 4
    case Raw(b) => |b|
  }

  /** Where the i-th field begins. */
  function Offset(fields: seq<Field>, i: nat): nat
    requires i <= |fields|
  {
    if i == 0 then 0 else Offset(fields, i - 1) + Width(fields[i - 1])
  }

  lemma {:induction false} ConcatLength(fields: seq<Field>, k: nat)
    requires k <= |fields|
    ensures |Concat(fields, k)| == Offset(fields, k)
  {
    if k > 0 {
      ConcatLength(fields, k - 1);
    }
  }

  lemma {:induction false} ConcatGrows(fields: seq<Field>, i: nat, k: nat)
    requires i <= k <= |fields|
    ensures Holds(Concat(fields, k), 0, Concat(fields, i))
    decreases k
  {
    if i < k {
      ConcatGrows(fields, i, k - 1);
      Longer(Concat(fields, k - 1), Encoded(fields[k - 1]), Concat(fields, i));
    }
  }

  lemma Longer(a: Bytes, b: Bytes, start: Bytes)
    requires Holds(a, 0, start)
    ensures Holds(a + b, 0, start)
  {
    Appended(a, b);
    HoldsPart(a + b, 0, a, 0, start);
  }

  lemma FieldAt(fields: seq<Field>, i: nat)
    requires i < |fields|
    ensures Holds(Header(fields), Offset(fields, i), Encoded(fields[i])) && |Header(fields)| == Offset(fields, |fields|)
  {
    ConcatLength(fields, i);
    ConcatLength(fields, |fields|);
    ConcatGrows(fields, i + 1, |fields|);
    After(Header(fields), Header(fields), Concat(fields, i), Encoded(fields[i]), 0);
  }

  /** A number is read where its field begins, reduced to what the field can hold. */
  lemma NumberAt(fields: seq<Field>, i: nat, at: nat)
    requires i < |fields| && Offset(fields, i) == at
    ensures at + Width(fields[i]) <= |Header(fields)|
    ensures fields[i].Two? ==> Num16(Header(fields), at) == fields[i].value % TWO_16
    ensures fields[i].Four? ==> Num32(Header(fields), at) == fields[i].value % TWO_32
  {
    FieldAt(fields, i);
    if fields[i].Two? {
      Field16(Header(fields), at, fields[i].value);
    } else if fields[i].Four? {
      Field32(Header(fields), at, fields[i].value);
    }
  }

  lemma LocalOffsets(c: Codec, e: Entry)
    ensures var fields := LocalFields(c, e);
      && Offset(fields, 0) == 0 && Offset(fields, 1) == 4 && Offset(fields, 2) == 6 && Offset(fields, 3) == 8
      && Offset(fields, 4) == 10 && Offset(fields, 5) == 12
      && Offset(fields, 6) == 14 && Offset(fields, 7) == 18 && Offset(fields, 8) == 22
      && Offset(fields, 9) == 26 && Offset(fields, 10) == 28 && Offset(fields, 11) == 30
      && Offset(fields, |fields|) == 30 + |e.name|
  {
    var fields := LocalFields(c, e);
    assert Offset(fields, 1) == 4;
    assert Offset(fields, 2) == 6;
    assert Offset(fields, 3) == 8;
    assert Offset(fields, 4) == 10;
    assert Offset(fields, 5) == 12;
    assert Offset(fields, 6) == 14;
    assert Offset(fields, 7) == 18;
    assert Offset(fields, 8) == 22;
    assert Offset(fields, 9) == 26;
    assert Offset(fields, 10) == 28;
    assert Offset(fields, 11) == 30;
  }

  lemma LocalLength(c: Codec, e: Entry)
    ensures |LocalHeader(c, e)| == 30 + |e.name|
  {
    LocalOffsets(c, e);
    FieldAt(LocalFields(c, e), 0);
  }

  /** Five two-byte fields in a row are read as the manner of an entry. */
  lemma MannerAt(fields: seq<Field>, i: nat, at: nat)
    requires i + 5 <= |fields| && at + 10 <= |Header(fields)|
    requires Offset(fields, i) == at && Offset(fields, i + 1) == at + 2 && Offset(fields, i + 2) == at + 4
    requires Offset(fields, i + 3) == at + 6 && Offset(fields, i + 4) == at + 8
    requires fields[i] == Two(20) && fields[i + 1] == Two(0x0800) && fields[i + 2] == Two(8)
    requires fields[i + 3] == Two(0) && fields[i + 4] == Two(0x21)
    ensures ReadManner(Header(fields), at) == Packed()
  {
    NumberAt(fields, i, at);
    NumberAt(fields, i + 1, at + 2);
    NumberAt(fields, i + 2, at + 4);
    NumberAt(fields, i + 3, at + 6);
    NumberAt(fields, i + 4, at + 8);
  }

  lemma LocalMannerTells(c: Codec, e: Entry)
    ensures |LocalHeader(c, e)| == 30 + |e.name| && ReadManner(LocalHeader(c, e), 4) == Packed()
  {
    LocalLength(c, e);
    LocalOffsets(c, e);
    MannerAt(LocalFields(c, e), 1, 4);
  }

  lemma LocalNumbers(c: Codec, e: Entry)
    requires |e.name| < TWO_16 && |c.deflate(e.data)| < TWO_32
    ensures var b, f := LocalHeader(c, e), Expected(c, e);
      && |b| == 30 + |e.name| && Num32(b, 0) == LOCAL
      && Num32(b, 14) == f.crc && Num32(b, 18) == |f.packed| && Num32(b, 22) == f.size
  {
    var fields := LocalFields(c, e);
    LocalOffsets(c, e);
    LocalLength(c, e);
    NumberAt(fields, 0, 0);
    NumberAt(fields, 6, 14);
    NumberAt(fields, 7, 18);
    NumberAt(fields, 8, 22);
  }

  lemma LocalName(c: Codec, e: Entry)
    requires |e.name| < TWO_16
    ensures var b := LocalHeader(c, e);
      |b| == 30 + |e.name| && Num16(b, 26) == |e.name| && Num16(b, 28) == 0 && Holds(b, 30, e.name)
  {
    var fields := LocalFields(c, e);
    LocalOffsets(c, e);
    LocalLength(c, e);
    NumberAt(fields, 9, 26);
    NumberAt(fields, 10, 28);
    FieldAt(fields, 11);
  }

  /** The writer's headers tell of their entry, when its name and packed bytes fit. */
  lemma LocalHeaderTells(c: Codec, e: Entry)
    requires |e.name| < TWO_16 && |c.deflate(e.data)| < TWO_32
    ensures LocalTells(LocalHeader(c, e), Expected(c, e))
  {
    LocalMannerTells(c, e);
    LocalNumbers(c, e);
    LocalName(c, e);
  }

  lemma CentralOffsets(c: Codec, e: Entry, place: nat)
    ensures var fields := CentralFields(c, e, place);
      && Offset(fields, 0) == 0 && Offset(fields, 1) == 4 && Offset(fields, 2) == 6 && Offset(fields, 3) == 8
      && Offset(fields, 4) == 10 && Offset(fields, 5) == 12 && Offset(fields, 6) == 14
      && Offset(fields, 13) == 34 && Offset(fields, 14) == 36 && Offset(fields, 15) == 38
      && Offset(fields, 7) == 16 && Offset(fields, 8) == 20 && Offset(fields, 9) == 24
      && Offset(fields, 10) == 28 && Offset(fields, 11) == 30 && Offset(fields, 12) == 32 && Offset(fields, 16) == 42
      && Offset(fields, 17) == 46 && Offset(fields, |fields|) == 46 + |e.name|
  {
    var fields := CentralFields(c, e, place);
    assert Offset(fields, 1) == 4;
    assert Offset(fields, 2) == 6;
    assert Offset(fields, 3) == 8;
    assert Offset(fields, 4) == 10;
    assert Offset(fields, 5) == 12;
    assert Offset(fields, 6) == 14;
    assert Offset(fields, 7) == 16;
    assert Offset(fields, 8) == 20;
    assert Offset(fields, 9) == 24;
    assert Offset(fields, 10) == 28;
    assert Offset(fields, 11) == 30;
    assert Offset(fields, 12) == 32;
    assert Offset(fields, 13) == 34;
    assert Offset(fields, 14) == 36;
    assert Offset(fields, 15) == 38;
    assert Offset(fields, 16) == 42;
    assert Offset(fields, 17) == 46;
  }

  lemma CentralLength(c: Codec, e: Entry, place: nat)
    ensures |CentralHeader(c, e, place)| == 46 + |e.name|
  {
    CentralOffsets(c, e, place);
    FieldAt(CentralFields(c, e, place), 0);
  }

  lemma CentralMannerTells(c: Codec, e: Entry, place: nat)
    ensures |CentralHeader(c, e, place)| == 46 + |e.name| && ReadManner(CentralHeader(c, e, place), 6) == Packed()
  {
    CentralLength(c, e, place);
    CentralOffsets(c, e, place);
    MannerAt(CentralFields(c, e, place), 2, 6);
  }

  lemma CentralOriginTells(c: Codec, e: Entry, place: nat)
    ensures |CentralHeader(c, e, place)| == 46 + |e.name| && ReadOrigin(CentralHeader(c, e, place), 0) == Origin(20, 0, 0, 0)
  {
    var fields := CentralFields(c, e, place);
    CentralLength(c, e, place);
    CentralOffsets(c, e, place);
    NumberAt(fields, 1, 4);
    NumberAt(fields, 13, 34);
    NumberAt(fields, 14, 36);
    NumberAt(fields, 15, 38);
  }

  lemma CentralNumbers(c: Codec, e: Entry, place: nat)
    requires |c.deflate(e.data)| < TWO_32 && place < TWO_32
    ensures var b, f := CentralHeader(c, e, place), Expected(c, e);
      && |b| == 46 + |e.name| && Num32(b, 0) == CENTRAL
      && Num32(b, 16) == f.crc && Num32(b, 20) == |f.packed| && Num32(b, 24) == f.size && Num32(b, 42) == place
  {
    var fields := CentralFields(c, e, place);
    CentralOffsets(c, e, place);
    CentralLength(c, e, place);
    NumberAt(fields, 0, 0);
    NumberAt(fields, 7, 16);
    NumberAt(fields, 8, 20);
    NumberAt(fields, 9, 24);
    NumberAt(fields, 16, 42);
  }

  lemma CentralName(c: Codec, e: Entry, place: nat)
    requires |e.name| < TWO_16
    ensures var b := CentralHeader(c, e, place);
      && |b| == 46 + |e.name| && Num16(b, 28) == |e.name| && Num16(b, 30) == 0 && Num16(b, 32) == 0 && Holds(b, 46, e.name)
  {
    var fields := CentralFields(c, e, place);
    CentralOffsets(c, e, place);
    CentralLength(c, e, place);
    NumberAt(fields, 10, 28);
    NumberAt(fields, 11, 30);
    NumberAt(fields, 12, 32);
    FieldAt(fields, 17);
  }

  lemma CentralHeaderTells(c: Codec, e: Entry, place: nat)
    requires |e.name| < TWO_16 && |c.deflate(e.data)| < TWO_32 && place < TWO_32
    ensures CentralTells(CentralHeader(c, e, place), Expected(c, e), place)
  {
    CentralMannerTells(c, e, place);
    CentralOriginTells(c, e, place);
    CentralNumbers(c, e, place);
    CentralName(c, e, place);
  }

  lemma EndOffsets(count: nat, size: nat, place: nat)
    ensures var fields := EndFields(count, size, place);
      && Offset(fields, 0) == 0 && Offset(fields, 1) == 4 && Offset(fields, 2) == 6 && Offset(fields, 3) == 8
      && Offset(fields, 4) == 10 && Offset(fields, 5) == 12 && Offset(fields, 6) == 16 && Offset(fields, 7) == 20
      && Offset(fields, |fields|) == 22
  {
    var fields := EndFields(count, size, place);
    assert Offset(fields, 1) == 4;
    assert Offset(fields, 2) == 6;
    assert Offset(fields, 3) == 8;
    assert Offset(fields, 4) == 10;
    assert Offset(fields, 5) == 12;
    assert Offset(fields, 6) == 16;
    assert Offset(fields, 7) == 20;
  }

  /** The number of a field, read in a file that holds the header. */
  lemma NumberHeld(file: Bytes, start: nat, fields: seq<Field>, i: nat, at: nat)
    requires i < |fields| && Offset(fields, i) == at && Holds(file, start, Header(fields))
    ensures start + at + Width(fields[i]) <= |file|
    ensures fields[i].Two? ==> Num16(file, start + at) == fields[i].value % TWO_16
    ensures fields[i].Four? ==> Num32(file, start + at) == fields[i].value % TWO_32
  {
    NumberAt(fields, i, at);
    if fields[i].Two? {
      Holds16(file, start, Header(fields), at);
    } else if fields[i].Four? {
      Holds32(file, start, Header(fields), at);
    }
  }

  lemma EndCounts(file: Bytes, at: nat, count: nat, size: nat, place: nat)
    requires Holds(file, at, Header(EndFields(count, size, place))) && count < TWO_16
    ensures |file| >= at + 22 && Num32(file, at) == END && Num16(file, at + 4) == 0 && Num16(file, at + 6) == 0
    ensures Num16(file, at + 8) == count && Num16(file, at + 10) == count
  {
    var fields := EndFields(count, size, place);
    EndOffsets(count, size, place);
    NumberHeld(file, at, fields, 0, 0);
    NumberHeld(file, at, fields, 1, 4);
    NumberHeld(file, at, fields, 2, 6);
    NumberHeld(file, at, fields, 3, 8);
    NumberHeld(file, at, fields, 4, 10);
    NumberHeld(file, at, fields, 7, 20);
  }

  lemma EndPlaces(file: Bytes, at: nat, count: nat, size: nat, place: nat)
    requires Holds(file, at, Header(EndFields(count, size, place))) && place < TWO_32
    ensures |Header(EndFields(count, size, place))| == 22 && |file| >= at + 22
    ensures Num32(file, at + 12) == size % TWO_32 && Num32(file, at + 16) == place && Num16(file, at + 20) == 0
  {
    var fields := EndFields(count, size, place);
    EndOffsets(count, size, place);
    ConcatLength(fields, 8);
    NumberHeld(file, at, fields, 5, 12);
    NumberHeld(file, at, fields, 6, 16);
    NumberHeld(file, at, fields, 7, 20);
  }

  lemma EndRead(file: Bytes, at: nat, count: nat, size: nat, place: nat)
    requires Holds(file, at, Header(EndFields(count, size, place)))
    requires |file| == at + |Header(EndFields(count, size, place))|
    requires count < TWO_16 && place < TWO_32 && at == place + size
    ensures |file| == at + 22 && EndAgrees(file)
    ensures Num16(file, |file| - 12) == count && Num32(file, |file| - 6) == place
  {
    EndCounts(file, at, count, size, place);
    EndPlaces(file, at, count, size, place);
  }

  function CentralOf(f: Found, place: nat, next: nat): Central {
    Central(f.name, f.manner, f.origin, f.crc, |f.packed|, f.size, place, next)
  }

  lemma HoldsManner(file: Bytes, at: nat, chunk: Bytes, i: nat)
    requires Holds(file, at, chunk) && i + 10 <= |chunk|
    ensures ReadManner(file, at + i) == ReadManner(chunk, i)
  {
    Holds16(file, at, chunk, i);
    Holds16(file, at, chunk, i + 2);
    Holds16(file, at, chunk, i + 4);
    Holds16(file, at, chunk, i + 6);
    Holds16(file, at, chunk, i + 8);
  }

  lemma HoldsOrigin(file: Bytes, at: nat, chunk: Bytes)
    requires Holds(file, at, chunk) && 42 <= |chunk|
    ensures ReadOrigin(file, at) == ReadOrigin(chunk, 0)
  {
    Holds16(file, at, chunk, 4);
    Holds16(file, at, chunk, 34);
    Holds16(file, at, chunk, 36);
    Holds32(file, at, chunk, 38);
  }

  lemma LocalHeld(file: Bytes, at: nat, local: Bytes, f: Found)
    requires LocalTells(local, f) && Holds(file, at, local)
    ensures |local| == 30 + |f.name| && |file| >= at + |local|
    ensures Num32(file, at) == LOCAL && ReadManner(file, at + 4) == f.manner
    ensures Num32(file, at + 14) == f.crc && Num32(file, at + 18) == |f.packed| && Num32(file, at + 22) == f.size
    ensures Num16(file, at + 26) == |f.name| && Num16(file, at + 28) == 0
  {
    HoldsManner(file, at, local, 4);
    Holds32(file, at, local, 0);
    Holds32(file, at, local, 14);
    Holds32(file, at, local, 18);
    Holds32(file, at, local, 22);
    Holds16(file, at, local, 26);
    Holds16(file, at, local, 28);
  }

  lemma LocalRead(file: Bytes, h: Central, local: Bytes, f: Found)
    requires LocalTells(local, f) && Holds(file, h.place, local) && Holds(file, h.place + |local|, f.packed)
    requires h == CentralOf(f, h.place, h.next)
    ensures ReadLocal(file, h) == Some(f.packed)
  {
    LocalHeld(file, h.place, local, f);
    HoldsPart(file, h.place, local, 30, f.name);
    HoldsSlice(file, h.place + 30, f.name);
    HoldsSlice(file, h.place + |local|, f.packed);
  }

  lemma CentralRead(file: Bytes, at: nat, next: nat, central: Bytes, f: Found, place: nat)
    requires CentralTells(central, f, place) && Holds(file, at, central) && next == at + |central|
    ensures ReadCentral(file, at) == Some(CentralOf(f, place, next))
  {
    HoldsManner(file, at, central, 6);
    HoldsOrigin(file, at, central);
    Holds32(file, at, central, 0);
    Holds32(file, at, central, 16);
    Holds32(file, at, central, 20);
    Holds32(file, at, central, 24);
    Holds16(file, at, central, 28);
    Holds16(file, at, central, 30);
    Holds16(file, at, central, 32);
    Holds32(file, at, central, 42);
    HoldsPart(file, at, central, 46, f.name);
    HoldsSlice(file, at + 46, f.name);
  }

  lemma Appended(a: Bytes, b: Bytes)
    ensures Holds(a + b, 0, a) && Holds(a + b, |a|, b)
  {
  }

  lemma {:induction false} LocalsLength(c: Codec, entries: seq<Entry>, k: nat)
    requires k <= |entries|
    ensures |Locals(c, entries, k)| == Place(c, entries, k)
  {
    if k > 0 {
      LocalsLength(c, entries, k - 1);
      LocalLength(c, entries[k - 1]);
    }
  }

  lemma {:induction false} LocalsGrow(c: Codec, entries: seq<Entry>, j: nat, k: nat)
    requires j <= k <= |entries|
    ensures Holds(Locals(c, entries, k), 0, Locals(c, entries, j))
    decreases k
  {
    if j < k {
      LocalsGrow(c, entries, j, k - 1);
      Longer(Locals(c, entries, k - 1), LocalHeader(c, entries[k - 1]) + c.deflate(entries[k - 1].data), Locals(c, entries, j));
    }
  }

  lemma {:induction false} DirectoryGrows(c: Codec, entries: seq<Entry>, j: nat, k: nat)
    requires j <= k <= |entries|
    ensures Holds(Directory(c, entries, k), 0, Directory(c, entries, j))
    decreases k
  {
    if j < k {
      DirectoryGrows(c, entries, j, k - 1);
      Longer(Directory(c, entries, k - 1), CentralHeader(c, entries[k - 1], Place(c, entries, k - 1)), Directory(c, entries, j));
    }
  }

  /** A chunk after another within a larger one. */
  lemma After(file: Bytes, whole: Bytes, before: Bytes, chunk: Bytes, at: nat)
    requires Holds(file, at, whole) && Holds(whole, 0, before + chunk)
    ensures Holds(file, at + |before|, chunk)
  {
    Appended(before, chunk);
    HoldsPart(whole, 0, before + chunk, |before|, chunk);
    HoldsPart(file, at, whole, |before|, chunk);
  }

  lemma RecordParts(file: Bytes, whole: Bytes, before: Bytes, local: Bytes, packed: Bytes, place: nat)
    requires Holds(file, 0, whole) && Holds(whole, 0, before + (local + packed)) && place == |before|
    ensures Holds(file, place, local) && Holds(file, place + |local|, packed)
  {
    After(file, whole, before, local + packed, 0);
    Appended(local, packed);
    HoldsPart(file, place, local + packed, 0, local);
    HoldsPart(file, place, local + packed, |local|, packed);
  }

  /** Each recorded place is the true one of the local header and the packed bytes behind it. */
  lemma LocalPlaced(c: Codec, entries: seq<Entry>, file: Bytes, k: nat)
    requires k < |entries| && Holds(file, 0, Locals(c, entries, |entries|))
    ensures Holds(file, Place(c, entries, k), LocalHeader(c, entries[k]))
    ensures Holds(file, Place(c, entries, k) + |LocalHeader(c, entries[k])|, c.deflate(entries[k].data))
  {
    var local, packed := LocalHeader(c, entries[k]), c.deflate(entries[k].data);
    LocalsLength(c, entries, k);
    LocalsGrow(c, entries, k + 1, |entries|);
    assert Locals(c, entries, k + 1) == Locals(c, entries, k) + (local + packed);
    RecordParts(file, Locals(c, entries, |entries|), Locals(c, entries, k), local, packed, Place(c, entries, k));
  }

  lemma CentralPlaced(c: Codec, entries: seq<Entry>, file: Bytes, base: nat, k: nat)
    requires k < |entries| && Holds(file, base, Directory(c, entries, |entries|))
    ensures Holds(file, base + |Directory(c, entries, k)|, CentralHeader(c, entries[k], Place(c, entries, k)))
  {
    DirectoryGrows(c, entries, k + 1, |entries|);
    assert Directory(c, entries, k + 1) == Directory(c, entries, k) + CentralHeader(c, entries[k], Place(c, entries, k));
    After(file, Directory(c, entries, |entries|), Directory(c, entries, k), CentralHeader(c, entries[k], Place(c, entries, k)), base);
  }

  lemma EntryFrom(file: Bytes, at: nat, f: Found, h: Central)
    requires ReadCentral(file, at) == Some(h) && ReadLocal(file, h) == Some(f.packed) && h == CentralOf(f, h.place, h.next)
    ensures ReadEntry(file, at) == Some((f, h.next))
  {
  }

  /** A chain of positions, each read as one entry and leading to the next, is read as all of them. */
  lemma {:induction false} ChainRead(read: nat -> Option<(Found, nat)>, spots: seq<nat>, found: seq<Found>)
    requires |spots| == |found| + 1
    requires forall j :: 0 <= j < |found| ==> read(spots[j]) == Some((found[j], spots[j + 1]))
    ensures ReadFrom(read, spots[0], |found|) == Some(found)
    decreases |found|
  {
    if found != [] {
      ChainRead(read, spots[1..], found[1..]);
      assert found == [found[0]] + found[1..];
      assert ReadFrom(read, spots[1], |found| - 1) == Some(found[1..]);
      assert read(spots[0]) == Some((found[0], spots[1]));
    }
  }

  function AllExpected(c: Codec, entries: seq<Entry>): seq<Found> {
    seq(|entries|, i requires 0 <= i < |entries| => Expected(c, entries[i]))
  }

  /** The records stay within what a four-byte position can hold. */
  predicate FitsLong(c: Codec, entries: seq<Entry>) {
    Place(c, entries, |entries|) < TWO_32
  }

  /** Where the k-th central header stands. */
  function Spot(c: Codec, entries: seq<Entry>, k: nat): nat
    requires k <= |entries|
  {
    Place(c, entries, |entries|) + |Directory(c, entries, k)|
  }

  lemma {:induction false} PlaceGrows(c: Codec, entries: seq<Entry>, k: nat, n: nat)
    requires k < n <= |entries|
    ensures Place(c, entries, k) + |c.deflate(entries[k].data)| <= Place(c, entries, n)
  {
    if k + 1 < n {
      PlaceGrows(c, entries, k, n - 1);
    }
  }

  lemma SpotReads(c: Codec, entries: seq<Entry>, file: Bytes, k: nat)
    requires FitsLong(c, entries) && k < |entries| && |entries[k].name| < TWO_16
    requires Holds(file, 0, Locals(c, entries, |entries|))
    requires Holds(file, Place(c, entries, |entries|), Directory(c, entries, |entries|))
    ensures ReadEntry(file, Spot(c, entries, k)) == Some((Expected(c, entries[k]), Spot(c, entries, k + 1)))
  {
    PlaceGrows(c, entries, k, |entries|);
    LocalPlaced(c, entries, file, k);
    CentralPlaced(c, entries, file, Place(c, entries, |entries|), k);
    TellingRead(c, file, Spot(c, entries, k), Spot(c, entries, k + 1), entries[k], Place(c, entries, k));
  }

  /** What tells of an entry, at its places, is read as that entry. */
  lemma EntryRead(file: Bytes, at: nat, next: nat, local: Bytes, f: Found, place: nat)
    requires ReadCentral(file, at) == Some(CentralOf(f, place, next))
    requires LocalTells(local, f) && Holds(file, place, local) && Holds(file, place + |local|, f.packed)
    ensures ReadEntry(file, at) == Some((f, next))
  {
    LocalRead(file, CentralOf(f, place, next), local, f);
    EntryFrom(file, at, f, CentralOf(f, place, next));
  }

  lemma TellingRead(c: Codec, file: Bytes, at: nat, next: nat, e: Entry, place: nat)
    requires |e.name| < TWO_16 && |c.deflate(e.data)| < TWO_32 && place < TWO_32
    requires Holds(file, place, LocalHeader(c, e)) && Holds(file, place + |LocalHeader(c, e)|, c.deflate(e.data))
    requires Holds(file, at, CentralHeader(c, e, place)) && next == at + |CentralHeader(c, e, place)|
    ensures ReadEntry(file, at) == Some((Expected(c, e), next))
  {
    LocalHeaderTells(c, e);
    CentralHeaderTells(c, e, place);
    CentralRead(file, at, next, CentralHeader(c, e, place), Expected(c, e), place);
    EntryRead(file, at, next, LocalHeader(c, e), Expected(c, e), place);
  }

  function Spots(c: Codec, entries: seq<Entry>): (spots: seq<nat>)
    ensures |spots| == |entries| + 1 && forall k :: 0 <= k <= |entries| ==> spots[k] == Spot(c, entries, k)
  {
    seq(|entries| + 1, k requires 0 <= k <= |entries| => Spot(c, entries, k))
  }

  lemma DirectoryRead(c: Codec, entries: seq<Entry>, file: Bytes, read: nat -> Option<(Found, nat)>)
    requires FitsShort(entries) && FitsLong(c, entries)
    requires Holds(file, 0, Locals(c, entries, |entries|))
    requires Holds(file, Place(c, entries, |entries|), Directory(c, entries, |entries|))
    requires forall k :: 0 <= k < |entries| ==> read(Spot(c, entries, k)) == ReadEntry(file, Spot(c, entries, k))
    ensures ReadFrom(read, Spot(c, entries, 0), |entries|) == Some(AllExpected(c, entries))
  {
    NamesFitIff(entries, |entries|);
    forall k | 0 <= k < |entries|
      ensures read(Spot(c, entries, k)) == Some((Expected(c, entries[k]), Spot(c, entries, k + 1)))
    {
      SpotReads(c, entries, file, k);
    }
    ChainRead(read, Spots(c, entries), AllExpected(c, entries));
  }

  lemma Assembled(records: Bytes, directory: Bytes, end: Bytes)
    ensures var file := records + directory + end;
      Holds(file, 0, records) && Holds(file, |records|, directory) && Holds(file, |records + directory|, end)
  {
  }

  lemma EndFound(c: Codec, entries: seq<Entry>)
    requires FitsShort(entries) && FitsLong(c, entries)
    ensures var file := Archive(c, entries);
      && |file| >= 22 && EndAgrees(file)
      && Num16(file, |file| - 12) == |entries| && Num32(file, |file| - 6) == Place(c, entries, |entries|)
  {
    var n := |entries|;
    var locals, directory := Locals(c, entries, n), Directory(c, entries, n);
    LocalsLength(c, entries, n);
    Assembled(locals, directory, Header(EndFields(n, |directory|, Place(c, entries, n))));
    EndRead(Archive(c, entries), |locals + directory|, n, |directory|, Place(c, entries, n));
  }

  lemma DirectoryFound(c: Codec, entries: seq<Entry>)
    requires FitsShort(entries) && FitsLong(c, entries)
    ensures ReadFrom(at => ReadEntry(Archive(c, entries), at), Place(c, entries, |entries|), |entries|) == Some(AllExpected(c, entries))
  {
    var n := |entries|;
    var locals, directory := Locals(c, entries, n), Directory(c, entries, n);
    LocalsLength(c, entries, n);
    Assembled(locals, directory, Header(EndFields(n, |directory|, Place(c, entries, n))));
    DirectoryRead(c, entries, Archive(c, entries), at => ReadEntry(Archive(c, entries), at));
  }

  /**
   * Whatever is written is read back, entry by entry and in order, provided the
   * records fit the four-byte positions: the name, the manner of storing, the
   * checksum and packed bytes, and the length of the contents as four bytes
   * hold it.
   */
  lemma RoundTrip(c: Codec, entries: seq<Entry>)
    requires FitsShort(entries) && FitsLong(c, entries)
    ensures ReadArchive(Archive(c, entries)) == Some(AllExpected(c, entries))
  {
    EndFound(c, entries);
    DirectoryFound(c, entries);
  }

  /** The true description of an entry. */
  function Described(c: Codec, e: Entry): Found {
    Found(e.name, Packed(), Origin(20, 0, 0, 0), c.crc(e.data), |e.data|, c.deflate(e.data))
  }

  function AllDescribed(c: Codec, entries: seq<Entry>): seq<Found> {
    seq(|entries|, i requires 0 <= i < |entries| => Described(c, entries[i]))
  }

  /** Checksums being of four bytes, the reader's account is the true one exactly when each length fits four bytes. */
  lemma ExactWhenLengthsFit(c: Codec, entries: seq<Entry>)
    requires FitsShort(entries) && FitsLong(c, entries)
    requires forall i :: 0 <= i < |entries| ==> c.crc(entries[i].data) < TWO_32
    ensures ReadArchive(Archive(c, entries)) == Some(AllDescribed(c, entries))
      <==> forall i :: 0 <= i < |entries| ==> |entries[i].data| < TWO_32
  {
    RoundTrip(c, entries);
    SameAccount(c, entries);
  }

  lemma SameAccount(c: Codec, entries: seq<Entry>)
    requires forall i :: 0 <= i < |entries| ==> c.crc(entries[i].data) < TWO_32
    ensures AllExpected(c, entries) == AllDescribed(c, entries)
      <==> forall i :: 0 <= i < |entries| ==> |entries[i].data| < TWO_32
  {
    var got, want := AllExpected(c, entries), AllDescribed(c, entries);
    assert forall i :: 0 <= i < |entries| ==> (got[i] == want[i] <==> |entries[i].data| < TWO_32);
  }

  /** The flag that says a name is in UTF-8. */
  predicate Utf8Name(m: Manner) {
    m.flags / 0x0800 % 2 == 1
  }

  /** Year, month and day of a date as the format has it. */
  function DayOf(m: Manner): (nat, nat, nat) {
    (1980 + m.date / 512, m.date / 32 % 16, m.date % 32)
  }

  /**
   * The contents as a reader takes them out: copied if they are stored, inflated
   * if they are deflated, and given out if checksum and length are as recorded.
   */
  function Extract(f: Found, inflate: Bytes -> Bytes, crc: Bytes -> nat): Option<Entry> {
    var data :=
      if f.manner.packing == 0 then Some(f.packed)
      else if f.manner.packing == 8 then Some(inflate(f.packed))
      else None;
    if data.None? || f.manner.needs > 20 || !Utf8Name(f.manner) || crc(data.value) != f.crc || |data.value| != f.size then None
    else Some(Entry(f.name, data.value))
  }

  /**
   * With an inverse of the compression and a checksum of four bytes, every entry
   * is found, dated the first of January 1980, and taken out as it was put in,
   * exactly if its length fits four bytes.
   */
  lemma ContentsComeBack(c: Codec, inflate: Bytes -> Bytes, entries: seq<Entry>)
    requires forall d: Bytes :: inflate(c.deflate(d)) == d && c.crc(d) < TWO_32
    requires FitsShort(entries) && FitsLong(c, entries)
    ensures var found := ReadArchive(Archive(c, entries));
      && found.Some? && |found.value| == |entries|
      && (forall i :: 0 <= i < |entries| ==> DayOf(found.value[i].manner) == (1980, 1, 1))
      && (forall i :: 0 <= i < |entries| ==>
            (Extract(found.value[i], inflate, c.crc) == Some(entries[i]) <==> |entries[i].data| < TWO_32))
  {
    RoundTrip(c, entries);
    forall i | 0 <= i < |entries|
      ensures DayOf(Expected(c, entries[i]).manner) == (1980, 1, 1)
      ensures Extract(Expected(c, entries[i]), inflate, c.crc) == Some(entries[i]) <==> |entries[i].data| < TWO_32
    {
      ExtractIff(c, inflate, entries[i]);
    }
  }

  lemma ExtractIff(c: Codec, inflate: Bytes -> Bytes, e: Entry)
    requires forall d: Bytes :: inflate(c.deflate(d)) == d && c.crc(d) < TWO_32
    ensures DayOf(Expected(c, e).manner) == (1980, 1, 1)
    ensures Extract(Expected(c, e), inflate, c.crc) == Some(e) <==> |e.data| < TWO_32
  {
    assert inflate(c.deflate(e.data)) == e.data && c.crc(e.data) < TWO_32;
  }
}
