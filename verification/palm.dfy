/** The 78-byte Palm database header at the front of the MOBI and AZW
    files (`createPalmHeader` in `scripts/mobi-converter.js` and
    `scripts/azw-converter.js`): a zeroed buffer written field by field
    through a big-endian `DataView`. */
module Palm {
  import opened JsText
  import opened Bytes

  const PALM_HEADER_LENGTH := 78
  /** Seconds from 1904-01-01 (the Palm epoch) to 1970-01-01. */
  const PALM_EPOCH_OFFSET := 2082844800
  /** The type code `BOOK`. */
  const BOOK_TYPE := 0x424F4F4B
  /** The creator codes `MOBI` and `TPEZ`. */
  const MOBI_CREATOR := 0x4D4F4249
  const TPEZ_CREATOR := 0x5450455A

  /** `title.substring(0, 31).padEnd(32, '\0')` */
  function PaddedTitle(title: JsString): (r: JsString)
    ensures |r| == 32
  {
    var kept := if |title| < 31 then title else title[..31];
    kept + seq(32 - |kept|, i => 0)
  }

  /** The name field: the first 31 code units of the title, each cut to
      its low byte by `setUint8`, then zeros; byte 31 is always zero. */
  function NameField(title: JsString): (r: seq<Byte>)
    ensures |r| == 32
  {
    seq(32, i requires 0 <= i < 32 => if i < 31 && i < |title| then title[i] % 256 else 0)
  }

  /** `Math.floor(Date.now() / 1000) + 2082844800` for a clock reading in
      milliseconds; `/` on a positive divisor is the floor. */
  function PalmTime(nowMillis: int): int
  {
    nowMillis / 1000 + PALM_EPOCH_OFFSET
  }

  /** Attributes 0, version 1, creation and modification time, then the
      zero backup date, modification number and info ids: bytes 32..59. */
  function PalmDatesField(nowMillis: int): (r: seq<Byte>)
    ensures |r| == 28
  {
    Uint16Bytes(0) + Uint16Bytes(1)
    + Uint32Bytes(PalmTime(nowMillis)) + Uint32Bytes(PalmTime(nowMillis))
    + Uint32Bytes(0) + Uint32Bytes(0) + Uint32Bytes(0) + Uint32Bytes(0)
  }

  /** Type, creator, unique-id seed, next record list and the number of
      records: bytes 60..77. */
  function PalmIdsField(creator: int): (r: seq<Byte>)
    ensures |r| == 18
  {
    Uint32Bytes(BOOK_TYPE) + Uint32Bytes(creator) + Uint32Bytes(0) + Uint32Bytes(0) + Uint16Bytes(2)
  }

  /** The header as the writes leave it. */
  function PalmHeader(title: JsString, nowMillis: int, creator: int): (r: seq<Byte>)
    ensures |r| == PALM_HEADER_LENGTH
  {
    NameField(title) + PalmDatesField(nowMillis) + PalmIdsField(creator)
  }

  /** The name loop: `setUint8(i, title.charCodeAt(i))` for each of the
      32 units of the padded title. */
  method WriteName(header: array<Byte>, title: JsString)
    requires header.Length == PALM_HEADER_LENGTH && WrittenUpTo(header[..], [])
    modifies header
    ensures WrittenUpTo(header[..], NameField(title))
  {
    var padded := PaddedTitle(title);
    ghost var name := NameField(title);
    assert name[..0] == [];
    var i := 0;
    while i < if 32 < |padded| then 32 else |padded|
      invariant 0 <= i <= 32
      invariant WrittenUpTo(header[..], name[..i])
    {
      SetUint8(header, i, padded[i]);
      WriteAt(name[..i], 0, [padded[i] % 256], 78 - i);
      assert name[..i] + [padded[i] % 256] == name[..i + 1];
      i := i + 1;
    }
    assert name[..i] == name;
  }

  /** Attributes, version and the four date and counter words at 32..59. */
  method WriteDates(header: array<Byte>, ghost done: seq<Byte>, nowMillis: int)
    requires header.Length == PALM_HEADER_LENGTH && |done| == 32 && WrittenUpTo(header[..], done)
    modifies header
    ensures WrittenUpTo(header[..], done + PalmDatesField(nowMillis))
  {
    PutUint16(header, done, 32, 0x0000);
    ghost var q := Uint16Bytes(0);
    PutUint16(header, done + q, 34, 0x0001);
    AppendAssoc(done, q, Uint16Bytes(1));
    q := q + Uint16Bytes(1);
    var now := nowMillis / 1000 + PALM_EPOCH_OFFSET;
    PutUint32(header, done + q, 36, now);
    AppendAssoc(done, q, Uint32Bytes(now));
    q := q + Uint32Bytes(now);
    PutUint32(header, done + q, 40, now);
    AppendAssoc(done, q, Uint32Bytes(now));
    q := q + Uint32Bytes(now);
    PutUint32(header, done + q, 44, 0);
    AppendAssoc(done, q, Uint32Bytes(0));
    q := q + Uint32Bytes(0);
    PutUint32(header, done + q, 48, 0);
    AppendAssoc(done, q, Uint32Bytes(0));
    q := q + Uint32Bytes(0);
    PutUint32(header, done + q, 52, 0);
    AppendAssoc(done, q, Uint32Bytes(0));
    q := q + Uint32Bytes(0);
    PutUint32(header, done + q, 56, 0);
    AppendAssoc(done, q, Uint32Bytes(0));
  }

  /** Type, creator, the two zero ids and the record count at 60..77. */
  method WriteIds(header: array<Byte>, ghost done: seq<Byte>, creator: int)
    requires header.Length == PALM_HEADER_LENGTH && |done| == 60 && WrittenUpTo(header[..], done)
    modifies header
    ensures header[..] == done + PalmIdsField(creator)
  {
    PutUint32(header, done, 60, BOOK_TYPE);
    ghost var q := Uint32Bytes(BOOK_TYPE);
    PutUint32(header, done + q, 64, creator);
    AppendAssoc(done, q, Uint32Bytes(creator));
    q := q + Uint32Bytes(creator);
    PutUint32(header, done + q, 68, 0);
    AppendAssoc(done, q, Uint32Bytes(0));
    q := q + Uint32Bytes(0);
    PutUint32(header, done + q, 72, 0);
    AppendAssoc(done, q, Uint32Bytes(0));
    q := q + Uint32Bytes(0);
    PutUint16(header, done + q, 76, 2);
    AppendAssoc(done, q, Uint16Bytes(2));
    q := q + Uint16Bytes(2);
    assert done + q + Zeros(0) == done + q;
  }

  /** The body the two `createPalmHeader` functions share; `creator` is
      the value they write at offset 64. */
  method WritePalmHeader(title: JsString, nowMillis: int, creator: int) returns (header: array<Byte>)
    ensures header[..] == PalmHeader(title, nowMillis, creator)
  {
    header := new Byte[PALM_HEADER_LENGTH](i => 0);
    assert WrittenUpTo(header[..], []);
    WriteName(header, title);
    WriteDates(header, NameField(title), nowMillis);
    WriteIds(header, NameField(title) + PalmDatesField(nowMillis), creator);
  }

  // ---------------------------------------------------------------------
  // The name field
  // ---------------------------------------------------------------------

  /** Only the first 31 units of the title reach the header. */
  lemma NameFieldCut(title: JsString)
    requires |title| > 31
    ensures NameField(title) == NameField(title[..31])
  {
  }

  /** An ASCII title of at most 31 characters is stored as its own UTF-8
      bytes, followed by at least one zero byte. */
  lemma NameFieldAscii(title: JsString)
    requires |title| <= 31 && AllAscii(title)
    ensures NameField(title) == Utf8Encode(title) + Zeros(32 - |title|)
  {
    Utf8Ascii(title);
    NameFieldShort(title);
  }

  lemma NameFieldShort(title: JsString)
    requires |title| <= 31 && forall i :: 0 <= i < |title| ==> title[i] < 0x80
    ensures NameField(title) == title + Zeros(32 - |title|)
  {
    var f := NameField(title);
    var g := title + Zeros(32 - |title|);
    forall i | 0 <= i < 32
      ensures f[i] == g[i]
    {
    }
  }

  // ---------------------------------------------------------------------
  // The layout
  // ---------------------------------------------------------------------

  lemma ZeroWords()
    ensures Uint16Bytes(0) == [0, 0] && Uint32Bytes(0) == [0, 0, 0, 0]
  {
  }

  /** The type and creator codes spell `BOOK`, `MOBI` and `TPEZ` in ASCII. */
  lemma BookCode()
    ensures Uint32Bytes(BOOK_TYPE) == [0x42, 0x4F, 0x4F, 0x4B]
  {
  }

  lemma MobiCode()
    ensures Uint32Bytes(MOBI_CREATOR) == [0x4D, 0x4F, 0x42, 0x49]
  {
  }

  lemma TpezCode()
    ensures Uint32Bytes(TPEZ_CREATOR) == [0x54, 0x50, 0x45, 0x5A]
  {
  }

  /** Bytes 32 to 59: attributes 0 and version 1, the same reading of
      the clock as creation and modification time, then sixteen zero bytes
      (backup date, modification number, info ids). */
  lemma PalmDatesLayout(nowMillis: int)
    ensures var t := Uint32Bytes(PalmTime(nowMillis));
      PalmDatesField(nowMillis) == [0, 0, 0, 1] + t + t + Zeros(16)
  {
    ZeroWords();
    assert Uint16Bytes(1) == [0, 1];
    var t := Uint32Bytes(PalmTime(nowMillis));
    var z := Uint32Bytes(0);
    var x := Uint16Bytes(0) + Uint16Bytes(1) + t + t;
    AppendAssoc(x, z, z);
    AppendAssoc(x, z + z, z);
    AppendAssoc(x, z + z + z, z);
    assert z + z + z + z == Zeros(16);
    assert Uint16Bytes(0) + Uint16Bytes(1) == [0, 0, 0, 1];
  }

  /** Bytes 60 to 77: type `BOOK`, the creator, eight zero bytes (unique
      id seed, next record list) and a record count of 2. */
  lemma PalmIdsLayout(creator: int)
    ensures PalmIdsField(creator) == [0x42, 0x4F, 0x4F, 0x4B] + Uint32Bytes(creator) + Zeros(8) + [0, 2]
  {
    ZeroWords();
    BookCode();
    assert Uint16Bytes(2) == [0, 2];
    var z := Uint32Bytes(0);
    AppendAssoc(Uint32Bytes(BOOK_TYPE) + Uint32Bytes(creator), z, z);
    assert z + z == Zeros(8);
  }

  /** The whole header: the 32-byte name field, bytes 32..59 and bytes
      60..77. */
  lemma PalmLayout(title: JsString, nowMillis: int, creator: int)
    ensures var h := PalmHeader(title, nowMillis, creator);
      var t := Uint32Bytes(PalmTime(nowMillis));
      h == NameField(title) + ([0, 0, 0, 1] + t + t + Zeros(16))
                               + ([0x42, 0x4F, 0x4F, 0x4B] + Uint32Bytes(creator) + Zeros(8) + [0, 2])
  {
    PalmDatesLayout(nowMillis);
    PalmIdsLayout(creator);
  }
}
