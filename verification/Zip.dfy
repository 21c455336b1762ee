/**
 The reader of zip archives, against the layout of sections 4.3.7 (local file header), 4.3.12
 (central directory) and 4.3.16 (end of central directory record) of the PKWARE ZIP APPNOTE.
 Inflating is an abstract function, and names stay bytes.
 */
module Zip {
  import opened Sequences
  import opened Wrappers

  type Byte = b: int | 0 <= b < 256

  type Bytes = seq<Byte>

  const END_OF_CENTRAL_DIRECTORY := 0x06054b50
  const CENTRAL_FILE_HEADER := 0x02014b50

  datatype Entry = Entry(name: Bytes, contents: Bytes)

  datatype Error =
    | NotAnArchive
    | OutOfRange
    | Malformed(offset: nat)
    | Unsupported(compression: nat, name: Bytes)
    | BadData

  type Inflate = Bytes -> Option<Bytes>

  // ---------------------------------------------------------------------------------------
  // Reading
  // ---------------------------------------------------------------------------------------

  function ReadUInt16LE(zip: Bytes, i: nat): Result<nat, Error> {
    if i + 2 <= |zip| then Ok(zip[i] as int + 0x100 * (zip[i + 1] as int)) else Err(OutOfRange)
  }

  function ReadUInt32LE(zip: Bytes, i: nat): Result<nat, Error> {
    if i + 4 <= |zip| then
      Ok(zip[i] as int + 0x100 * (zip[i + 1] as int) + 0x10000 * (zip[i + 2] as int) + 0x1000000 * (zip[i + 3] as int))
    else Err(OutOfRange)
  }

  function Min(a: nat, b: nat): nat {
    if a < b then a else b
  }

  // A slice of a buffer is cut off at the buffer's end.
  function Subarray(zip: Bytes, from: nat, length: nat): Bytes {
    zip[Min(from, |zip|)..Min(from + length, |zip|)]
  }

  datatype Header = Header(compression: nat, compressedSize: nat, name: Bytes, localOffset: nat, next: nat)

  // One central directory header, and where the next one is.
  function ReadHeader(zip: Bytes, offset: nat): Result<Header, Error> {
    var signature :- ReadUInt32LE(zip, offset);
    if signature != CENTRAL_FILE_HEADER then Err(Malformed(offset))
    else
      var compression :- ReadUInt16LE(zip, offset + 10);
      var compressedSize :- ReadUInt32LE(zip, offset + 20);
      var nameLength :- ReadUInt16LE(zip, offset + 28);
      var extraLength :- ReadUInt16LE(zip, offset + 30);
      var commentLength :- ReadUInt16LE(zip, offset + 32);
      var localHeaderOffset :- ReadUInt32LE(zip, offset + 42);
      Ok(Header(compression, compressedSize, Subarray(zip, offset + 46, nameLength), localHeaderOffset,
                offset + 46 + nameLength + extraLength + commentLength))
  }

  // The contents a header leads to: they start after the local header's own name and extra field.
  function ReadContents(zip: Bytes, inflate: Inflate, header: Header): Result<Bytes, Error> {
    var localNameLength :- ReadUInt16LE(zip, header.localOffset + 26);
    var localExtraLength :- ReadUInt16LE(zip, header.localOffset + 28);
    var dataStart := header.localOffset + 30 + localNameLength + localExtraLength;
    Decompress(inflate, header.compression, header.name, Subarray(zip, dataStart, header.compressedSize))
  }

  function ReadEntry(zip: Bytes, inflate: Inflate, offset: nat): Result<(Entry, nat), Error> {
    var header :- ReadHeader(zip, offset);
    var contents :- ReadContents(zip, inflate, header);
    Ok((Entry(header.name, contents), header.next))
  }

  function Decompress(inflate: Inflate, compression: nat, name: Bytes, raw: Bytes): Result<Bytes, Error> {
    if compression == 0 then Ok(raw)
    else if compression == 8 then (if inflate(raw).Some? then Ok(inflate(raw).value) else Err(BadData))
    else Err(Unsupported(compression, name))
  }

  type Reader = nat -> Result<(Entry, nat), Error>

  function EntryReader(zip: Bytes, inflate: Inflate): Reader {
    (offset: nat) => ReadEntry(zip, inflate, offset)
  }

  // `count` headers, each read where the one before it ended.
  function ReadFrom(read: Reader, count: nat, offset: nat): Result<seq<Entry>, Error> {
    if count == 0 then Ok([])
    else
      var first :- read(offset);
      var rest :- ReadFrom(read, count - 1, first.1);
      Ok([first.0] + rest)
  }

  predicate EndRecordAt(zip: Bytes, i: nat) {
    i + 22 <= |zip| && ReadUInt32LE(zip, i) == Ok(END_OF_CENTRAL_DIRECTORY)
  }

  // Searched from the back: the last place that could hold the record.
  function LastEndRecord(zip: Bytes, from: int): (r: Result<nat, Error>)
    ensures r.Ok? ==> r.value <= from && EndRecordAt(zip, r.value) && forall j: nat :: r.value < j <= from ==>
              !EndRecordAt(zip, j)
    ensures r.Err? ==> r.error == NotAnArchive && forall j: nat :: j <= from ==> !EndRecordAt(zip, j)
    decreases from + 1
  {
    if from < 0 then Err(NotAnArchive)
    else if EndRecordAt(zip, from) then Ok(from)
    else LastEndRecord(zip, from - 1)
  }

  method FindEndOfCentralDirectory(zip: Bytes) returns (r: Result<nat, Error>)
    ensures r == LastEndRecord(zip, |zip| - 22)
  {
    var i := |zip| - 22;
    while i >= 0
      invariant i <= |zip| - 22 && LastEndRecord(zip, |zip| - 22) == LastEndRecord(zip, i)
    {
      if ReadUInt32LE(zip, i) == Ok(END_OF_CENTRAL_DIRECTORY) {
        return Ok(i);
      }
      i := i - 1;
    }
    return Err(NotAnArchive);
  }

  // The archive a given end record leads to.
  function ReadArchive(zip: Bytes, read: Reader, eocd: nat): Result<seq<Entry>, Error> {
    var entryCount :- ReadUInt16LE(zip, eocd + 10);
    var offset :- ReadUInt32LE(zip, eocd + 16);
    ReadFrom(read, entryCount, offset)
  }

  function ReadZip(zip: Bytes, read: Reader): Result<seq<Entry>, Error> {
    var eocd :- LastEndRecord(zip, |zip| - 22);
    ReadArchive(zip, read, eocd)
  }

  method ReadZipEntries(zip: Bytes, inflate: Inflate) returns (r: Result<seq<Entry>, Error>)
    ensures r == ReadZip(zip, EntryReader(zip, inflate))
  {
    r := ReadZipWith(zip, EntryReader(zip, inflate));
  }

  method ReadZipWith(zip: Bytes, read: Reader) returns (r: Result<seq<Entry>, Error>)
    ensures r == ReadZip(zip, read)
  {
    var eocd :- FindEndOfCentralDirectory(zip);
    var entryCount := ReadUInt16LE(zip, eocd + 10).value;
    var offset := ReadUInt32LE(zip, eocd + 16).value;
    r := ReadDirectory(read, entryCount, offset);
  }

  method ReadDirectory(read: Reader, entryCount: nat, start: nat) returns (r: Result<seq<Entry>, Error>)
    ensures r == ReadFrom(read, entryCount, start)
  {
    var entries: seq<Entry>, offset := [], start;
    NothingYet(ReadFrom(read, entryCount, start));
    for i := 0 to entryCount
      invariant ReadFrom(read, entryCount, start) == Continued(entries, ReadFrom(read, entryCount - i, offset))
    {
      var entry := read(offset);
      if entry.Err? {
        return Err(entry.error);
      }
      ReadOneMore(read, entryCount - i, offset, entries);
      entries := entries + [entry.value.0];
      offset := entry.value.1;
    }
    assert entries + [] == entries;
    return Ok(entries);
  }

  function Continued(entries: seq<Entry>, rest: Result<seq<Entry>, Error>): Result<seq<Entry>, Error> {
    if rest.Ok? then Ok(entries + rest.value) else rest
  }

  lemma NothingYet(rest: Result<seq<Entry>, Error>)
    ensures Continued([], rest) == rest
  {
    assert rest.Ok? ==> [] + rest.value == rest.value;
  }

  lemma ReadOneMore(read: Reader, count: nat, offset: nat, entries: seq<Entry>)
    requires count > 0 && read(offset).Ok?
    ensures var (entry, next) := read(offset).value;
            Continued(entries, ReadFrom(read, count, offset))
              == Continued(entries + [entry], ReadFrom(read, count - 1, next))
  {
    var (entry, next) := read(offset).value;
    var rest := ReadFrom(read, count - 1, next);
    if rest.Ok? {
      assert entries + ([entry] + rest.value) == entries + [entry] + rest.value;
    }
  }

  // ---------------------------------------------------------------------------------------
  // Writing
  // ---------------------------------------------------------------------------------------

  // A file of an archive, with every header field the reader skips left open: the local header up
  // to its lengths, the local header's own name and extra field, what follows the data (such as a
  // data descriptor), and the central header's versions, stamps, size and attributes.
  datatype Member = Member(
    name: Bytes, contents: Bytes, compression: nat, data: Bytes,
    localFields: Bytes, localName: Bytes, localExtra: Bytes, afterData: Bytes,
    versions: Bytes, stamps: Bytes, size: Bytes, attributes: Bytes, extra: Bytes, comment: Bytes)

  // A member whose local record stands at byte `at`.
  datatype Placed = Placed(member: Member, at: nat)

  // The end record's fields that the reader skips.
  datatype End = End(disks: Bytes, directorySize: Bytes, comment: Bytes)

  function LE16(n: nat): (r: Bytes)
    requires n < 0x10000
    ensures |r| == 2
  {
    [n % 0x100, n / 0x100]
  }

  function LE32(n: nat): (r: Bytes)
    requires n < 0x1_0000_0000
    ensures |r| == 4
  {
    [n % 0x100, n / 0x100 % 0x100, n / 0x10000 % 0x100, n / 0x1000000]
  }

  predicate Fits(m: Member) {
    && |m.localFields| == 22 && |m.versions| == 6 && |m.stamps| == 8 && |m.size| == 4 && |m.attributes| == 8
    && m.compression < 0x10000 && |m.data| < 0x1_0000_0000
    && |m.name| < 0x10000 && |m.extra| < 0x10000 && |m.comment| < 0x10000
    && |m.localName| < 0x10000 && |m.localExtra| < 0x10000
  }

  // 4.3.7: the header, whose lengths are at bytes 26 and 28, the name, the extra field, the data.
  function LocalHead(m: Member): (r: Bytes)
    requires Fits(m)
    ensures |r| == 30
  {
    LE32(0x04034b50) + m.localFields + LE16(|m.localName|) + LE16(|m.localExtra|)
  }

  function Local(m: Member): (r: Bytes)
    requires Fits(m)
    ensures |r| == 30 + |m.localName| + |m.localExtra| + |m.data| + |m.afterData|
  {
    LocalHead(m) + m.localName + m.localExtra + m.data + m.afterData
  }

  // 4.3.12, the fixed 46 bytes in two parts.
  function CentralFront(m: Member): (r: Bytes)
    requires Fits(m)
    ensures |r| == 24
  {
    LE32(0x02014b50) + m.versions + LE16(m.compression) + m.stamps + LE32(|m.data|)
  }

  function CentralBack(m: Member, localOffset: nat): (r: Bytes)
    requires Fits(m) && localOffset < 0x1_0000_0000
    ensures |r| == 22
  {
    m.size + LE16(|m.name|) + LE16(|m.extra|) + LE16(|m.comment|) + m.attributes + LE32(localOffset)
  }

  function Central(m: Member, localOffset: nat): (r: Bytes)
    requires Fits(m) && localOffset < 0x1_0000_0000
    ensures |r| == 46 + |m.name| + |m.extra| + |m.comment|
  {
    CentralFront(m) + CentralBack(m, localOffset) + m.name + m.extra + m.comment
  }

  predicate Listable(files: seq<Placed>) {
    forall i :: 0 <= i < |files| ==> Fits(files[i].member) && files[i].at < 0x1_0000_0000
  }

  // The central headers, in any order of the files and wherever their local records are.
  function Directory(files: seq<Placed>): Bytes
    requires Listable(files)
  {
    Concat(Headers(files))
  }

  function Headers(files: seq<Placed>): (r: seq<Bytes>)
    requires Listable(files)
    ensures |r| == |files|
  {
    seq(|files|, i requires 0 <= i < |files| => Central(files[i].member, files[i].at))
  }

  function Concat(parts: seq<Bytes>): Bytes {
    if parts == [] then [] else parts[0] + Concat(parts[1..])
  }

  predicate Endable(count: nat, directory: nat, end: End) {
    && count < 0x10000 && directory < 0x1_0000_0000
    && |end.disks| == 6 && |end.directorySize| == 4 && |end.comment| < 0x10000
  }

  // 4.3.16: how many files, where the directory is, and a comment.
  function EndRecord(count: nat, directory: nat, end: End): (r: Bytes)
    requires Endable(count, directory, end)
    ensures |r| == 22 + |end.comment|
  {
    LE32(0x06054b50) + end.disks + LE16(count) + end.directorySize + LE32(directory)
    + LE16(|end.comment|) + end.comment
  }

  predicate Stands(zip: Bytes, file: Placed) {
    Fits(file.member) && file.at < 0x1_0000_0000 && At(zip, file.at, Local(file.member))
  }

  // An archive: the files' local records stand where the directory says, in whatever order and with
  // whatever in between, before or behind, and the end record at `eocd` says where the directory is.
  predicate IsArchive(zip: Bytes, files: seq<Placed>, directory: nat, eocd: nat, end: End) {
    && Endable(|files|, directory, end) && (forall i :: 0 <= i < |files| ==> Stands(zip, files[i]))
    && At(zip, directory, Directory(files)) && At(zip, eocd, EndRecord(|files|, directory, end))
  }

  // A member's data holds its contents: as they are, or deflated.
  predicate Holds(inflate: Inflate, m: Member) {
    (m.compression == 0 && m.data == m.contents) || (m.compression == 8 && inflate(m.data) == Some(m.contents))
  }

  // ---------------------------------------------------------------------------------------
  // The reader inverts the layout
  // ---------------------------------------------------------------------------------------

  lemma Read16(zip: Bytes, i: nat, n: nat)
    requires n < 0x10000 && At(zip, i, LE16(n))
    ensures ReadUInt16LE(zip, i) == Ok(n)
  {
    assert zip[i + 0] == LE16(n)[0] && zip[i + 1] == LE16(n)[1];
  }

  lemma Read32(zip: Bytes, i: nat, n: nat)
    requires n < 0x1_0000_0000 && At(zip, i, LE32(n))
    ensures ReadUInt32LE(zip, i) == Ok(n)
  {
    assert zip[i + 0] == LE32(n)[0] && zip[i + 1] == LE32(n)[1] && zip[i + 2] == LE32(n)[2] && zip[i + 3] == LE32(n)[3];
    assert n / 0x10000 == n / 0x100 / 0x100 && n / 0x1000000 == n / 0x10000 / 0x100;
  }

  lemma CutOut(zip: Bytes, i: nat, part: Bytes)
    requires At(zip, i, part)
    ensures Subarray(zip, i, |part|) == part
  {
  }

  lemma FrontFields(zip: Bytes, i: nat, m: Member)
    requires Fits(m) && At(zip, i, CentralFront(m))
    ensures ReadUInt32LE(zip, i) == Ok(CENTRAL_FILE_HEADER)
    ensures ReadUInt16LE(zip, i + 10) == Ok(m.compression) && ReadUInt32LE(zip, i + 20) == Ok(|m.data|)
  {
    var head := LE32(CENTRAL_FILE_HEADER);
    AtParts(zip, i, head + m.versions + LE16(m.compression) + m.stamps, LE32(|m.data|));
    AtParts(zip, i, head + m.versions + LE16(m.compression), m.stamps);
    AtParts(zip, i, head + m.versions, LE16(m.compression));
    AtParts(zip, i, head, m.versions);
    Read32(zip, i, CENTRAL_FILE_HEADER);
    Read16(zip, i + 10, m.compression);
    Read32(zip, i + 20, |m.data|);
  }

  lemma BackFields(zip: Bytes, i: nat, m: Member, localOffset: nat)
    requires Fits(m) && localOffset < 0x1_0000_0000 && At(zip, i, CentralBack(m, localOffset))
    ensures ReadUInt16LE(zip, i + 4) == Ok(|m.name|) && ReadUInt16LE(zip, i + 6) == Ok(|m.extra|)
    ensures ReadUInt16LE(zip, i + 8) == Ok(|m.comment|) && ReadUInt32LE(zip, i + 18) == Ok(localOffset)
  {
    var lengths := m.size + LE16(|m.name|) + LE16(|m.extra|) + LE16(|m.comment|);
    AtParts(zip, i, lengths + m.attributes, LE32(localOffset));
    AtParts(zip, i, lengths, m.attributes);
    AtParts(zip, i, m.size + LE16(|m.name|) + LE16(|m.extra|), LE16(|m.comment|));
    AtParts(zip, i, m.size + LE16(|m.name|), LE16(|m.extra|));
    AtParts(zip, i, m.size, LE16(|m.name|));
    Read16(zip, i + 4, |m.name|);
    Read16(zip, i + 6, |m.extra|);
    Read16(zip, i + 8, |m.comment|);
    Read32(zip, i + 18, localOffset);
  }

  lemma LocalFields(zip: Bytes, i: nat, m: Member)
    requires Fits(m) && At(zip, i, Local(m))
    ensures ReadUInt16LE(zip, i + 26) == Ok(|m.localName|) && ReadUInt16LE(zip, i + 28) == Ok(|m.localExtra|)
    ensures Subarray(zip, i + 30 + |m.localName| + |m.localExtra|, |m.data|) == m.data
  {
    AtParts(zip, i, LocalHead(m) + m.localName + m.localExtra + m.data, m.afterData);
    AtParts(zip, i, LocalHead(m) + m.localName + m.localExtra, m.data);
    CutOut(zip, i + 30 + |m.localName| + |m.localExtra|, m.data);
    AtParts(zip, i, LocalHead(m) + m.localName, m.localExtra);
    AtParts(zip, i, LocalHead(m), m.localName);
    var front := LE32(0x04034b50) + m.localFields;
    AtParts(zip, i, front + LE16(|m.localName|), LE16(|m.localExtra|));
    AtParts(zip, i, front, LE16(|m.localName|));
    Read16(zip, i + 26, |m.localName|);
    Read16(zip, i + 28, |m.localExtra|);
  }

  lemma CentralParts(zip: Bytes, i: nat, m: Member, localOffset: nat)
    requires Fits(m) && localOffset < 0x1_0000_0000 && At(zip, i, Central(m, localOffset))
    ensures At(zip, i, CentralFront(m)) && At(zip, i + 24, CentralBack(m, localOffset))
    ensures Subarray(zip, i + 46, |m.name|) == m.name
  {
    var head := CentralFront(m) + CentralBack(m, localOffset);
    AtParts(zip, i, head + m.name + m.extra, m.comment);
    AtParts(zip, i, head + m.name, m.extra);
    AtParts(zip, i, head, m.name);
    AtParts(zip, i, CentralFront(m), CentralBack(m, localOffset));
    CutOut(zip, i + 46, m.name);
  }

  lemma HeaderRead(zip: Bytes, offset: nat, localOffset: nat, m: Member)
    requires Fits(m) && localOffset < 0x1_0000_0000 && At(zip, offset, Central(m, localOffset))
    ensures ReadHeader(zip, offset)
         == Ok(Header(m.compression, |m.data|, m.name, localOffset, offset + |Central(m, localOffset)|))
  {
    CentralParts(zip, offset, m, localOffset);
    FrontFields(zip, offset, m);
    BackFields(zip, offset + 24, m, localOffset);
  }

  lemma ContentsRead(zip: Bytes, inflate: Inflate, header: Header, m: Member)
    requires Fits(m) && Holds(inflate, m) && At(zip, header.localOffset, Local(m))
    requires header.compression == m.compression && header.compressedSize == |m.data|
    ensures ReadContents(zip, inflate, header) == Ok(m.contents)
  {
    LocalFields(zip, header.localOffset, m);
  }

  // One header leads to its member, wherever the two stand and whatever the skipped fields hold.
  lemma EntryRead(zip: Bytes, inflate: Inflate, offset: nat, localOffset: nat, m: Member)
    requires Fits(m) && Holds(inflate, m) && localOffset < 0x1_0000_0000
    requires At(zip, offset, Central(m, localOffset)) && At(zip, localOffset, Local(m))
    ensures EntryReader(zip, inflate)(offset)
         == Ok((Entry(m.name, m.contents), offset + |Central(m, localOffset)|))
  {
    HeaderRead(zip, offset, localOffset, m);
    ContentsRead(zip, inflate, ReadHeader(zip, offset).value, m);
  }

  // Where no central header's signature stands, reading fails and says where.
  lemma WrongSignature(zip: Bytes, inflate: Inflate, offset: nat, found: nat)
    requires ReadUInt32LE(zip, offset) == Ok(found) && found != 0x02014b50
    ensures EntryReader(zip, inflate)(offset) == Err(Malformed(offset))
  {
  }

  lemma ContentsRefused(zip: Bytes, inflate: Inflate, header: Header, m: Member)
    requires Fits(m) && At(zip, header.localOffset, Local(m))
    requires header.compression == m.compression && header.compressedSize == |m.data|
    ensures m.compression != 0 && m.compression != 8 ==>
              ReadContents(zip, inflate, header) == Err(Unsupported(m.compression, header.name))
    ensures m.compression == 8 && inflate(m.data).None? ==> ReadContents(zip, inflate, header) == Err(BadData)
  {
    LocalFields(zip, header.localOffset, m);
  }

  // A file whose data is neither stored nor deflated is refused by its method and name, and one whose
  // data does not inflate is bad.
  lemma FileRefused(zip: Bytes, inflate: Inflate, offset: nat, localOffset: nat, m: Member)
    requires Fits(m) && localOffset < 0x1_0000_0000
    requires At(zip, offset, Central(m, localOffset)) && At(zip, localOffset, Local(m))
    ensures m.compression != 0 && m.compression != 8 ==>
              EntryReader(zip, inflate)(offset) == Err(Unsupported(m.compression, m.name))
    ensures m.compression == 8 && inflate(m.data).None? ==> EntryReader(zip, inflate)(offset) == Err(BadData)
  {
    HeaderRead(zip, offset, localOffset, m);
    ContentsRefused(zip, inflate, ReadHeader(zip, offset).value, m);
  }

  function Entries(files: seq<Placed>): (r: seq<Entry>)
    ensures |r| == |files|
  {
    seq(|files|, i requires 0 <= i < |files| => Entry(files[i].member.name, files[i].member.contents))
  }

  lemma ReadStep(read: Reader, count: nat, offset: nat, entry: Entry, next: nat, rest: seq<Entry>)
    requires count > 0 && read(offset) == Ok((entry, next)) && ReadFrom(read, count - 1, next) == Ok(rest)
    ensures ReadFrom(read, count, offset) == Ok([entry] + rest)
  {
  }

  predicate AllHold(inflate: Inflate, files: seq<Placed>) {
    forall i :: 0 <= i < |files| ==> Holds(inflate, files[i].member)
  }

  predicate AllStand(zip: Bytes, files: seq<Placed>) {
    forall i :: 0 <= i < |files| ==> Stands(zip, files[i])
  }

  // Wherever the header stands, reading there gives the entry and the place behind the header.
  ghost predicate LeadsTo(read: Reader, zip: Bytes, header: Bytes, entry: Entry) {
    forall o: nat :: At(zip, o, header) ==> read(o) == Ok((entry, o + |header|))
  }

  lemma {:induction false} DirectoryWalk(read: Reader, zip: Bytes, headers: seq<Bytes>, entries: seq<Entry>,
                                         offset: nat)
    requires |headers| == |entries| && forall i :: 0 <= i < |headers| ==> LeadsTo(read, zip, headers[i], entries[i])
    requires At(zip, offset, Concat(headers))
    ensures ReadFrom(read, |headers|, offset) == Ok(entries)
  {
    if headers != [] {
      var next := offset + |headers[0]|;
      AtParts(zip, offset, headers[0], Concat(headers[1..]));
      assert LeadsTo(read, zip, headers[0], entries[0]);
      DirectoryWalk(read, zip, headers[1..], entries[1..], next);
      ReadStep(read, |headers|, offset, entries[0], next, entries[1..]);
      assert entries == [entries[0]] + entries[1..];
    }
  }

  lemma DirectoryRead(zip: Bytes, inflate: Inflate, files: seq<Placed>, offset: nat)
    requires AllStand(zip, files) && AllHold(inflate, files) && At(zip, offset, Directory(files))
    ensures ReadFrom(EntryReader(zip, inflate), |files|, offset) == Ok(Entries(files))
  {
    forall i | 0 <= i < |files|
      ensures LeadsTo(EntryReader(zip, inflate), zip, Headers(files)[i], Entries(files)[i])
    {
      FileFound(zip, inflate, files[i]);
    }
    DirectoryWalk(EntryReader(zip, inflate), zip, Headers(files), Entries(files), offset);
  }

  lemma FileFound(zip: Bytes, inflate: Inflate, file: Placed)
    requires Stands(zip, file) && Holds(inflate, file.member)
    ensures LeadsTo(EntryReader(zip, inflate), zip, Central(file.member, file.at),
                    Entry(file.member.name, file.member.contents))
  {
    forall o: nat | At(zip, o, Central(file.member, file.at))
      ensures EntryReader(zip, inflate)(o)
           == Ok((Entry(file.member.name, file.member.contents), o + |Central(file.member, file.at)|))
    {
      EntryRead(zip, inflate, o, file.at, file.member);
    }
  }

  lemma EndFields(zip: Bytes, i: nat, count: nat, directory: nat, end: End)
    requires Endable(count, directory, end) && At(zip, i, EndRecord(count, directory, end))
    ensures EndRecordAt(zip, i)
    ensures ReadUInt16LE(zip, i + 10) == Ok(count) && ReadUInt32LE(zip, i + 16) == Ok(directory)
  {
    var head := LE32(END_OF_CENTRAL_DIRECTORY);
    var number, place := LE16(count), LE32(directory);
    AtParts(zip, i, head + end.disks + number + end.directorySize + place + LE16(|end.comment|), end.comment);
    AtParts(zip, i, head + end.disks + number + end.directorySize + place, LE16(|end.comment|));
    AtParts(zip, i, head + end.disks + number + end.directorySize, place);
    AtParts(zip, i, head + end.disks + number, end.directorySize);
    AtParts(zip, i, head + end.disks, number);
    AtParts(zip, i, head, end.disks);
    Read32(zip, i, END_OF_CENTRAL_DIRECTORY);
    Read16(zip, i + 10, count);
    Read32(zip, i + 16, directory);
  }

  // No place behind `eocd`, up to where one would no longer fit, shows an end record's signature.
  ghost predicate NothingLater(zip: Bytes, eocd: nat) {
    forall j: nat :: j > eocd ==> !EndRecordAt(zip, j)
  }

  lemma SearchFinds(zip: Bytes, place: nat)
    requires EndRecordAt(zip, place)
    ensures LastEndRecord(zip, |zip| - 22) == Ok(place) <==> NothingLater(zip, place)
  {
    var r := LastEndRecord(zip, |zip| - 22);
    assert r.Ok? && r.value >= place;
  }

  // The backward search finds an archive's own end record if and only if nothing behind it shows
  // the signature.
  lemma EndRecordFound(zip: Bytes, files: seq<Placed>, directory: nat, eocd: nat, end: End)
    requires IsArchive(zip, files, directory, eocd, end)
    ensures LastEndRecord(zip, |zip| - 22) == Ok(eocd) <==> NothingLater(zip, eocd)
  {
    EndFields(zip, eocd, |files|, directory, end);
    SearchFinds(zip, eocd);
  }

  // The record's own last bytes are too short to hold another.
  lemma NothingBehindIsClean(zip: Bytes, eocd: nat)
    requires eocd + 22 >= |zip|
    ensures NothingLater(zip, eocd)
  {
  }

  // The reader inverts the layout: from every archive whose end record nothing later imitates it
  // returns exactly the files, in the directory's order, wherever their local records stand.
  lemma ReaderInvertsLayout(zip: Bytes, inflate: Inflate, files: seq<Placed>, directory: nat, eocd: nat, end: End)
    requires IsArchive(zip, files, directory, eocd, end) && AllHold(inflate, files) && NothingLater(zip, eocd)
    ensures ReadZip(zip, EntryReader(zip, inflate)) == Ok(Entries(files))
  {
    EndRecordFound(zip, files, directory, eocd, end);
    EndFields(zip, eocd, |files|, directory, end);
    DirectoryRead(zip, inflate, files, directory);
  }

  lemma FailureLater(read: Reader, count: nat, offset: nat, entry: Entry, next: nat, error: Error)
    requires count > 0 && read(offset) == Ok((entry, next)) && ReadFrom(read, count - 1, next) == Err(error)
    ensures ReadFrom(read, count, offset) == Err(error)
  {
  }

  lemma FirstIsRead(read: Reader, zip: Bytes, header: Bytes, entry: Entry, offset: nat, rest: Bytes)
    requires LeadsTo(read, zip, header, entry) && At(zip, offset, header + rest)
    ensures read(offset) == Ok((entry, offset + |header|)) && At(zip, offset + |header|, rest)
  {
    AtParts(zip, offset, header, rest);
  }

  // The first file that cannot be read is what the whole archive fails with.
  lemma {:induction false} FirstFailureStops(read: Reader, zip: Bytes, headers: seq<Bytes>, entries: seq<Entry>,
                                             offset: nat, bad: nat, count: nat, error: Error)
    requires |headers| == |entries| < count && bad == offset + |Concat(headers)|
    requires forall i :: 0 <= i < |headers| ==> LeadsTo(read, zip, headers[i], entries[i])
    requires At(zip, offset, Concat(headers)) && read(bad) == Err(error)
    ensures ReadFrom(read, count, offset) == Err(error)
    decreases |headers|
  {
    if headers != [] {
      var next := offset + |headers[0]|;
      FirstIsRead(read, zip, headers[0], entries[0], offset, Concat(headers[1..]));
      FirstFailureStops(read, zip, headers[1..], entries[1..], next, bad, count - 1, error);
      FailureLater(read, count, offset, entries[0], next, error);
    }
  }

  // ---------------------------------------------------------------------------------------
  // Archives exist
  // ---------------------------------------------------------------------------------------

  // The files one behind the other from byte `at`.
  function InTurn(members: seq<Member>, at: nat): (r: seq<Placed>)
    requires forall i :: 0 <= i < |members| ==> Fits(members[i])
    ensures |r| == |members| && forall i :: 0 <= i < |r| ==> r[i].member == members[i]
  {
    if members == [] then [] else [Placed(members[0], at)] + InTurn(members[1..], at + |Local(members[0])|)
  }

  function Locals(members: seq<Member>): Bytes
    requires forall i :: 0 <= i < |members| ==> Fits(members[i])
  {
    if members == [] then [] else Local(members[0]) + Locals(members[1..])
  }

  lemma {:induction false} LocalsStand(zip: Bytes, members: seq<Member>, at: nat)
    requires forall i :: 0 <= i < |members| ==> Fits(members[i])
    requires At(zip, at, Locals(members)) && at + |Locals(members)| < 0x1_0000_0000
    ensures AllStand(zip, InTurn(members, at))
  {
    if members != [] {
      AtParts(zip, at, Local(members[0]), Locals(members[1..]));
      LocalsStand(zip, members[1..], at + |Local(members[0])|);
    }
  }

  predicate Writable(prefix: Bytes, members: seq<Member>, end: End) {
    && (forall i :: 0 <= i < |members| ==> Fits(members[i]))
    && |prefix| + |Locals(members)| < 0x1_0000_0000 && |members| < 0x10000
    && |end.disks| == 6 && |end.directorySize| == 4 && |end.comment| < 0x10000
  }

  lemma {:induction false} InTurnListable(members: seq<Member>, at: nat)
    requires (forall i :: 0 <= i < |members| ==> Fits(members[i])) && at + |Locals(members)| < 0x1_0000_0000
    ensures Listable(InTurn(members, at))
  {
    if members != [] {
      InTurnListable(members[1..], at + |Local(members[0])|);
    }
  }

  // As zip writers do it: a prefix such as a stub, the files in turn, the directory in the same
  // order, and the end record.
  function Build(prefix: Bytes, members: seq<Member>, end: End): Bytes
    requires Writable(prefix, members, end)
  {
    InTurnListable(members, |prefix|);
    prefix + Locals(members) + Directory(InTurn(members, |prefix|))
    + EndRecord(|members|, |prefix| + |Locals(members)|, end)
  }

  function EndPlace(prefix: Bytes, members: seq<Member>): nat
    requires (forall i :: 0 <= i < |members| ==> Fits(members[i])) && |prefix| + |Locals(members)| < 0x1_0000_0000
  {
    InTurnListable(members, |prefix|);
    |prefix| + |Locals(members)| + |Directory(InTurn(members, |prefix|))|
  }

  lemma AtBehind(a: Bytes, b: Bytes, c: Bytes, d: Bytes)
    ensures var zip := a + b + c + d;
            && At(zip, |a|, b) && At(zip, |a| + |b|, c) && At(zip, |a| + |b| + |c|, d)
            && |zip| == |a| + |b| + |c| + |d|
  {
  }

  lemma PartsMakeArchive(zip: Bytes, prefix: nat, members: seq<Member>, end: End)
    requires (forall i :: 0 <= i < |members| ==> Fits(members[i])) && prefix + |Locals(members)| < 0x1_0000_0000
    requires Endable(|members|, prefix + |Locals(members)|, end)
    requires At(zip, prefix, Locals(members)) && Listable(InTurn(members, prefix))
    requires var directory := prefix + |Locals(members)|;
             var listed := Directory(InTurn(members, prefix));
             At(zip, directory, listed) && At(zip, directory + |listed|, EndRecord(|members|, directory, end))
    ensures var directory := prefix + |Locals(members)|;
            IsArchive(zip, InTurn(members, prefix), directory, directory + |Directory(InTurn(members, prefix))|, end)
  {
    LocalsStand(zip, members, prefix);
  }

  lemma BuildIsArchive(prefix: Bytes, members: seq<Member>, end: End)
    requires Writable(prefix, members, end)
    ensures IsArchive(Build(prefix, members, end), InTurn(members, |prefix|), |prefix| + |Locals(members)|,
                      EndPlace(prefix, members), end)
    ensures |Build(prefix, members, end)| == EndPlace(prefix, members) + 22 + |end.comment|
  {
    InTurnListable(members, |prefix|);
    AtBehind(prefix, Locals(members), Directory(InTurn(members, |prefix|)),
             EndRecord(|members|, |prefix| + |Locals(members)|, end));
    PartsMakeArchive(Build(prefix, members, end), |prefix|, members, end);
  }

  // A comment that is itself the end record of an empty archive.
  const ZERO_6: Bytes := [0, 0, 0, 0, 0, 0]
  const ZERO_4: Bytes := [0, 0, 0, 0]

  function EmptyArchive(): (r: Bytes)
    ensures |r| == 22
  {
    EndRecord(0, 0, End(ZERO_6, ZERO_4, []))
  }

  // It misleads the search: the archive, whatever its files, reads as an empty one.
  lemma CommentMisleads(prefix: Bytes, members: seq<Member>, end: End, inflate: Inflate)
    requires Writable(prefix, members, end) && end.comment == EmptyArchive()
    ensures var zip := Build(prefix, members, end);
            ReadZip(zip, EntryReader(zip, inflate)) == Ok([])
  {
    var zip := Build(prefix, members, end);
    BuildIsArchive(prefix, members, end);
    CommentStands(zip, EndPlace(prefix, members), |members|, |prefix| + |Locals(members)|, end);
    EndsEmpty(zip, EndPlace(prefix, members) + 22, inflate);
  }

  lemma CommentStands(zip: Bytes, eocd: nat, count: nat, directory: nat, end: End)
    requires Endable(count, directory, end) && At(zip, eocd, EndRecord(count, directory, end))
    ensures At(zip, eocd + 22, end.comment)
  {
    var head := LE32(END_OF_CENTRAL_DIRECTORY) + end.disks + LE16(count) + end.directorySize + LE32(directory);
    AtParts(zip, eocd, head + LE16(|end.comment|), end.comment);
  }

  lemma EndsEmpty(zip: Bytes, eocd: nat, inflate: Inflate)
    requires At(zip, eocd, EmptyArchive()) && eocd + 22 == |zip|
    ensures ReadZip(zip, EntryReader(zip, inflate)) == Ok([])
  {
    EndFields(zip, eocd, 0, 0, End(ZERO_6, ZERO_4, []));
    NothingBehindIsClean(zip, eocd);
    SearchFinds(zip, eocd);
  }
}
