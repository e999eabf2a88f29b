/**
 The ZIP container behind XLSX files: little-endian fields, the headers, and what the reader
 makes of any buffer. Names are the UTF-8 bytes of the entry names.
 */
module ZipFormat {
  import opened Common
  import opened Words
  import opened Crc32
  import opened Container

  datatype Entry = Entry(name: Bytes, data: Bytes)

  datatype ZipError = OutOfRange | NoDirectory | BadDirectory | BadLocalHeader | BadMethod | InflateFailed

  datatype Stamp = Stamp(time: int, date: int)

  const LOCAL: nat := 0x04034b50
  const CENTRAL: nat := 0x02014b50
  const END: nat := 0x06054b50
  const UTF8_FLAG: nat := 0x0800
  const SLASH: Byte := 0x2f

  const WORD := 0x1_0000
  const DWORD := 0x1_0000_0000

  // ---- fields ----

  function LowByte(n: int): Byte {
    n % 256
  }

  function U16(n: int): (r: Bytes)
    ensures |r| == 2
  {
    [LowByte(n), LowByte(n / 256)]
  }

  function U32(n: int): (r: Bytes)
    ensures |r| == 4
  {
    U16(n % WORD) + U16(n / WORD % WORD)
  }

  /** Reading past the end of a buffer throws. */
  function Read16(b: Bytes, off: nat): Result<nat, ZipError> {
    if off + 2 <= |b| then Ok((b[off] as int) + 256 * (b[off + 1] as int)) else Err(OutOfRange)
  }

  function Read32(b: Bytes, off: nat): Result<nat, ZipError> {
    if off + 4 <= |b| then Ok(Read16(b, off).value + WORD * Read16(b, off + 2).value) else Err(OutOfRange)
  }

  /** subarray: both ends are pulled back into the buffer. */
  function Sub(b: Bytes, start: nat, end: nat): Bytes {
    b[Min(start, |b|)..Max(Min(start, |b|), Min(end, |b|))]
  }

  lemma Read16Of(b: Bytes, off: nat, n: nat)
    requires n < WORD && off + 2 <= |b| && b[off..off + 2] == U16(n)
    ensures Read16(b, off) == Ok(n)
  {
    assert b[off] == b[off..off + 2][0] && b[off + 1] == b[off..off + 2][1];
  }

  lemma Read32Of(b: Bytes, off: nat, n: nat)
    requires n < DWORD && off + 4 <= |b| && b[off..off + 4] == U32(n)
    ensures Read32(b, off) == Ok(n)
  {
    assert b[off..off + 2] == b[off..off + 4][..2];
    assert b[off + 2..off + 4] == b[off..off + 4][2..];
    Read16Of(b, off, n % WORD);
    Read16Of(b, off + 2, n / WORD % WORD);
  }

  // ---- headers ----

  function LocalHeader(e: Entry, stamp: Stamp): (r: Bytes)
    ensures |r| == 30
  {
    U32(LOCAL) + U16(20) + U16(UTF8_FLAG) + U16(0) + U16(stamp.time) + U16(stamp.date)
    + U32(Crc(e.data)) + U32(|e.data|) + U32(|e.data|) + U16(|e.name|) + U16(0)
  }

  function CentralHeader(e: Entry, stamp: Stamp, offset: nat): (r: Bytes)
    ensures |r| == 46
  {
    U32(CENTRAL) + U16(20) + U16(20) + U16(UTF8_FLAG) + U16(0) + U16(stamp.time) + U16(stamp.date)
    + U32(Crc(e.data)) + U32(|e.data|) + U32(|e.data|) + U16(|e.name|) + U16(0) + U16(0) + U16(0) + U16(0) + U32(0) + U32(offset)
  }

  function EndRecord(count: nat, size: nat, offset: nat): (r: Bytes)
    ensures |r| == 22
  {
    U32(END) + U16(0) + U16(0) + U16(count) + U16(count) + U32(size) + U32(offset) + U16(0)
  }

  function LocalRecord(e: Entry, stamp: Stamp): Bytes {
    LocalHeader(e, stamp) + e.name + e.data
  }

  function CentralRecord(e: Entry, stamp: Stamp, offset: nat): Bytes {
    CentralHeader(e, stamp, offset) + e.name
  }

  /** ZIP as a container. */
  function Zip(stamp: Stamp): Layout<Entry> {
    Layout((e: Entry) => LocalRecord(e, stamp), (e: Entry, here: nat) => CentralRecord(e, stamp, here), EndRecord)
  }

  /** Everything that is written into a 16 or 32 bit field of an entry's headers fits it. */
  predicate EntryFits(e: Entry, stamp: Stamp, here: nat) {
    && 0 <= stamp.time < WORD && 0 <= stamp.date < WORD
    && |e.name| < WORD && |e.data| < DWORD && here < DWORD
  }

  /** So for the whole archive. */
  predicate Fits(es: seq<Entry>, stamp: Stamp) {
    && (forall i :: 0 <= i < |es| ==> EntryFits(es[i], stamp, Offset(Zip(stamp), es, i)))
    && |es| < WORD && |Concat(Centrals(Zip(stamp), es))| < DWORD && |Concat(Locals(Zip(stamp), es))| < DWORD
  }

  // ---- reading ----

  type Inflate = Bytes -> Result<Bytes, ZipError>

  predicate IsDirectory(name: Bytes) {
    name != [] && name[|name| - 1] == SLASH
  }

  function Unpack(packed: Bytes, compression: nat, inflate: Inflate): Result<Bytes, ZipError> {
    if compression == 0 then Ok(packed)
    else if compression == 8 then inflate(packed)
    else Err(BadMethod)
  }

  /** The data of the entry whose local header starts here. */
  function ReadLocal(b: Bytes, off: nat, compression: nat, size: nat, inflate: Inflate): Result<Bytes, ZipError> {
    var sig := Read32(b, off);
    if sig.Err? then Err(sig.error)
    else if sig.value != LOCAL then Err(BadLocalHeader)
    else
      var name, extra := Read16(b, off + 26), Read16(b, off + 28);
      if name.Err? then Err(name.error)
      else if extra.Err? then Err(extra.error)
      else
        var start := off + 30 + name.value + extra.value;
        Unpack(Sub(b, start, start + size), compression, inflate)
  }

  datatype Central = Central(name: Bytes, compression: nat, size: nat, local: nat, next: nat)

  function ReadCentral(b: Bytes, off: nat): Result<Central, ZipError> {
    var sig := Read32(b, off);
    if sig.Err? then Err(sig.error)
    else if sig.value != CENTRAL then Err(BadDirectory)
    else
      var compression, size, name := Read16(b, off + 10), Read32(b, off + 20), Read16(b, off + 28);
      var extra, comment, local := Read16(b, off + 30), Read16(b, off + 32), Read32(b, off + 42);
      if compression.Err? || size.Err? || name.Err? || extra.Err? || comment.Err? || local.Err? then Err(OutOfRange)
      else Ok(Central(Sub(b, off + 46, off + 46 + name.value), compression.value, size.value, local.value,
                      off + 46 + name.value + extra.value + comment.value))
  }

  /** One turn of the reading loop: the entry, unless it is a directory, and where the next one starts. */
  function ReadOne(b: Bytes, off: nat, inflate: Inflate): Result<(seq<Entry>, nat), ZipError> {
    var central := ReadCentral(b, off);
    if central.Err? then Err(central.error)
    else if IsDirectory(central.value.name) then Ok(([], central.value.next))
    else
      var data := ReadLocal(b, central.value.local, central.value.compression, central.value.size, inflate);
      if data.Err? then Err(data.error) else Ok(([Entry(central.value.name, data.value)], central.value.next))
  }

  function Turn(b: Bytes, inflate: Inflate): nat -> Result<(seq<Entry>, nat), ZipError> {
    (off: nat) => ReadOne(b, off, inflate)
  }

  /** The search for the end record covers its longest possible comment and no more. */
  predicate EndAt(b: Bytes, off: int) {
    Max(0, |b| - 0xffff - 22) <= off <= |b| - 22 && Read32(b, off) == Ok(END)
  }

  /** The last place where an end record can be. */
  ghost predicate LastEndAt(b: Bytes, off: int) {
    EndAt(b, off) && forall other :: EndAt(b, other) ==> other <= off
  }

  /** Reading, once the end record is found at `end`. */
  function ReadArchive(b: Bytes, end: nat, inflate: Inflate): Result<seq<Entry>, ZipError> {
    var count, start := Read16(b, end + 10), Read32(b, end + 16);
    if count.Err? then Err(count.error)
    else if start.Err? then Err(start.error)
    else ReadLoop(Turn(b, inflate), count.value, start.value)
  }
}
