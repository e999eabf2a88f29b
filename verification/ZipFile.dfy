/** The ZIP writer and reader as the program runs them, field by field and entry by entry. */
module ZipFile {
  import opened Common
  import opened Words
  import opened Crc32
  import opened Container
  import opened ZipFormat
  import opened ZipRoundTrip
  import opened ZipFields

  /**
   A header being filled from front to back. A number that does not fit its field throws, which
   `ok` remembers; `done` is what was written so far.
   */
  class Header {
    const bytes: array<Byte>
    var ok: bool
    ghost var done: Bytes

    ghost predicate Valid()
      reads this, bytes
    {
      |done| <= bytes.Length && bytes[..|done|] == done
    }

    constructor (size: nat)
      ensures Valid() && fresh(bytes) && bytes.Length == size && ok && done == []
    {
      bytes, ok, done := new Byte[size](_ => 0), true, [];
    }

    /** writeUInt16LE */
    method Put16(off: nat, n: int)
      requires Valid() && off == |done| && off + 2 <= bytes.Length
      modifies this, bytes
      ensures Valid() && done == old(done) + U16(n)
      ensures ok == (old(ok) && 0 <= n < WORD)
    {
      ok := ok && 0 <= n < WORD;
      bytes[off] := LowByte(n);
      bytes[off + 1] := LowByte(n / 256);
      done := done + U16(n);
      assert bytes[..off] == old(bytes[..off]);
      assert bytes[..off + 2] == bytes[..off] + [bytes[off], bytes[off + 1]];
    }

    /** writeUInt32LE */
    method Put32(off: nat, n: int)
      requires Valid() && off == |done| && off + 4 <= bytes.Length
      modifies this, bytes
      ensures Valid() && done == old(done) + U32(n)
      ensures ok == (old(ok) && 0 <= n < DWORD)
    {
      var fits := ok && 0 <= n < DWORD;
      Put16(off, n % WORD);
      Put16(off + 2, n / WORD % WORD);
      assert done == old(done) + U32(n);
      ok := fits;
    }

    /** The finished buffer, or the exception. */
    method Finish() returns (r: Result<Bytes, ZipError>)
      requires Valid() && |done| == bytes.Length
      ensures r == if ok then Ok(done) else Err(OutOfRange)
    {
      assert bytes[..] == bytes[..|done|];
      return if ok then Ok(bytes[..]) else Err(OutOfRange);
    }
  }

  lemma StartsEmpty(s: Bytes)
    ensures [] + s == s
  {
  }

  method MakeLocalHeader(e: Entry, stamp: Stamp, crc: Word) returns (r: Result<Bytes, ZipError>)
    requires crc == Crc(e.data)
    ensures r == if EntryFits(e, stamp, 0) then Ok(LocalHeader(e, stamp)) else Err(OutOfRange)
  {
    var h := new Header(30);
    StartsEmpty(U32(LOCAL));
    h.Put32(0, LOCAL);
    h.Put16(4, 20);
    h.Put16(6, UTF8_FLAG);
    h.Put16(8, 0);
    h.Put16(10, stamp.time);
    h.Put16(12, stamp.date);
    h.Put32(14, crc);
    h.Put32(18, |e.data|);
    h.Put32(22, |e.data|);
    h.Put16(26, |e.name|);
    h.Put16(28, 0);
    r := h.Finish();
  }

  method MakeCentralHeader(e: Entry, stamp: Stamp, crc: Word, offset: nat) returns (r: Result<Bytes, ZipError>)
    requires crc == Crc(e.data)
    ensures r == if EntryFits(e, stamp, offset) then Ok(CentralHeader(e, stamp, offset)) else Err(OutOfRange)
  {
    var h := new Header(46);
    StartsEmpty(U32(CENTRAL));
    h.Put32(0, CENTRAL);
    h.Put16(4, 20);
    h.Put16(6, 20);
    h.Put16(8, UTF8_FLAG);
    h.Put16(10, 0);
    h.Put16(12, stamp.time);
    h.Put16(14, stamp.date);
    h.Put32(16, crc);
    h.Put32(20, |e.data|);
    h.Put32(24, |e.data|);
    h.Put16(28, |e.name|);
    h.Put16(30, 0);
    h.Put16(32, 0);
    h.Put16(34, 0);
    h.Put16(36, 0);
    h.Put32(38, 0);
    h.Put32(42, offset);
    r := h.Finish();
  }

  method MakeEndRecord(count: nat, size: nat, offset: nat) returns (r: Result<Bytes, ZipError>)
    ensures r == if count < WORD && size < DWORD && offset < DWORD then Ok(EndRecord(count, size, offset)) else Err(OutOfRange)
  {
    var h := new Header(22);
    StartsEmpty(U32(END));
    h.Put32(0, END);
    h.Put16(4, 0);
    h.Put16(6, 0);
    h.Put16(8, count);
    h.Put16(10, count);
    h.Put32(12, size);
    h.Put32(16, offset);
    h.Put16(20, 0);
    r := h.Finish();
  }

  /** How far the writer's loop has come. */
  ghost predicate WrittenTo(es: seq<Entry>, stamp: Stamp, i: nat, locals: Bytes, centrals: Bytes, offset: nat) {
    && i <= |es|
    && locals == Concat(Locals(Zip(stamp), es)[..i])
    && centrals == Concat(Centrals(Zip(stamp), es)[..i])
    && offset == Offset(Zip(stamp), es, i)
    && forall k :: 0 <= k < i ==> EntryFits(es[k], stamp, Offset(Zip(stamp), es, k))
  }

  lemma WriteStep(es: seq<Entry>, stamp: Stamp, i: nat, locals: Bytes, centrals: Bytes, offset: nat)
    requires WrittenTo(es, stamp, i, locals, centrals, offset) && i < |es| && EntryFits(es[i], stamp, offset)
    ensures WrittenTo(es, stamp, i + 1, locals + LocalRecord(es[i], stamp), centrals + CentralRecord(es[i], stamp, offset),
                      offset + |LocalRecord(es[i], stamp)|)
  {
    ConcatStep(Locals(Zip(stamp), es), i);
    ConcatStep(Centrals(Zip(stamp), es), i);
  }

  lemma WrittenAll(es: seq<Entry>, stamp: Stamp, locals: Bytes, centrals: Bytes, offset: nat)
    requires WrittenTo(es, stamp, |es|, locals, centrals, offset)
    ensures locals == Concat(Locals(Zip(stamp), es)) && centrals == Concat(Centrals(Zip(stamp), es)) && offset == |locals|
    ensures Fits(es, stamp) <==> |es| < WORD && |centrals| < DWORD && offset < DWORD
  {
    assert Locals(Zip(stamp), es)[..|es|] == Locals(Zip(stamp), es);
    assert Centrals(Zip(stamp), es)[..|es|] == Centrals(Zip(stamp), es);
  }

  method WriteEntry(e: Entry, stamp: Stamp, offset: nat, table: array<Word>) returns (r: Result<(Bytes, Bytes), ZipError>)
    requires IsTable(table[..])
    ensures r == if EntryFits(e, stamp, offset) then Ok((LocalRecord(e, stamp), CentralRecord(e, stamp, offset))) else Err(OutOfRange)
  {
    var crc := Checksum(e.data, table);
    var local := MakeLocalHeader(e, stamp, crc);
    if local.Err? {
      return Err(local.error);
    }
    var central := MakeCentralHeader(e, stamp, crc, offset);
    if central.Err? {
      return Err(central.error);
    }
    return Ok((local.value + e.name + e.data, central.value + e.name));
  }

  /** Writes the archive of these entries, or throws exactly when something does not fit its field. */
  method WriteEntries(es: seq<Entry>, stamp: Stamp, table: array<Word>) returns (r: Result<Bytes, ZipError>)
    requires IsTable(table[..])
    ensures Fits(es, stamp) ==> r == Ok(Archive(Zip(stamp), es))
    ensures !Fits(es, stamp) ==> r == Err(OutOfRange)
    ensures r.Ok? ==> IsArchiveOf(r.value, es, stamp)
  {
    hide IsArchiveOf;
    var locals: Bytes, centrals: Bytes, offset: nat := [], [], 0;
    for i := 0 to |es|
      invariant WrittenTo(es, stamp, i, locals, centrals, offset)
    {
      var records := WriteEntry(es[i], stamp, offset, table);
      if records.Err? {
        return Err(records.error);
      }
      WriteStep(es, stamp, i, locals, centrals, offset);
      locals, centrals, offset := locals + records.value.0, centrals + records.value.1, offset + |records.value.0|;
    }
    WrittenAll(es, stamp, locals, centrals, offset);
    var end := MakeEndRecord(|es|, |centrals|, offset);
    if end.Err? {
      return Err(end.error);
    }
    WrittenIsArchive(es, stamp);
    return Ok(locals + centrals + end.value);
  }

  method FindEnd(b: Bytes) returns (r: Result<nat, ZipError>)
    ensures r.Ok? ==> LastEndAt(b, r.value)
    ensures r.Err? ==> r.error == NoDirectory && forall off :: !EndAt(b, off)
  {
    var least := Max(0, |b| - 0xffff - 22);
    var off := |b| - 22;
    while off >= least
      invariant off <= |b| - 22
      invariant forall other :: other > off ==> !EndAt(b, other)
    {
      if Read32(b, off) == Ok(END) {
        return Ok(off);
      }
      off := off - 1;
    }
    return Err(NoDirectory);
  }

  /** Reads any buffer: from its last end record, or not at all. */
  method ReadEntries(b: Bytes, inflate: Inflate) returns (r: Result<seq<Entry>, ZipError>)
    ensures forall end :: LastEndAt(b, end) ==> r == ReadArchive(b, end, inflate)
    ensures (forall off :: !EndAt(b, off)) ==> r == Err(NoDirectory)
  {
    var end := FindEnd(b);
    if end.Err? {
      return Err(end.error);
    }
    // A found end record is complete, so its fields can be read.
    var count, start := Read16(b, end.value + 10).value, Read32(b, end.value + 16).value;
    r := RunLoop(Turn(b, inflate), count, start);
  }

  /** Writing and reading back: everything but the directories, in order, for every list within the field limits. */
  method RoundTrip(es: seq<Entry>, stamp: Stamp, table: array<Word>, inflate: Inflate) returns (r: Result<seq<Entry>, ZipError>)
    requires IsTable(table[..])
    ensures r == if Fits(es, stamp) then Ok(Kept(es, Dropped)) else Err(OutOfRange)
  {
    var written := WriteEntries(es, stamp, table);
    if written.Err? {
      return Err(written.error);
    }
    ReadInvertsWrite(es, stamp, inflate);
    r := ReadEntries(written.value, inflate);
  }
}
