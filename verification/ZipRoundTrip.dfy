/** What the reader makes of what the writer wrote. */
module ZipRoundTrip {
  import opened Common
  import opened Words
  import opened Container
  import opened ZipFormat

  lemma LocalFields(e: Entry, stamp: Stamp)
    ensures var h := LocalHeader(e, stamp);
            h[0..4] == U32(LOCAL) && h[26..28] == U16(|e.name|) && h[28..30] == U16(0)
  {
  }

  lemma CentralFields(e: Entry, stamp: Stamp, offset: nat)
    ensures var h := CentralHeader(e, stamp, offset);
            && h[0..4] == U32(CENTRAL) && h[10..12] == U16(0) && h[20..24] == U32(|e.data|)
            && h[28..30] == U16(|e.name|) && h[30..32] == U16(0) && h[32..34] == U16(0) && h[42..46] == U32(offset)
  {
  }

  lemma EndFields(count: nat, size: nat, offset: nat)
    ensures var h := EndRecord(count, size, offset);
            h[0..4] == U32(END) && h[10..12] == U16(count) && h[16..20] == U32(offset)
  {
  }

  lemma ReadField16(b: Bytes, off: nat, h: Bytes, i: nat, n: nat)
    requires At(b, off, h) && i + 2 <= |h| && h[i..i + 2] == U16(n) && n < WORD
    ensures Read16(b, off + i) == Ok(n)
  {
    AtSlice(b, off, h, i, i + 2);
    Read16Of(b, off + i, n);
  }

  lemma ReadField32(b: Bytes, off: nat, h: Bytes, i: nat, n: nat)
    requires At(b, off, h) && i + 4 <= |h| && h[i..i + 4] == U32(n) && n < DWORD
    ensures Read32(b, off + i) == Ok(n)
  {
    AtSlice(b, off, h, i, i + 4);
    Read32Of(b, off + i, n);
  }

  lemma SubOfAt(b: Bytes, off: nat, part: Bytes)
    requires At(b, off, part)
    ensures Sub(b, off, off + |part|) == part
  {
  }

  /** The fields of a local header, and the data behind it, are enough to read an entry. */
  lemma ReadLocalBy(b: Bytes, off: nat, data: Bytes, nameLength: nat, inflate: Inflate)
    requires Read32(b, off) == Ok(LOCAL) && Read16(b, off + 26) == Ok(nameLength) && Read16(b, off + 28) == Ok(0)
    requires At(b, off + 30 + nameLength, data)
    ensures ReadLocal(b, off, 0, |data|, inflate) == Ok(data)
  {
    SubOfAt(b, off + 30 + nameLength, data);
  }

  lemma ReadLocalOf(b: Bytes, off: nat, e: Entry, stamp: Stamp, inflate: Inflate)
    requires EntryFits(e, stamp, off) && At(b, off, LocalRecord(e, stamp))
    ensures ReadLocal(b, off, 0, |e.data|, inflate) == Ok(e.data)
  {
    var h := LocalHeader(e, stamp);
    AtParts(b, off, h + e.name, e.data);
    AtParts(b, off, h, e.name);
    LocalFields(e, stamp);
    ReadField32(b, off, h, 0, LOCAL);
    ReadField16(b, off, h, 26, |e.name|);
    ReadField16(b, off, h, 28, 0);
    ReadLocalBy(b, off, e.data, |e.name|, inflate);
  }

  lemma ReadCentralBy(b: Bytes, off: nat, name: Bytes, size: nat, here: nat)
    requires Read32(b, off) == Ok(CENTRAL) && Read16(b, off + 10) == Ok(0) && Read32(b, off + 20) == Ok(size)
    requires Read16(b, off + 28) == Ok(|name|) && Read16(b, off + 30) == Ok(0) && Read16(b, off + 32) == Ok(0)
    requires Read32(b, off + 42) == Ok(here) && At(b, off + 46, name)
    ensures ReadCentral(b, off) == Ok(Central(name, 0, size, here, off + 46 + |name|))
  {
    SubOfAt(b, off + 46, name);
  }

  lemma ReadCentralOf(b: Bytes, off: nat, e: Entry, stamp: Stamp, here: nat)
    requires EntryFits(e, stamp, here) && At(b, off, CentralRecord(e, stamp, here))
    ensures ReadCentral(b, off) == Ok(Central(e.name, 0, |e.data|, here, off + 46 + |e.name|))
  {
    hide ReadCentral, Read16, Read32;
    var h := CentralHeader(e, stamp, here);
    AtParts(b, off, h, e.name);
    CentralFields(e, stamp, here);
    ReadField32(b, off, h, 0, CENTRAL);
    ReadField16(b, off, h, 10, 0);
    ReadField32(b, off, h, 20, |e.data|);
    ReadField16(b, off, h, 28, |e.name|);
    ReadField16(b, off, h, 30, 0);
    ReadField16(b, off, h, 32, 0);
    ReadField32(b, off, h, 42, here);
    ReadCentralBy(b, off, e.name, |e.data|, here);
  }

  lemma ReadOneBy(b: Bytes, off: nat, e: Entry, here: nat, next: nat, inflate: Inflate)
    requires ReadCentral(b, off) == Ok(Central(e.name, 0, |e.data|, here, next))
    requires ReadLocal(b, here, 0, |e.data|, inflate) == Ok(e.data)
    ensures Reads(Turn(b, inflate), e, Dropped, off, next)
  {
  }

  predicate Dropped(e: Entry) {
    IsDirectory(e.name)
  }

  lemma BothRead(b: Bytes, off: nat, here: nat, e: Entry, stamp: Stamp, inflate: Inflate)
    requires EntryFits(e, stamp, here)
    requires At(b, off, CentralRecord(e, stamp, here)) && At(b, here, LocalRecord(e, stamp))
    ensures ReadCentral(b, off) == Ok(Central(e.name, 0, |e.data|, here, off + 46 + |e.name|))
    ensures ReadLocal(b, here, 0, |e.data|, inflate) == Ok(e.data)
  {
    ReadCentralOf(b, off, e, stamp, here);
    ReadLocalOf(b, here, e, stamp, inflate);
  }

  /** Two records in place are one turn of the loop. */
  lemma TurnReads(b: Bytes, off: nat, here: nat, e: Entry, stamp: Stamp, next: nat, inflate: Inflate)
    requires EntryFits(e, stamp, here) && next == off + 46 + |e.name|
    requires At(b, off, CentralRecord(e, stamp, here)) && At(b, here, LocalRecord(e, stamp))
    ensures Reads(Turn(b, inflate), e, Dropped, off, next)
  {
    hide EntryFits, CentralRecord, LocalRecord, At, ReadCentral, ReadLocal;
    BothRead(b, off, here, e, stamp, inflate);
    ReadOneBy(b, off, e, here, next, inflate);
  }

  lemma TurnReadsEntry(es: seq<Entry>, stamp: Stamp, i: nat, inflate: Inflate)
    requires i < |es| && EntryFits(es[i], stamp, Offset(Zip(stamp), es, i))
    ensures Reads(Turn(Archive(Zip(stamp), es), inflate), es[i], Dropped,
                  CentralOffset(Zip(stamp), es, i), CentralOffset(Zip(stamp), es, i + 1))
  {
    var zip := Zip(stamp);
    RecordsAt(zip, es, i);
    CentralOffsetStep(zip, es, i);
    TurnReads(Archive(zip, es), CentralOffset(zip, es, i), Offset(zip, es, i), es[i], stamp, CentralOffset(zip, es, i + 1), inflate);
  }

  lemma LoopReadsZip(es: seq<Entry>, stamp: Stamp, inflate: Inflate)
    requires Fits(es, stamp)
    ensures ReadLoop(Turn(Archive(Zip(stamp), es), inflate), |es|, |Concat(Locals(Zip(stamp), es))|) == Ok(Kept(es, Dropped))
  {
    var zip := Zip(stamp);
    forall k | 0 <= k < |es|
      ensures Reads(Turn(Archive(zip, es), inflate), es[k], Dropped, CentralOffset(zip, es, k), CentralOffset(zip, es, k + 1))
    {
      TurnReadsEntry(es, stamp, k, inflate);
    }
    LoopReadsArchive(zip, es, Turn(Archive(zip, es), inflate), Dropped);
  }

  lemma EndBy(b: Bytes, count: nat, size: nat, offset: nat)
    requires |b| >= 22 && At(b, |b| - 22, EndRecord(count, size, offset)) && count < WORD && offset < DWORD
    ensures Read32(b, |b| - 22) == Ok(END) && Read16(b, |b| - 12) == Ok(count) && Read32(b, |b| - 6) == Ok(offset)
  {
    var h := EndRecord(count, size, offset);
    EndFields(count, size, offset);
    ReadField32(b, |b| - 22, h, 0, END);
    ReadField16(b, |b| - 22, h, 10, count);
    ReadField32(b, |b| - 22, h, 16, offset);
  }

  /** The buffer ends in an end record with these numbers and no comment. */
  predicate Closed(b: Bytes, count: nat, start: nat) {
    |b| >= 22 && Read32(b, |b| - 22) == Ok(END) && Read16(b, |b| - 12) == Ok(count) && Read32(b, |b| - 6) == Ok(start)
  }

  lemma EndOfZip(es: seq<Entry>, stamp: Stamp)
    requires |es| < WORD && |Concat(Locals(Zip(stamp), es))| < DWORD
    ensures Closed(Archive(Zip(stamp), es), |es|, |Concat(Locals(Zip(stamp), es))|)
  {
    var zip := Zip(stamp);
    ArchiveParts(zip, es);
    EndBy(Archive(zip, es), |es|, |Concat(Centrals(zip, es))|, |Concat(Locals(zip, es))|);
  }

  /** The search meets the end record first, whatever the entries contain, and reading from there gives `r`. */
  ghost predicate ReadsBack(b: Bytes, inflate: Inflate, r: Result<seq<Entry>, ZipError>) {
    |b| >= 22 && LastEndAt(b, |b| - 22) && ReadArchive(b, |b| - 22, inflate) == r
  }

  /** What closes the archive leads to the loop. */
  lemma ReadArchiveBy(b: Bytes, count: nat, start: nat, inflate: Inflate, r: Result<seq<Entry>, ZipError>)
    requires Closed(b, count, start) && ReadLoop(Turn(b, inflate), count, start) == r
    ensures ReadsBack(b, inflate, r)
  {
  }

  /** Reading an archive that was written gives the entries back, in order, without the directories. */
  lemma ReadInvertsWrite(es: seq<Entry>, stamp: Stamp, inflate: Inflate)
    requires Fits(es, stamp)
    ensures ReadsBack(Archive(Zip(stamp), es), inflate, Ok(Kept(es, Dropped)))
  {
    EndOfZip(es, stamp);
    LoopReadsZip(es, stamp, inflate);
    ReadArchiveBy(Archive(Zip(stamp), es), |es|, |Concat(Locals(Zip(stamp), es))|, inflate, Ok(Kept(es, Dropped)));
  }

  /** What APPNOTE asks of a central header: at its offset lies the local header of the same entry. */
  lemma OffsetsPointHome(es: seq<Entry>, stamp: Stamp, i: nat)
    requires i < |es| && EntryFits(es[i], stamp, Offset(Zip(stamp), es, i))
    ensures var b := Archive(Zip(stamp), es);
            var central := ReadCentral(b, CentralOffset(Zip(stamp), es, i));
            central.Ok? && central.value.name == es[i].name && At(b, central.value.local, LocalRecord(es[i], stamp))
  {
    var zip := Zip(stamp);
    RecordsAt(zip, es, i);
    ReadCentralOf(Archive(zip, es), CentralOffset(zip, es, i), es[i], stamp, Offset(zip, es, i));
  }
}
