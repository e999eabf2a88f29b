/**
 Every field of a written archive, read back byte by byte where the APPNOTE of PKWARE puts it: local
 headers (section 4.3.7), directory headers (section 4.3.12) and the end record (section 4.3.16).
 */
module ZipFields {
  import opened Common
  import opened Words
  import opened Crc32
  import opened Container
  import opened ZipFormat
  import opened ZipRoundTrip

  // ---- where records stand, from the lengths of names and data alone ----

  function LocalPos(es: seq<Entry>, i: nat): nat
    requires i <= |es|
  {
    if i == 0 then 0 else LocalPos(es, i - 1) + 30 + |es[i - 1].name| + |es[i - 1].data|
  }

  function CentralPos(es: seq<Entry>, i: nat): (r: nat)
    requires i <= |es|
    ensures r >= LocalPos(es, |es|)
  {
    if i == 0 then LocalPos(es, |es|) else CentralPos(es, i - 1) + 46 + |es[i - 1].name|
  }

  // ---- what stands there ----

  /** A local record: its header field by field, the name and the data. */
  predicate LocalIs(b: Bytes, off: nat, e: Entry, stamp: Stamp) {
    && Read32(b, off) == Ok(0x04034b50)
    && Read16(b, off + 4) == Ok(20) && Read16(b, off + 6) == Ok(0x0800) && Read16(b, off + 8) == Ok(0)
    && Read16(b, off + 10) == Ok(stamp.time) && Read16(b, off + 12) == Ok(stamp.date)
    && Read32(b, off + 14) == Ok(Crc(e.data)) && Read32(b, off + 18) == Ok(|e.data|) && Read32(b, off + 22) == Ok(|e.data|)
    && Read16(b, off + 26) == Ok(|e.name|) && Read16(b, off + 28) == Ok(0)
    && At(b, off + 30, e.name) && At(b, off + 30 + |e.name|, e.data)
  }

  /** A directory record, which repeats it and says where it is. */
  predicate CentralIs(b: Bytes, off: nat, e: Entry, stamp: Stamp, local: nat) {
    && Read32(b, off) == Ok(0x02014b50)
    && Read16(b, off + 4) == Ok(20) && Read16(b, off + 6) == Ok(20) && Read16(b, off + 8) == Ok(0x0800) && Read16(b, off + 10) == Ok(0)
    && Read16(b, off + 12) == Ok(stamp.time) && Read16(b, off + 14) == Ok(stamp.date)
    && Read32(b, off + 16) == Ok(Crc(e.data)) && Read32(b, off + 20) == Ok(|e.data|) && Read32(b, off + 24) == Ok(|e.data|)
    && Read16(b, off + 28) == Ok(|e.name|) && Read16(b, off + 30) == Ok(0) && Read16(b, off + 32) == Ok(0)
    && Read16(b, off + 34) == Ok(0) && Read16(b, off + 36) == Ok(0) && Read32(b, off + 38) == Ok(0) && Read32(b, off + 42) == Ok(local)
    && At(b, off + 46, e.name)
  }

  /** The end record: one disk, so many entries, and where the directory lies and how long it is. */
  predicate EndIs(b: Bytes, off: nat, count: nat, size: nat, start: nat) {
    && Read32(b, off) == Ok(0x06054b50) && Read16(b, off + 4) == Ok(0) && Read16(b, off + 6) == Ok(0)
    && Read16(b, off + 8) == Ok(count) && Read16(b, off + 10) == Ok(count)
    && Read32(b, off + 12) == Ok(size) && Read32(b, off + 16) == Ok(start) && Read16(b, off + 20) == Ok(0)
  }

  /** The archive of these entries: local records, directory and end record, and no byte besides. */
  predicate IsArchiveOf(b: Bytes, es: seq<Entry>, stamp: Stamp) {
    && (forall i :: 0 <= i < |es| ==> LocalIs(b, LocalPos(es, i), es[i], stamp))
    && (forall i :: 0 <= i < |es| ==> CentralIs(b, CentralPos(es, i), es[i], stamp, LocalPos(es, i)))
    && EndIs(b, CentralPos(es, |es|), |es|, CentralPos(es, |es|) - LocalPos(es, |es|), LocalPos(es, |es|))
    && |b| == CentralPos(es, |es|) + 22
  }

  // ---- one record ----

  lemma LocalHeaderFields(e: Entry, stamp: Stamp)
    ensures var h := LocalHeader(e, stamp);
            && h[0..4] == U32(0x04034b50) && h[4..6] == U16(20) && h[6..8] == U16(0x0800) && h[8..10] == U16(0)
            && h[10..12] == U16(stamp.time) && h[12..14] == U16(stamp.date)
    ensures var h := LocalHeader(e, stamp);
            h[14..18] == U32(Crc(e.data)) && h[18..22] == U32(|e.data|) && h[22..26] == U32(|e.data|) && h[26..28] == U16(|e.name|) && h[28..30] == U16(0)
  {
  }

  lemma CentralHeaderFront(e: Entry, stamp: Stamp, offset: nat)
    ensures var h := CentralHeader(e, stamp, offset);
            && h[0..4] == U32(0x02014b50) && h[4..6] == U16(20) && h[6..8] == U16(20) && h[8..10] == U16(0x0800) && h[10..12] == U16(0)
            && h[12..14] == U16(stamp.time) && h[14..16] == U16(stamp.date)
  {
    hide Crc;
  }

  lemma CentralHeaderMiddle(e: Entry, stamp: Stamp, offset: nat)
    ensures var h := CentralHeader(e, stamp, offset);
            && h[16..20] == U32(Crc(e.data)) && h[20..24] == U32(|e.data|) && h[24..28] == U32(|e.data|)
            && h[28..30] == U16(|e.name|) && h[30..32] == U16(0)
  {
    hide Crc;
  }

  lemma CentralHeaderBack(e: Entry, stamp: Stamp, offset: nat)
    ensures var h := CentralHeader(e, stamp, offset);
            h[32..34] == U16(0) && h[34..36] == U16(0) && h[36..38] == U16(0) && h[38..42] == U32(0) && h[42..46] == U32(offset)
  {
    hide Crc;
  }

  lemma EndRecordFields(count: nat, size: nat, offset: nat)
    ensures var h := EndRecord(count, size, offset);
            && h[0..4] == U32(0x06054b50) && h[4..6] == U16(0) && h[6..8] == U16(0) && h[8..10] == U16(count) && h[10..12] == U16(count)
            && h[12..16] == U32(size) && h[16..20] == U32(offset) && h[20..22] == U16(0)
  {
  }

  lemma LocalStands(b: Bytes, off: nat, e: Entry, stamp: Stamp)
    requires EntryFits(e, stamp, off) && At(b, off, LocalRecord(e, stamp))
    ensures LocalIs(b, off, e, stamp)
  {
    var h := LocalHeader(e, stamp);
    AtParts(b, off, h + e.name, e.data);
    AtParts(b, off, h, e.name);
    LocalHeaderFields(e, stamp);
    hide LocalHeader, Read16, Read32, At, Crc;
    ReadField32(b, off, h, 0, 0x04034b50);
    ReadField16(b, off, h, 4, 20);
    ReadField16(b, off, h, 6, 0x0800);
    ReadField16(b, off, h, 8, 0);
    ReadField16(b, off, h, 10, stamp.time);
    ReadField16(b, off, h, 12, stamp.date);
    ReadField32(b, off, h, 14, Crc(e.data));
    ReadField32(b, off, h, 18, |e.data|);
    ReadField32(b, off, h, 22, |e.data|);
    ReadField16(b, off, h, 26, |e.name|);
    ReadField16(b, off, h, 28, 0);
  }

  lemma CentralStands(b: Bytes, off: nat, e: Entry, stamp: Stamp, here: nat)
    requires EntryFits(e, stamp, here) && At(b, off, CentralRecord(e, stamp, here))
    ensures CentralIs(b, off, e, stamp, here)
  {
    var h := CentralHeader(e, stamp, here);
    AtParts(b, off, h, e.name);
    CentralHeaderFront(e, stamp, here);
    CentralHeaderMiddle(e, stamp, here);
    CentralHeaderBack(e, stamp, here);
    hide CentralHeader, Read16, Read32, At, Crc;
    ReadField32(b, off, h, 0, 0x02014b50);
    ReadField16(b, off, h, 4, 20);
    ReadField16(b, off, h, 6, 20);
    ReadField16(b, off, h, 8, 0x0800);
    ReadField16(b, off, h, 10, 0);
    ReadField16(b, off, h, 12, stamp.time);
    ReadField16(b, off, h, 14, stamp.date);
    ReadField32(b, off, h, 16, Crc(e.data));
    ReadField32(b, off, h, 20, |e.data|);
    ReadField32(b, off, h, 24, |e.data|);
    ReadField16(b, off, h, 28, |e.name|);
    ReadField16(b, off, h, 30, 0);
    ReadField16(b, off, h, 32, 0);
    ReadField16(b, off, h, 34, 0);
    ReadField16(b, off, h, 36, 0);
    ReadField32(b, off, h, 38, 0);
    ReadField32(b, off, h, 42, here);
  }

  lemma EndStands(b: Bytes, off: nat, count: nat, size: nat, start: nat)
    requires At(b, off, EndRecord(count, size, start)) && count < WORD && size < DWORD && start < DWORD
    ensures EndIs(b, off, count, size, start)
  {
    var h := EndRecord(count, size, start);
    EndRecordFields(count, size, start);
    hide EndRecord, Read16, Read32, At;
    ReadField32(b, off, h, 0, 0x06054b50);
    ReadField16(b, off, h, 4, 0);
    ReadField16(b, off, h, 6, 0);
    ReadField16(b, off, h, 8, count);
    ReadField16(b, off, h, 10, count);
    ReadField32(b, off, h, 12, size);
    ReadField32(b, off, h, 16, start);
    ReadField16(b, off, h, 20, 0);
  }

  // ---- the whole archive ----

  lemma {:induction false} OffsetIsPos(es: seq<Entry>, stamp: Stamp, i: nat)
    requires i <= |es|
    ensures Offset(Zip(stamp), es, i) == LocalPos(es, i)
  {
    if i > 0 {
      OffsetIsPos(es, stamp, i - 1);
      ConcatStep(Locals(Zip(stamp), es), i - 1);
      assert |LocalRecord(es[i - 1], stamp)| == 30 + |es[i - 1].name| + |es[i - 1].data|;
    }
  }

  lemma CentralLength(es: seq<Entry>, stamp: Stamp, i: nat)
    requires i < |es|
    ensures |Zip(stamp).central(es[i], Offset(Zip(stamp), es, i))| == 46 + |es[i].name|
  {
    hide CentralHeader, Offset;
  }

  lemma {:induction false} CentralOffsetIsPos(es: seq<Entry>, stamp: Stamp, i: nat)
    requires i <= |es|
    ensures CentralOffset(Zip(stamp), es, i) == CentralPos(es, i)
  {
    if i == 0 {
      OffsetIsPos(es, stamp, |es|);
      assert Locals(Zip(stamp), es)[..|es|] == Locals(Zip(stamp), es);
    } else {
      CentralOffsetIsPos(es, stamp, i - 1);
      CentralOffsetStep(Zip(stamp), es, i - 1);
      CentralLength(es, stamp, i - 1);
      hide CentralOffset, Zip;
    }
  }

  lemma RecordsStand(es: seq<Entry>, stamp: Stamp, i: nat)
    requires i < |es| && EntryFits(es[i], stamp, Offset(Zip(stamp), es, i))
    ensures LocalIs(Archive(Zip(stamp), es), LocalPos(es, i), es[i], stamp)
    ensures CentralIs(Archive(Zip(stamp), es), CentralPos(es, i), es[i], stamp, LocalPos(es, i))
  {
    RecordsAt(Zip(stamp), es, i);
    OffsetIsPos(es, stamp, i);
    CentralOffsetIsPos(es, stamp, i);
    hide LocalIs, CentralIs, Archive, Offset, CentralOffset, LocalPos, CentralPos, At, LocalRecord, CentralRecord, EntryFits;
    LocalStands(Archive(Zip(stamp), es), LocalPos(es, i), es[i], stamp);
    CentralStands(Archive(Zip(stamp), es), CentralPos(es, i), es[i], stamp, LocalPos(es, i));
  }

  lemma PartLengths(es: seq<Entry>, stamp: Stamp)
    ensures |Concat(Locals(Zip(stamp), es))| == LocalPos(es, |es|)
    ensures |Concat(Centrals(Zip(stamp), es))| == CentralPos(es, |es|) - LocalPos(es, |es|)
  {
    var zip := Zip(stamp);
    OffsetIsPos(es, stamp, |es|);
    CentralOffsetIsPos(es, stamp, |es|);
    hide Concat, LocalPos, CentralPos, Zip;
    assert Locals(zip, es)[..|es|] == Locals(zip, es) && Centrals(zip, es)[..|es|] == Centrals(zip, es);
  }

  lemma DirectoryStands(es: seq<Entry>, stamp: Stamp)
    requires |es| < WORD && |Concat(Centrals(Zip(stamp), es))| < DWORD && |Concat(Locals(Zip(stamp), es))| < DWORD
    ensures var start, end := LocalPos(es, |es|), CentralPos(es, |es|);
            EndIs(Archive(Zip(stamp), es), end, |es|, end - start, start) && |Archive(Zip(stamp), es)| == end + 22
  {
    var zip := Zip(stamp);
    PartLengths(es, stamp);
    ArchiveParts(zip, es);
    assert End(zip, es) == EndRecord(|es|, |Concat(Centrals(zip, es))|, |Concat(Locals(zip, es))|);
    hide EndIs, Archive, LocalPos, CentralPos, At, Concat, EndRecord, Locals, Centrals, Zip;
    EndStands(Archive(zip, es), CentralPos(es, |es|), |es|, |Concat(Centrals(zip, es))|, |Concat(Locals(zip, es))|);
  }

  /** Whatever is written within the limits is the archive of its entries, field by field. */
  lemma WrittenIsArchive(es: seq<Entry>, stamp: Stamp)
    requires Fits(es, stamp)
    ensures IsArchiveOf(Archive(Zip(stamp), es), es, stamp)
  {
    hide LocalIs, CentralIs, Archive, EndIs, EntryFits, LocalPos, CentralPos, Zip, Concat, Offset, Centrals, Locals;
    DirectoryStands(es, stamp);
    forall i | 0 <= i < |es|
      ensures LocalIs(Archive(Zip(stamp), es), LocalPos(es, i), es[i], stamp)
      ensures CentralIs(Archive(Zip(stamp), es), CentralPos(es, i), es[i], stamp, LocalPos(es, i))
    {
      RecordsStand(es, stamp, i);
    }
  }
}
