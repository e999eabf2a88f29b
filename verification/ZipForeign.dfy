/**
 What the reader makes of archives that others wrote: with extra fields, comments, gaps, compressed
 data, directories, and records that are damaged. The archive is described by where its fields stand,
 not by how it was written.
 */
module ZipForeign {
  import opened Common
  import opened Words
  import opened Container
  import opened ZipFormat

  /**
   A file of an archive: its directory record, where that says the local record is, and what is found
   there. The lengths of extra fields and comments are free, and the two records may differ in them.
   */
  datatype File = File(
    signature: nat, name: Bytes, packing: nat, packed: Bytes, extra: nat, comment: nat,
    local: nat, localSignature: nat, localName: nat, localExtra: nat)

  predicate IsFolder(f: File) {
    |f.name| > 0 && f.name[|f.name| - 1] == 0x2f
  }

  /** The directory record of this file stands here. */
  predicate CentralHolds(b: Bytes, off: nat, f: File) {
    && Read32(b, off) == Ok(f.signature)
    && (f.signature == 0x02014b50 ==>
          && Read16(b, off + 10) == Ok(f.packing) && Read32(b, off + 20) == Ok(|f.packed|)
          && Read16(b, off + 28) == Ok(|f.name|) && Read16(b, off + 30) == Ok(f.extra) && Read16(b, off + 32) == Ok(f.comment)
          && Read32(b, off + 42) == Ok(f.local) && At(b, off + 46, f.name))
  }

  /** Its local record, with the packed data behind name and extra field, stands where the directory says. */
  predicate LocalHolds(b: Bytes, f: File) {
    && Read32(b, f.local) == Ok(f.localSignature)
    && (f.localSignature == 0x04034b50 ==>
          && Read16(b, f.local + 26) == Ok(f.localName) && Read16(b, f.local + 28) == Ok(f.localExtra)
          && At(b, f.local + 30 + f.localName + f.localExtra, f.packed))
  }

  predicate FileHolds(b: Bytes, off: nat, f: File) {
    CentralHolds(b, off, f) && (f.signature == 0x02014b50 && !IsFolder(f) ==> LocalHolds(b, f))
  }

  /** The directory records stand one behind the other from here on. */
  predicate DirectoryHolds(b: Bytes, off: nat, files: seq<File>)
    decreases |files|
  {
    files != [] ==>
      && FileHolds(b, off, files[0])
      && DirectoryHolds(b, off + 46 + |files[0].name| + files[0].extra + files[0].comment, files[1..])
  }

  /** The end record stands at `end`, its comment fills the rest, and no other end record begins behind it. */
  predicate EndHolds(b: Bytes, end: nat, comment: nat, count: nat, start: nat) {
    && comment <= 65535 && |b| == end + 22 + comment
    && Read32(b, end) == Ok(0x06054b50) && Read16(b, end + 10) == Ok(count) && Read32(b, end + 16) == Ok(start)
    && forall off :: end < off <= |b| - 22 ==> Read32(b, off) != Ok(0x06054b50)
  }

  /** The data of a file: as it stands, inflated, or not to be had. */
  function DataOf(f: File, inflate: Inflate): Result<Bytes, ZipError> {
    if f.signature != 0x02014b50 then Err(BadDirectory)
    else if f.localSignature != 0x04034b50 then Err(BadLocalHeader)
    else match f.packing
      case 0 => Ok(f.packed)
      case 8 => inflate(f.packed)
      case _ => Err(BadMethod)
  }

  /** The files in order, without the folders, or the error of the first that cannot be read. */
  function Contents(files: seq<File>, inflate: Inflate): Result<seq<Entry>, ZipError> {
    if files == [] then Ok([])
    else if files[0].signature == 0x02014b50 && IsFolder(files[0]) then Contents(files[1..], inflate)
    else
      var data := DataOf(files[0], inflate);
      if data.Err? then Err(data.error)
      else
        var rest := Contents(files[1..], inflate);
        if rest.Err? then rest else Ok([Entry(files[0].name, data.value)] + rest.value)
  }

  lemma NameRead(b: Bytes, off: nat, name: Bytes)
    requires At(b, off, name)
    ensures Sub(b, off, off + |name|) == name
  {
  }

  lemma CentralRead(b: Bytes, off: nat, f: File)
    requires CentralHolds(b, off, f)
    ensures ReadCentral(b, off) ==
      if f.signature != 0x02014b50 then Err(BadDirectory)
      else Ok(Central(f.name, f.packing, |f.packed|, f.local, off + 46 + |f.name| + f.extra + f.comment))
  {
    if f.signature == 0x02014b50 {
      NameRead(b, off + 46, f.name);
    }
  }

  lemma LocalRead(b: Bytes, f: File, inflate: Inflate)
    requires LocalHolds(b, f)
    ensures ReadLocal(b, f.local, f.packing, |f.packed|, inflate) ==
      if f.localSignature != 0x04034b50 then Err(BadLocalHeader)
      else match f.packing case 0 => Ok(f.packed) case 8 => inflate(f.packed) case _ => Err(BadMethod)
  {
    if f.localSignature == 0x04034b50 {
      NameRead(b, f.local + 30 + f.localName + f.localExtra, f.packed);
    }
  }

  /** One turn of the loop over this file. */
  lemma FileRead(b: Bytes, off: nat, f: File, inflate: Inflate)
    requires FileHolds(b, off, f)
    ensures var next := off + 46 + |f.name| + f.extra + f.comment;
            Turn(b, inflate)(off) ==
              if f.signature == 0x02014b50 && IsFolder(f) then Ok(([], next))
              else
                var data := DataOf(f, inflate);
                if data.Err? then Err(data.error) else Ok(([Entry(f.name, data.value)], next))
  {
    CentralRead(b, off, f);
    if f.signature == 0x02014b50 && !IsFolder(f) {
      LocalRead(b, f, inflate);
    }
    hide ReadCentral, ReadLocal, CentralHolds, LocalHolds, Read16, Read32;
  }

  lemma {:induction false} DirectoryRead(b: Bytes, off: nat, files: seq<File>, inflate: Inflate)
    requires DirectoryHolds(b, off, files)
    ensures ReadLoop(Turn(b, inflate), |files|, off) == Contents(files, inflate)
    decreases |files|
  {
    hide FileHolds, IsFolder, DataOf, Turn;
    if files != [] {
      FileRead(b, off, files[0], inflate);
      var next := off + 46 + |files[0].name| + files[0].extra + files[0].comment;
      DirectoryRead(b, next, files[1..], inflate);
      var rest := ReadLoop(Turn(b, inflate), |files| - 1, next);
      assert rest.Ok? ==> [] + rest.value == rest.value;
    }
  }

  /**
   Every archive whose end record can be found is read from it, and gives its files in order with the
   data unpacked, without folders, or the error of the first file that is damaged or packed otherwise.
   */
  lemma ForeignIsRead(b: Bytes, end: nat, comment: nat, start: nat, files: seq<File>, inflate: Inflate)
    requires EndHolds(b, end, comment, |files|, start) && DirectoryHolds(b, start, files)
    ensures LastEndAt(b, end) && ReadArchive(b, end, inflate) == Contents(files, inflate)
  {
    DirectoryRead(b, start, files, inflate);
    hide ReadLoop, Turn, DirectoryHolds, Contents, Read16;
    assert EndAt(b, end);
  }
}
