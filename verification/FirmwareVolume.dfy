/** SecCore/FindPeiCore.c: the walk over the boot firmware volume that finds the SEC core and
    the PEI core.  File and section headers are those of the PI Specification, Vol. 3,
    section 3.2. */
module FirmwareVolume {

  type Byte = b: nat | b < 256

  /** Memory from address 0 on. */
  type Bytes = seq<Byte>

  function ByteAt(b: Bytes, a: nat): Byte { if a < |b| then b[a] else 0 }

  datatype Option<T> = None | Some(value: T)

  /** A volume below 4 GB; its header is at base. */
  datatype Volume = Volume(base: nat, length: nat, headerLength: nat)

  function End(v: Volume): nat { v.base + v.length }

  function Word24(b: Bytes, a: nat): nat { ByteAt(b, a) + 0x100 * ByteAt(b, a + 1) + 0x1_0000 * ByteAt(b, a + 2) }
  function Word32(b: Bytes, a: nat): nat { Word24(b, a) + 0x100_0000 * ByteAt(b, a + 3) }

  // ----- Files -----

  const FILE_HEADER: nat := 24            // sizeof (EFI_FFS_FILE_HEADER)
  const FILE_HEADER2: nat := 32           // sizeof (EFI_FFS_FILE_HEADER2)
  const SECURITY_CORE: nat := 3           // EFI_FV_FILETYPE_SECURITY_CORE
  const PEI_CORE: nat := 4                // EFI_FV_FILETYPE_PEI_CORE

  function FileType(b: Bytes, f: nat): nat { ByteAt(b, f + 18) }
  predicate IsFile2(b: Bytes, f: nat) { ByteAt(b, f + 19) % 2 == 1 }
  function FileHeader(b: Bytes, f: nat): nat { if IsFile2(b, f) then FILE_HEADER2 else FILE_HEADER }

  /** The size in the header of a file, None if it is too small for its kind. */
  function FileSize(b: Bytes, f: nat): (size: Option<nat>)
    ensures size.Some? ==> size.value >= FileHeader(b, f)
  {
    if IsFile2(b, f) then (if Word32(b, f + 24) <= 0xFF_FFFF then None else Some(Word32(b, f + 24)))
    else if Word24(b, f + 20) < FILE_HEADER then None
    else Some(Word24(b, f + 20))
  }

  function Align8(a: nat): (r: nat)
    ensures a <= r < a + 8 && r % 8 == 0
  {
    (a + 7) / 8 * 8
  }

  /** Something between two addresses, with a size. */
  datatype Extent = Extent(start: nat, size: nat)

  function Past(x: Extent): nat { x.start + x.size }

  /** The file that follows an end; None if there is none, or it is malformed, or it does not
      lie inside the volume. */
  function NextFile(b: Bytes, v: Volume, end: nat): (file: Option<Extent>)
    ensures file.Some? ==> end <= file.value.start && Past(file.value) <= End(v) && file.value.start % 8 == 0
    ensures file.Some? ==> FileSize(b, file.value.start) == Some(file.value.size)
  {
    var f := Align8(end);
    if f > End(v) || FileSize(b, f).None? || f + FileSize(b, f).value > End(v) then None
    else Some(Extent(f, FileSize(b, f).value))
  }

  predicate IsCore(b: Bytes, f: nat) {
    FileType(b, f) == SECURITY_CORE || FileType(b, f) == PEI_CORE
  }

  // ----- Sections -----

  const SECTION_HEADER: nat := 4          // sizeof (EFI_COMMON_SECTION_HEADER)
  const SECTION_HEADER2: nat := 8         // sizeof (EFI_COMMON_SECTION_HEADER2)
  const SECTION_PE32: nat := 0x10
  const SECTION_TE: nat := 0x12

  predicate IsSection2(b: Bytes, s: nat) { Word24(b, s) == 0xFF_FFFF }
  function SectionHeader(b: Bytes, s: nat): nat { if IsSection2(b, s) then SECTION_HEADER2 else SECTION_HEADER }
  predicate IsExecutable(b: Bytes, s: nat) { ByteAt(b, s + 3) == SECTION_PE32 || ByteAt(b, s + 3) == SECTION_TE }

  function SectionSize(b: Bytes, s: nat): (size: Option<nat>)
    ensures size.Some? ==> size.value >= SectionHeader(b, s)
  {
    if IsSection2(b, s) then (if Word32(b, s + 4) <= 0xFF_FFFF then None else Some(Word32(b, s + 4)))
    else if Word24(b, s) < SECTION_HEADER then None
    else Some(Word24(b, s))
  }

  function Align4(a: nat): (r: nat)
    ensures a <= r < a + 4 && r % 4 == 0
  {
    (a + 3) / 4 * 4
  }

  /** The section that follows an end inside a file. */
  function NextSection(b: Bytes, end: nat, limit: nat): (section: Option<Extent>)
    ensures section.Some? ==> end <= section.value.start && Past(section.value) <= limit && section.value.start % 4 == 0
    ensures section.Some? ==> SectionSize(b, section.value.start) == Some(section.value.size)
  {
    var s := Align4(end);
    if SectionSize(b, s).None? || s + SectionSize(b, s).value > limit then None
    else Some(Extent(s, SectionSize(b, s).value))
  }

  function Room(end: nat, limit: nat): nat { if limit >= end then limit - end + 1 else 0 }

  /** The image in the first executable section after an end; None if the sections run out, or
      one is malformed, before. */
  function ImageAfter(b: Bytes, end: nat, limit: nat): Option<nat>
    decreases Room(end, limit)
  {
    match NextSection(b, end, limit)
    case None => None
    case Some(s) =>
      if IsExecutable(b, s.start) then Some(s.start + SectionHeader(b, s.start))
      else ImageAfter(b, Past(s), limit)
  }

  /** The image of a file. */
  function Image(b: Bytes, file: Extent): Option<nat> {
    ImageAfter(b, file.start + FileHeader(b, file.start), Past(file))
  }

  /** An image begins just past the header of this executable section, inside it. */
  predicate ImageOfSection(b: Bytes, image: nat, section: Extent) {
    && SectionSize(b, section.start) == Some(section.size) && IsExecutable(b, section.start) && section.start % 4 == 0
    && section.start < image == section.start + SectionHeader(b, section.start) <= Past(section)
  }

  /** The section lies in a range. */
  ghost predicate InSection(b: Bytes, image: nat, start: nat, limit: nat) {
    exists s: Extent :: ImageOfSection(b, image, s) && start <= s.start && Past(s) <= limit
  }

  lemma {:induction false} ImageIsInSection(b: Bytes, end: nat, limit: nat)
    requires ImageAfter(b, end, limit).Some?
    ensures InSection(b, ImageAfter(b, end, limit).value, end, limit)
    decreases Room(end, limit)
  {
    var s := NextSection(b, end, limit).value;
    if IsExecutable(b, s.start) {
      assert ImageOfSection(b, ImageAfter(b, end, limit).value, s);
    } else {
      ImageIsInSection(b, Past(s), limit);
      var r :| ImageOfSection(b, ImageAfter(b, end, limit).value, r) && Past(s) <= r.start && Past(r) <= limit;
      assert end <= r.start;
    }
  }

  // ----- The files of a volume -----

  /** f is one of the files that follow an end. */
  predicate FileAfter(b: Bytes, v: Volume, end: nat, f: Extent)
    decreases Room(end, End(v))
  {
    var g := NextFile(b, v, end);
    g.Some? && (f == g.value || FileAfter(b, v, Past(g.value), f))
  }

  /** The next n files are well-formed, and the core files among them have an image. */
  predicate Readable(b: Bytes, v: Volume, end: nat, n: nat)
    decreases n
  {
    n == 0 ||
    (var g := NextFile(b, v, end);
     g.Some? && (IsCore(b, g.value.start) ==> Image(b, g.value).Some?) && Readable(b, v, Past(g.value), n - 1))
  }

  /** One of the next n files is of this type. */
  predicate HasType(b: Bytes, v: Volume, end: nat, n: nat, fileType: nat)
    decreases n
  {
    n > 0 &&
    (var g := NextFile(b, v, end);
     g.Some? && (FileType(b, g.value.start) == fileType || HasType(b, v, Past(g.value), n - 1, fileType)))
  }

  datatype Images = Images(sec: nat, pei: nat)

  /** What the image of a core file adds to the images found so far. */
  function Seen(fileType: nat, image: nat, found: Images): Images {
    if fileType == SECURITY_CORE then found.(sec := image) else found.(pei := image)
  }

  predicate Complete(found: Images) { found.sec != 0 && found.pei != 0 }

  /** The search from an end on, with the images found so far. */
  function Search(b: Bytes, v: Volume, end: nat, found: Images): Option<Images>
    decreases Room(end, End(v))
  {
    match NextFile(b, v, end)
    case None => None
    case Some(f) =>
      if !IsCore(b, f.start) then Search(b, v, Past(f), found)
      else
        match Image(b, f)
        case None => None
        case Some(image) =>
          var found' := Seen(FileType(b, f.start), image, found);
          if Complete(found') then Some(found') else Search(b, v, Past(f), found')
  }

  // ----- The two loops -----

  /** The header of the section after an end. */
  method ReadSection(b: Bytes, end: nat, limit: nat) returns (section: Option<Extent>)
    ensures section == NextSection(b, end, limit)
  {
    var start := Align4(end);
    var size: nat;
    if IsSection2(b, start) {
      size := Word32(b, start + 4);
      if size <= 0xFF_FFFF { return None; }
    } else {
      size := Word24(b, start);
      if size < SECTION_HEADER { return None; }
    }
    if start + size > limit { return None; }
    return Some(Extent(start, size));
  }

  /** The loop over the sections of a core file. */
  method FindSection(b: Bytes, file: Extent) returns (image: Option<nat>)
    ensures image == Image(b, file)
  {
    var end: nat := if IsFile2(b, file.start) then file.start + FILE_HEADER2 else file.start + FILE_HEADER;
    while true
      invariant Image(b, file) == ImageAfter(b, end, Past(file))
      decreases Room(end, Past(file))
    {
      var section := ReadSection(b, end, Past(file));
      if section.None? { return None; }
      var s := section.value;
      if IsExecutable(b, s.start) {
        return Some(if IsSection2(b, s.start) then s.start + SECTION_HEADER2 else s.start + SECTION_HEADER);
      }
      end := Past(s);
    }
  }

  /** The header of the file after an end. */
  method ReadFile(b: Bytes, v: Volume, end: nat) returns (file: Option<Extent>)
    ensures file == NextFile(b, v, end)
  {
    var start := Align8(end);
    if start > End(v) { return None; }
    var size: nat;
    if IsFile2(b, start) {
      size := Word32(b, start + 24);
      if size <= 0xFF_FFFF { return None; }
    } else {
      size := Word24(b, start + 20);
      if size < FILE_HEADER { return None; }
    }
    if start + size > End(v) { return None; }
    return Some(Extent(start, size));
  }

  /** FindImageBase. */
  method FindImageBase(b: Bytes, v: Volume) returns (images: Option<Images>)
    ensures images == Search(b, v, v.base + v.headerLength, Images(0, 0))
  {
    var found := Images(0, 0);
    var end: nat := v.base + v.headerLength;
    while true
      invariant Search(b, v, v.base + v.headerLength, Images(0, 0)) == Search(b, v, end, found)
      decreases Room(end, End(v))
    {
      var file := ReadFile(b, v, end);
      if file.None? { return None; }
      var f := file.value;
      if IsCore(b, f.start) {
        var image := FindSection(b, f);
        if image.None? { return None; }
        if FileType(b, f.start) == SECURITY_CORE {
          found := found.(sec := image.value);
        } else {
          found := found.(pei := image.value);
        }
        if found.sec != 0 && found.pei != 0 { return Some(found); }
      }
      end := Past(f);
    }
  }

  // ----- What is found -----

  /** The image of a file of this type in the volume. */
  ghost predicate IsImageOf(b: Bytes, v: Volume, end: nat, image: nat, fileType: nat) {
    exists f: Extent :: FileAfter(b, v, end, f) && FileType(b, f.start) == fileType && Image(b, f) == Some(image)
  }

  /** The files lie in the volume, and the image of a file lies in an executable section of it. */
  lemma {:induction false} FilesAreInside(b: Bytes, v: Volume, end: nat, f: Extent)
    requires FileAfter(b, v, end, f)
    ensures end <= f.start && Past(f) <= End(v) && f.start % 8 == 0 && FileSize(b, f.start) == Some(f.size)
    decreases Room(end, End(v))
  {
    var g := NextFile(b, v, end).value;
    if f != g { FilesAreInside(b, v, Past(g), f); }
  }

  lemma ImagesAreInside(b: Bytes, v: Volume, end: nat, image: nat, fileType: nat)
    requires IsImageOf(b, v, end, image, fileType)
    ensures exists f: Extent, s: Extent ::
      && FileAfter(b, v, end, f) && FileType(b, f.start) == fileType && ImageOfSection(b, image, s)
      && end <= f.start && f.start + FileHeader(b, f.start) <= s.start && Past(s) <= Past(f) <= End(v)
  {
    var f: Extent :| FileAfter(b, v, end, f) && FileType(b, f.start) == fileType && Image(b, f) == Some(image);
    FilesAreInside(b, v, end, f);
    ImageIsInSection(b, f.start + FileHeader(b, f.start), Past(f));
    var s: Extent :| ImageOfSection(b, image, s) && f.start + FileHeader(b, f.start) <= s.start && Past(s) <= Past(f);
  }

  lemma LaterImage(b: Bytes, v: Volume, end: nat, image: nat, fileType: nat)
    requires NextFile(b, v, end).Some? && IsImageOf(b, v, Past(NextFile(b, v, end).value), image, fileType)
    ensures IsImageOf(b, v, end, image, fileType)
  {
    var f: Extent :|
      FileAfter(b, v, Past(NextFile(b, v, end).value), f) && FileType(b, f.start) == fileType &&
      Image(b, f) == Some(image);
    assert FileAfter(b, v, end, f);
  }

  /** A result is that of a file of the right type, or was there before. */
  ghost predicate Sound(b: Bytes, v: Volume, end: nat, found: Images, r: Images) {
    && (r.sec == found.sec || IsImageOf(b, v, end, r.sec, SECURITY_CORE))
    && (r.pei == found.pei || IsImageOf(b, v, end, r.pei, PEI_CORE))
    && Complete(r)
  }

  lemma SoundLater(b: Bytes, v: Volume, end: nat, found: Images, r: Images)
    requires NextFile(b, v, end).Some? && Sound(b, v, Past(NextFile(b, v, end).value), found, r)
    ensures Sound(b, v, end, found, r)
  {
    if r.sec != found.sec { LaterImage(b, v, end, r.sec, SECURITY_CORE); }
    if r.pei != found.pei { LaterImage(b, v, end, r.pei, PEI_CORE); }
  }

  lemma SoundHere(b: Bytes, v: Volume, end: nat, image: nat, found: Images, r: Images)
    requires NextFile(b, v, end).Some? && IsCore(b, NextFile(b, v, end).value.start)
    requires Image(b, NextFile(b, v, end).value) == Some(image)
    requires Sound(b, v, end, Seen(FileType(b, NextFile(b, v, end).value.start), image, found), r)
    ensures Sound(b, v, end, found, r)
  {
    var f := NextFile(b, v, end).value;
    assert FileAfter(b, v, end, f);
    assert IsImageOf(b, v, end, image, FileType(b, f.start));
  }

  lemma {:induction false} SearchIsSound(b: Bytes, v: Volume, end: nat, found: Images)
    requires Search(b, v, end, found).Some?
    ensures Sound(b, v, end, found, Search(b, v, end, found).value)
    decreases Room(end, End(v))
  {
    var f := NextFile(b, v, end).value;
    var r := Search(b, v, end, found).value;
    if !IsCore(b, f.start) {
      SearchIsSound(b, v, Past(f), found);
      SoundLater(b, v, end, found, r);
    } else {
      var image := Image(b, f).value;
      var found' := Seen(FileType(b, f.start), image, found);
      if !Complete(found') {
        SearchIsSound(b, v, Past(f), found');
        SoundLater(b, v, end, found', r);
      }
      SoundHere(b, v, end, image, found, r);
    }
  }

  lemma {:induction false} ImageIsPositive(b: Bytes, end: nat, limit: nat)
    requires ImageAfter(b, end, limit).Some?
    ensures ImageAfter(b, end, limit).value > 0
  {
    ImageIsInSection(b, end, limit);
  }

  /** Some number of the next files can be read, and with them both images are there. */
  predicate Enough(b: Bytes, v: Volume, end: nat, found: Images, n: nat) {
    n > 0 && Readable(b, v, end, n)
    && (found.sec != 0 || HasType(b, v, end, n, SECURITY_CORE)) && (found.pei != 0 || HasType(b, v, end, n, PEI_CORE))
  }

  /** The images after the next file. */
  function FoundAfter(b: Bytes, f: Extent, found: Images): Images
    requires IsCore(b, f.start) ==> Image(b, f).Some?
  {
    if IsCore(b, f.start) then Seen(FileType(b, f.start), Image(b, f).value, found) else found
  }

  /** Enough files from here on are enough after the next one, or that one completes. */
  lemma EnoughNext(b: Bytes, v: Volume, end: nat, found: Images, n: nat)
    requires n > 0 && NextFile(b, v, end).Some?
    requires IsCore(b, NextFile(b, v, end).value.start) ==> Image(b, NextFile(b, v, end).value).Some?
    ensures var f := NextFile(b, v, end).value; var found' := FoundAfter(b, f, found);
            Enough(b, v, end, found, n) <==> if n == 1 then Complete(found') else Enough(b, v, Past(f), found', n - 1)
  {
    var f := NextFile(b, v, end).value;
    if IsCore(b, f.start) { ImageIsPositive(b, f.start + FileHeader(b, f.start), Past(f)); }
  }

  /** The search succeeds as soon as it can. */
  lemma {:induction false} EnoughIsFound(b: Bytes, v: Volume, end: nat, found: Images, n: nat)
    requires Enough(b, v, end, found, n) && !Complete(found)
    ensures Search(b, v, end, found).Some?
    decreases n
  {
    var f := NextFile(b, v, end).value;
    EnoughNext(b, v, end, found, n);
    if !Complete(FoundAfter(b, f, found)) { EnoughIsFound(b, v, Past(f), FoundAfter(b, f, found), n - 1); }
  }

  /** And only if it can. */
  lemma {:induction false} FoundIsEnough(b: Bytes, v: Volume, end: nat, found: Images) returns (n: nat)
    requires Search(b, v, end, found).Some? && !Complete(found)
    ensures Enough(b, v, end, found, n)
    decreases Room(end, End(v))
  {
    var f := NextFile(b, v, end).value;
    if Complete(FoundAfter(b, f, found)) {
      n := 1;
    } else {
      n := FoundIsEnough(b, v, Past(f), FoundAfter(b, f, found));
      n := n + 1;
    }
    EnoughNext(b, v, end, found, n);
  }

  /** Both bases of a successful search are the images of a SEC core and of a PEI core file of
      the volume. */
  lemma FindImageBaseIsSound(b: Bytes, v: Volume)
    requires Search(b, v, v.base + v.headerLength, Images(0, 0)).Some?
    ensures var start := v.base + v.headerLength;
            var r := Search(b, v, start, Images(0, 0)).value;
            IsImageOf(b, v, start, r.sec, SECURITY_CORE) && IsImageOf(b, v, start, r.pei, PEI_CORE)
  {
    SearchIsSound(b, v, v.base + v.headerLength, Images(0, 0));
  }

  /** The search succeeds exactly if the volume has a beginning that can be read and has a file
      of each kind. */
  lemma FindImageBaseSucceeds(b: Bytes, v: Volume)
    ensures Search(b, v, v.base + v.headerLength, Images(0, 0)).Some? <==>
              CanSucceed(b, v, v.base + v.headerLength, Images(0, 0))
  {
    SucceedsIfItCan(b, v, v.base + v.headerLength, Images(0, 0));
  }

  ghost predicate CanSucceed(b: Bytes, v: Volume, end: nat, found: Images) {
    exists n: nat :: Enough(b, v, end, found, n)
  }

  lemma SucceedsIfItCan(b: Bytes, v: Volume, end: nat, found: Images)
    requires !Complete(found)
    ensures Search(b, v, end, found).Some? <==> CanSucceed(b, v, end, found)
  {
    if Search(b, v, end, found).Some? {
      var n := FoundIsEnough(b, v, end, found);
    } else if n: nat :| Enough(b, v, end, found, n) {
      EnoughIsFound(b, v, end, found, n);
    }
  }
}
