/** The search for a file along the chain a board's EEPROM holds
    (components/jethome_board_info/jeefs_parse.h, jethome_board_info.cpp): the walker asks for one
    header at a time and trusts none before its checksum, which here is any function of the bytes. */
module JeefsWalks {
  import opened Options
  import opened Utf8

  const BOARD_DATA_SIZE: nat := 256
  const FILE_HEADER_SIZE: nat := 28
  const FILE_HEADER_CRC_DATA_SIZE: nat := 24
  const FILE_NAME_SIZE: nat := 16
  const NEXT_TERMINAL: nat := 0xFFFF
  const FIRST_HEADER: nat := BOARD_DATA_SIZE
  const FS_VERSION_JEEFS_V1: nat := 1
  const IMAGE_MAX: nat := 0x10000

  type Checksum = seq<Byte> -> nat

  datatype Status = WantHeader | Found | NotFound | NoFilesystem | BadName | BadFileHeaderCrc | CorruptChain

  datatype Walk = Walk(
    wantOffset: nat, fileOffset: nat, fileCrc: nat, imageSize: nat, fileSize: nat, status: Status,
    target: seq<Byte>)

  // --- Fields of a header ---

  /** Bytes lowest first. */
  function Word16(low: nat, high: nat): nat {
    low + 256 * high
  }

  function Word32(a: nat, b: nat, c: nat, d: nat): nat {
    Word16(a, b) + 0x10000 * Word16(c, d)
  }

  /** A header as it lies in memory: name, data size, checksum of the data, link, own checksum. */
  datatype Header = Header(name: seq<Byte>, terminated: bool, dataSize: nat, crc: nat, next: nat, headerCrc: nat)

  function HeaderOf(raw: seq<Byte>): (h: Header)
    requires |raw| == FILE_HEADER_SIZE
    ensures h.dataSize < IMAGE_MAX && h.next < IMAGE_MAX
  {
    Header(CString(raw[..FILE_NAME_SIZE]), raw[FILE_NAME_SIZE - 1] == 0, Word16(raw[16], raw[17]),
           Word32(raw[18], raw[19], raw[20], raw[21]), Word16(raw[22], raw[23]),
           Word32(raw[24], raw[25], raw[26], raw[27]))
  }

  /** An erased link ends the chain as 0 does. */
  function LinkOf(h: Header): nat {
    if h.next == NEXT_TERMINAL then 0 else h.next
  }

  // --- The walker ---

  predicate NameFits(name: Option<seq<Byte>>) {
    name.Some? && 0 < |CString(name.value)| < FILE_NAME_SIZE
  }

  function Begun(fsVersion: nat, imageSize: nat, name: Option<seq<Byte>>): Walk {
    var w := Walk(0, 0, 0, imageSize, 0, WantHeader, []);
    if !NameFits(name) then w.(status := BadName)
    else
      var named := w.(target := CString(name.value));
      if fsVersion != FS_VERSION_JEEFS_V1 then named.(status := NoFilesystem)
      else if FIRST_HEADER + FILE_HEADER_SIZE > imageSize then named.(status := NotFound)
      else named.(wantOffset := FIRST_HEADER)
  }

  function EndOf(w: Walk, h: Header): nat {
    w.wantOffset + FILE_HEADER_SIZE + h.dataSize
  }

  /** The file does not lie in the image, or its link does not lead to where it ends. */
  predicate Corrupt(w: Walk, h: Header) {
    || !h.terminated || h.dataSize == 0 || h.dataSize == NEXT_TERMINAL
    || EndOf(w, h) > w.imageSize
    || (LinkOf(h) != 0 && (LinkOf(h) != EndOf(w, h) || EndOf(w, h) + FILE_HEADER_SIZE > w.imageSize))
  }

  predicate Unwritten(raw: seq<Byte>)
    requires raw != []
  {
    raw[0] == 0 || raw[0] == 0xFF
  }

  function Fed(w: Walk, raw: seq<Byte>, crc: Checksum): Walk
    requires |raw| == FILE_HEADER_SIZE
  {
    var h := HeaderOf(raw);
    if !w.status.WantHeader? then w
    else if Unwritten(raw) then w.(status := NotFound)
    else if crc(raw[..FILE_HEADER_CRC_DATA_SIZE]) != h.headerCrc then w.(status := BadFileHeaderCrc)
    else if Corrupt(w, h) then w.(status := CorruptChain)
    else if h.name == w.target then
      w.(fileOffset := w.wantOffset + FILE_HEADER_SIZE, fileSize := h.dataSize, fileCrc := h.crc, status := Found)
    else if LinkOf(h) == 0 then w.(status := NotFound)
    else w.(wantOffset := LinkOf(h))
  }

  /** A header wanted, and a file found, lie inside the image. */
  predicate Inside(w: Walk) {
    && (w.status.WantHeader? ==> FIRST_HEADER <= w.wantOffset && w.wantOffset + FILE_HEADER_SIZE <= w.imageSize)
    && (w.status.Found? ==>
          && FIRST_HEADER + FILE_HEADER_SIZE <= w.fileOffset && w.fileSize > 0
          && w.fileOffset + w.fileSize <= w.imageSize)
  }

  /** Whatever bytes a header is made of: the next one wanted and the file found are inside the image,
      and the walk only ever moves forward. */
  lemma FeedingStaysInside(w: Walk, raw: seq<Byte>, crc: Checksum)
    requires Inside(w) && |raw| == FILE_HEADER_SIZE
    ensures var r := Fed(w, raw, crc);
            && Inside(r) && r.imageSize == w.imageSize && r.target == w.target
            && (w.status.WantHeader? && r.status.WantHeader? ==> r.wantOffset > w.wantOffset)
  {
    hide HeaderOf;
  }

  lemma BegunInside(fsVersion: nat, imageSize: nat, name: Option<seq<Byte>>)
    ensures Inside(Begun(fsVersion, imageSize, name)) && Begun(fsVersion, imageSize, name).imageSize == imageSize
  {}

  /** The header-sized bytes at `at`. */
  function RawAt(image: seq<Byte>, at: nat): (raw: seq<Byte>)
    requires at + FILE_HEADER_SIZE <= |image|
    ensures |raw| == FILE_HEADER_SIZE
  {
    image[at..at + FILE_HEADER_SIZE]
  }

  /** The walk over an image that answers every read. */
  function Walked(w: Walk, image: seq<Byte>, crc: Checksum): (r: Walk)
    requires Inside(w) && w.imageSize == |image|
    ensures Inside(r) && !r.status.WantHeader? && r.imageSize == |image|
    decreases |image| - if w.status.WantHeader? then w.wantOffset else |image|
  {
    if !w.status.WantHeader? then w
    else
      var raw := RawAt(image, w.wantOffset);
      FeedingStaysInside(w, raw, crc);
      Walked(Fed(w, raw, crc), image, crc)
  }

  // --- A well-formed chain ---

  /** A file as its writer knows it. */
  datatype File = File(name: seq<Byte>, data: seq<Byte>, crc: nat)

  function SizeOf(f: File): nat {
    FILE_HEADER_SIZE + |f.data|
  }

  /** The header of `f`, checksum and all, lies at `at`, its data after it. */
  predicate Holds(image: seq<Byte>, at: nat, f: File, crc: Checksum) {
    at + SizeOf(f) <= |image| &&
    var raw := RawAt(image, at);
    var h := HeaderOf(raw);
    && 0 < |f.data| < NEXT_TERMINAL && 0 < |f.name| < FILE_NAME_SIZE && 0 !in f.name
    && !Unwritten(raw)
    && h.name == f.name && h.terminated && h.dataSize == |f.data| && h.crc == f.crc
    && crc(raw[..FILE_HEADER_CRC_DATA_SIZE]) == h.headerCrc
    && image[at + FILE_HEADER_SIZE..at + SizeOf(f)] == f.data
  }

  /** From `at` on lie `files`, each linked to the next; the last one's link is terminal, or leads to
      a slot never written. */
  predicate Chain(image: seq<Byte>, at: nat, files: seq<File>, crc: Checksum)
    decreases |files|
  {
    if files == [] then at + FILE_HEADER_SIZE <= |image| && Unwritten(RawAt(image, at))
    else
      && Holds(image, at, files[0], crc)
      && var link := LinkOf(HeaderOf(RawAt(image, at)));
         var end := at + SizeOf(files[0]);
         || (|files| == 1 && link == 0)
         || (link == end && end + FILE_HEADER_SIZE <= |image| && Chain(image, end, files[1..], crc))
  }

  /** A walk in a chain stopped at the first file of the name: its data, size and checksum are the
      ones given. */
  predicate Finds(r: Walk, image: seq<Byte>, f: File) {
    && r.status.Found? && r.fileSize == |f.data| && r.fileCrc == f.crc
    && r.fileOffset + r.fileSize <= |image|
    && image[r.fileOffset..r.fileOffset + r.fileSize] == f.data
  }

  predicate Named(files: seq<File>, name: seq<Byte>) {
    exists i :: 0 <= i < |files| && files[i].name == name
  }

  function FirstNamed(files: seq<File>, name: seq<Byte>): (f: File)
    requires Named(files, name)
    ensures f in files && f.name == name
  {
    if files[0].name == name then files[0] else FirstNamed(files[1..], name)
  }

  lemma FedChain(w: Walk, image: seq<Byte>, f: File, crc: Checksum)
    requires Inside(w) && w.imageSize == |image| <= IMAGE_MAX && w.status.WantHeader?
    requires Holds(image, w.wantOffset, f, crc)
    requires var link := LinkOf(HeaderOf(RawAt(image, w.wantOffset)));
             var end := w.wantOffset + SizeOf(f);
             link == 0 || (link == end && end + FILE_HEADER_SIZE <= |image|)
    ensures var raw := RawAt(image, w.wantOffset);
            var r := Fed(w, raw, crc);
            && (f.name == w.target ==> Finds(r, image, f))
            && (f.name != w.target ==>
                  r == if LinkOf(HeaderOf(raw)) == 0 then w.(status := NotFound)
                       else w.(wantOffset := w.wantOffset + SizeOf(f)))
  {
    hide HeaderOf;
  }

  /** The first file of the name, or none exactly when there is none. */
  predicate Answers(r: Walk, image: seq<Byte>, files: seq<File>, name: seq<Byte>) {
    if Named(files, name) then Finds(r, image, FirstNamed(files, name)) else r.status.NotFound?
  }

  predicate EndsHere(w: Walk, image: seq<Byte>, files: seq<File>)
    requires w.wantOffset + FILE_HEADER_SIZE <= |image|
  {
    files == [] || files[0].name == w.target || LinkOf(HeaderOf(RawAt(image, w.wantOffset))) == 0
  }

  lemma EndingAnswers(w: Walk, image: seq<Byte>, files: seq<File>, crc: Checksum)
    requires Inside(w) && w.imageSize == |image| <= IMAGE_MAX && w.status.WantHeader?
    requires Chain(image, w.wantOffset, files, crc) && EndsHere(w, image, files)
    ensures Answers(Walked(w, image, crc), image, files, w.target)
  {
    hide HeaderOf, Holds, Fed, Unwritten, Finds, Walked, FirstNamed, Named, RawAt, LinkOf;
    WalkStep(w, image, crc);
    NoneNamed(w.target);
    if files == [] {
      EmptySlot(w, image, crc);
    } else {
      ChainHead(image, w.wantOffset, files, crc);
      FedChain(w, image, files[0], crc);
      NamedSplits(files, w.target);
      if files[0].name == w.target {
        FindingIsFound(Fed(w, RawAt(image, w.wantOffset), crc), image, files[0]);
        NamedHere(files, w.target);
      } else {
        LastIsLast(image, w.wantOffset, files, crc);
      }
    }
  }

  lemma FindingIsFound(w: Walk, image: seq<Byte>, f: File)
    ensures Finds(w, image, f) ==> !w.status.WantHeader?
  {}

  lemma GoingOn(w: Walk, image: seq<Byte>, files: seq<File>, crc: Checksum) returns (next: Walk)
    requires Inside(w) && w.imageSize == |image| <= IMAGE_MAX && w.status.WantHeader?
    requires Chain(image, w.wantOffset, files, crc) && !EndsHere(w, image, files)
    ensures Inside(next) && next.imageSize == |image| && next.status.WantHeader? && next.target == w.target
    ensures Chain(image, next.wantOffset, files[1..], crc) && Walked(next, image, crc) == Walked(w, image, crc)
    ensures forall r :: Answers(r, image, files[1..], w.target) ==> Answers(r, image, files, w.target)
  {
    hide HeaderOf, Holds, Fed, Unwritten, Finds, Walked, FirstNamed, Named, RawAt, LinkOf;
    next := Fed(w, RawAt(image, w.wantOffset), crc);
    WalkStep(w, image, crc);
    ChainHead(image, w.wantOffset, files, crc);
    LinkLeads(image, w.wantOffset, files, crc);
    hide Chain;
    FedChain(w, image, files[0], crc);
    NamedSplits(files, w.target);
  }

  /** Over a well-formed chain the walk finds the first file of the name, its data, size and checksum,
      and reports that there is none exactly when there is none. */
  lemma {:induction false} WalkFindsTheFirst(w: Walk, image: seq<Byte>, files: seq<File>, crc: Checksum)
    requires Inside(w) && w.imageSize == |image| <= IMAGE_MAX && w.status.WantHeader?
    requires Chain(image, w.wantOffset, files, crc)
    ensures Answers(Walked(w, image, crc), image, files, w.target)
    decreases |files|
  {
    InsideMeans(w);
    if EndsHere(w, image, files) {
      EndingAnswers(w, image, files, crc);
    } else {
      var next := GoingOn(w, image, files, crc);
      hide Chain, Walked, Inside, Answers, EndsHere;
      WalkFindsTheFirst(next, image, files[1..], crc);
    }
  }

  lemma EmptySlot(w: Walk, image: seq<Byte>, crc: Checksum)
    requires Inside(w) && w.imageSize == |image| && w.status.WantHeader?
    requires Unwritten(RawAt(image, w.wantOffset))
    ensures Fed(w, RawAt(image, w.wantOffset), crc) == w.(status := NotFound)
  {
    hide HeaderOf;
  }

  lemma NamedSplits(files: seq<File>, name: seq<Byte>)
    requires files != []
    ensures Named(files, name) <==> files[0].name == name || Named(files[1..], name)
    ensures Named(files, name) && files[0].name != name ==> FirstNamed(files, name) == FirstNamed(files[1..], name)
  {
    if Named(files, name) && files[0].name != name {
      var i :| 0 <= i < |files| && files[i].name == name;
      assert files[1..][i - 1].name == name;
    }
    if Named(files[1..], name) {
      var i :| 0 <= i < |files[1..]| && files[1..][i].name == name;
      assert files[i + 1].name == name;
    }
  }

  lemma WalkStep(w: Walk, image: seq<Byte>, crc: Checksum)
    requires Inside(w) && w.imageSize == |image| && w.status.WantHeader?
    ensures var next := Fed(w, RawAt(image, w.wantOffset), crc);
            && Inside(next) && next.imageSize == |image| && next.target == w.target
            && Walked(w, image, crc) == Walked(next, image, crc)
            && (!next.status.WantHeader? ==> Walked(next, image, crc) == next)
  {
    hide Fed;
    FeedingStaysInside(w, RawAt(image, w.wantOffset), crc);
  }

  lemma InsideMeans(w: Walk)
    requires Inside(w) && w.status.WantHeader?
    ensures w.wantOffset + FILE_HEADER_SIZE <= w.imageSize
  {}

  lemma NoneNamed(name: seq<Byte>)
    ensures !Named([], name)
  {}

  lemma NamedHere(files: seq<File>, name: seq<Byte>)
    requires files != [] && files[0].name == name
    ensures Named(files, name) && FirstNamed(files, name) == files[0]
  {}

  lemma ChainHead(image: seq<Byte>, at: nat, files: seq<File>, crc: Checksum)
    requires Chain(image, at, files, crc) && files != []
    ensures Holds(image, at, files[0], crc)
    ensures var link := LinkOf(HeaderOf(RawAt(image, at)));
            var end := at + SizeOf(files[0]);
            link == 0 || (link == end && end + FILE_HEADER_SIZE <= |image|)
  {
    hide HeaderOf;
  }

  lemma LastIsLast(image: seq<Byte>, at: nat, files: seq<File>, crc: Checksum)
    requires Chain(image, at, files, crc) && files != []
    requires at + FILE_HEADER_SIZE <= |image| && LinkOf(HeaderOf(RawAt(image, at))) == 0
    ensures files[1..] == []
  {
    hide HeaderOf, Holds;
  }

  lemma LinkLeads(image: seq<Byte>, at: nat, files: seq<File>, crc: Checksum)
    requires Chain(image, at, files, crc) && files != []
    requires at + FILE_HEADER_SIZE <= |image| && LinkOf(HeaderOf(RawAt(image, at))) != 0
    ensures Chain(image, at + SizeOf(files[0]), files[1..], crc)
  {
    hide HeaderOf, Holds;
  }

  /** A search of a whole image: no filesystem, no fitting name and no room come first; over a
      well-formed chain the rest is the first file of the name or none. */
  lemma SearchFindsTheFirst(image: seq<Byte>, fsVersion: nat, name: seq<Byte>, files: seq<File>, crc: Checksum)
    requires |image| <= IMAGE_MAX && 0 !in name && Chain(image, FIRST_HEADER, files, crc)
    ensures Inside(Begun(fsVersion, |image|, Some(name)))
    ensures var r := Walked(Begun(fsVersion, |image|, Some(name)), image, crc);
            if |name| == 0 || |name| >= FILE_NAME_SIZE then r.status.BadName?
            else if fsVersion != FS_VERSION_JEEFS_V1 then r.status.NoFilesystem?
            else Answers(r, image, files, name)
  {
    BegunInside(fsVersion, |image|, Some(name));
    PlainCString(name);
    ChainHasRoom(image, FIRST_HEADER, files, crc);
    var w := Begun(fsVersion, |image|, Some(name));
    hide Chain;
    if 0 < |name| < FILE_NAME_SIZE && fsVersion == FS_VERSION_JEEFS_V1 {
      WalkFindsTheFirst(w, image, files, crc);
    }
  }

  lemma ChainHasRoom(image: seq<Byte>, at: nat, files: seq<File>, crc: Checksum)
    requires Chain(image, at, files, crc)
    ensures at + FILE_HEADER_SIZE <= |image|
  {
    hide HeaderOf;
  }

  // --- The loop ---

  class JeefsWalk {
    var wantOffset: nat
    var fileOffset: nat
    var fileCrc: nat
    var imageSize: nat
    var fileSize: nat
    var status: Status
    var target: seq<Byte>

    function View(): Walk
      reads this
    {
      Walk(wantOffset, fileOffset, fileCrc, imageSize, fileSize, status, target)
    }

    /** Refines `Begun`. */
    constructor (fsVersion: nat, imageSize: nat, name: Option<seq<Byte>>)
      ensures View() == Begun(fsVersion, imageSize, name)
    {
      wantOffset, fileOffset, fileCrc, this.imageSize, fileSize := 0, 0, 0, imageSize, 0;
      status, target := WantHeader, [];
      new;
      if !NameFits(name) {
        status := BadName;
        return;
      }
      target := CString(name.value);
      if fsVersion != FS_VERSION_JEEFS_V1 {
        status := NoFilesystem;
      } else if FIRST_HEADER + FILE_HEADER_SIZE > imageSize {
        status := NotFound;
      } else {
        wantOffset := FIRST_HEADER;
      }
    }

    method Feed(raw: seq<Byte>, crc: Checksum)
      requires |raw| == FILE_HEADER_SIZE
      modifies this
      ensures View() == Fed(old(View()), raw, crc)
    {
      if status != WantHeader {
        return;
      }
      var h := HeaderOf(raw);
      if raw[0] == 0 || raw[0] == 0xFF {
        status := NotFound;
        return;
      }
      if crc(raw[..FILE_HEADER_CRC_DATA_SIZE]) != h.headerCrc {
        status := BadFileHeaderCrc;
        return;
      }
      if !h.terminated || h.dataSize == 0 || h.dataSize == NEXT_TERMINAL {
        status := CorruptChain;
        return;
      }
      var end := wantOffset + FILE_HEADER_SIZE + h.dataSize;
      if end > imageSize {
        status := CorruptChain;
        return;
      }
      var next := LinkOf(h);
      if next != 0 && (next != end || end + FILE_HEADER_SIZE > imageSize) {
        status := CorruptChain;
        return;
      }
      if h.name == target {
        fileOffset := wantOffset + FILE_HEADER_SIZE;
        fileSize := h.dataSize;
        fileCrc := h.crc;
        status := Found;
        return;
      }
      if next == 0 {
        status := NotFound;
        return;
      }
      wantOffset := next;
    }
  }

  /** Reads headers until the walk has ended or a read fails; every read is inside the image. */
  method FindFile(image: seq<Byte>, fsVersion: nat, name: Option<seq<Byte>>, crc: Checksum)
    returns (ok: bool, offset: nat, size: nat, fileCrc: nat, answered: bool)
    requires |image| <= IMAGE_MAX
    ensures Inside(Begun(fsVersion, |image|, name))
    ensures ok ==> answered
    ensures answered ==>
              var r := Walked(Begun(fsVersion, |image|, name), image, crc);
              && ok == r.status.Found?
              && (ok ==> offset == r.fileOffset && size == r.fileSize && fileCrc == r.fileCrc)
    ensures ok ==> 0 < size && offset + size <= |image| && offset < IMAGE_MAX
  {
    hide Fed, Begun;
    BegunInside(fsVersion, |image|, name);
    var walk := new JeefsWalk(fsVersion, |image|, name);
    offset, size, fileCrc := 0, 0, 0;
    while walk.status == WantHeader
      invariant Inside(walk.View()) && walk.imageSize == |image|
      invariant Walked(walk.View(), image, crc) == Walked(Begun(fsVersion, |image|, name), image, crc)
      decreases |image| - if walk.status.WantHeader? then walk.wantOffset else |image|
    {
      var at := walk.wantOffset % IMAGE_MAX;
      var read := *;
      if !read {
        return false, 0, 0, 0, false;
      }
      var raw := RawAt(image, at);
      FeedingStaysInside(walk.View(), raw, crc);
      walk.Feed(raw, crc);
    }
    answered := true;
    ok := walk.status == Found;
    if ok {
      offset := walk.fileOffset % IMAGE_MAX;
      size := walk.fileSize;
      fileCrc := walk.fileCrc;
    }
  }
}
