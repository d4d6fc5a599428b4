/** The image a board's EEPROM is written with, and what the search makes of it
    (components/jethome_board_info/jeefs_parse.h): one header after the other, fields lowest byte first, each file
    linked to where it ends. */
module JeefsImages {
  import opened Options
  import opened Utf8
  import opened JeefsWalks

  // --- Fields as they are written ---

  function Bytes16(n: nat): (s: seq<Byte>)
    requires n < 0x10000
    ensures |s| == 2
  {
    [n % 256, n / 256]
  }

  function Bytes32(n: nat): (s: seq<Byte>)
    requires n < 0x1_0000_0000
    ensures |s| == 4
  {
    Bytes16(n % 0x10000) + Bytes16(n / 0x10000)
  }

  function Zeros(n: nat): (s: seq<Byte>)
    ensures |s| == n && forall i :: 0 <= i < n ==> s[i] == 0
  {
    if n == 0 then [] else [0] + Zeros(n - 1)
  }

  lemma WordReadsBack(n: nat)
    requires n < 0x1_0000_0000
    ensures n < 0x10000 ==> Word16(Bytes16(n)[0], Bytes16(n)[1]) == n
    ensures var s := Bytes32(n); Word32(s[0], s[1], s[2], s[3]) == n
  {}

  lemma {:induction false} PaddedName(name: seq<Byte>, n: nat)
    requires 0 !in name && n > 0
    ensures CString(name + Zeros(n)) == name
  {
    var s := name + Zeros(n);
    if name == [] {
      assert s[0] == 0;
    } else {
      assert s[1..] == name[1..] + Zeros(n);
      PaddedName(name[1..], n);
    }
  }

  // --- Files ---

  /** What a file may be: named, not like an erased slot, and of a size a header can say. */
  predicate Writable(f: File) {
    && 0 < |f.name| < FILE_NAME_SIZE && 0 !in f.name && f.name[0] != 0xFF
    && 0 < |f.data| < NEXT_TERMINAL && f.crc < 0x1_0000_0000
  }

  /** The header of `f` but for its own checksum. */
  function Fields(f: File, link: nat): (s: seq<Byte>)
    requires Writable(f) && link < 0x10000
    ensures |s| == FILE_HEADER_CRC_DATA_SIZE
  {
    f.name + Zeros(FILE_NAME_SIZE - |f.name|) + Bytes16(|f.data|) + Bytes32(f.crc) + Bytes16(link)
  }

  function HeaderBytes(f: File, link: nat, headerCrc: nat): (s: seq<Byte>)
    requires Writable(f) && link < 0x10000 && headerCrc < 0x1_0000_0000
    ensures |s| == FILE_HEADER_SIZE && s[..FILE_HEADER_CRC_DATA_SIZE] == Fields(f, link)
  {
    Fields(f, link) + Bytes32(headerCrc)
  }

  lemma FieldsAt(f: File, link: nat, headerCrc: nat)
    requires Writable(f) && link < 0x10000 && headerCrc < 0x1_0000_0000
    ensures var s := HeaderBytes(f, link, headerCrc);
            && s[..FILE_NAME_SIZE] == f.name + Zeros(FILE_NAME_SIZE - |f.name|)
            && s[16..18] == Bytes16(|f.data|) && s[18..22] == Bytes32(f.crc)
            && s[22..24] == Bytes16(link) && s[24..28] == Bytes32(headerCrc)
  {
    hide Bytes16, Bytes32;
  }

  /** A header reads back as it was written. */
  lemma HeaderReadsBack(f: File, link: nat, headerCrc: nat)
    requires Writable(f) && link < 0x10000 && headerCrc < 0x1_0000_0000
    ensures HeaderOf(HeaderBytes(f, link, headerCrc)) == Header(f.name, true, |f.data|, f.crc, link, headerCrc)
    ensures !Unwritten(HeaderBytes(f, link, headerCrc))
  {
    var s := HeaderBytes(f, link, headerCrc);
    FieldsAt(f, link, headerCrc);
    PaddedName(f.name, FILE_NAME_SIZE - |f.name|);
    WordReadsBack(|f.data|);
    WordReadsBack(f.crc);
    WordReadsBack(link);
    WordReadsBack(headerCrc);
    hide Bytes16, Bytes32, Word16, Word32, HeaderBytes, CString, Fields, Zeros;
    assert s[0] == s[..FILE_NAME_SIZE][0] && s[15] == s[..FILE_NAME_SIZE][15];
    assert s[16] == s[16..18][0] && s[17] == s[16..18][1];
    assert s[18] == s[18..22][0] && s[19] == s[18..22][1] && s[20] == s[18..22][2] && s[21] == s[18..22][3];
    assert s[22] == s[22..24][0] && s[23] == s[22..24][1];
    assert s[24] == s[24..28][0] && s[25] == s[24..28][1] && s[26] == s[24..28][2] && s[27] == s[24..28][3];
  }

  // --- The image ---

  ghost predicate Is32Bits(crc: Checksum) {
    forall s :: crc(s) < 0x1_0000_0000
  }

  predicate AllWritable(files: seq<File>) {
    forall i :: 0 <= i < |files| ==> Writable(files[i])
  }

  function Length(files: seq<File>): nat {
    if files == [] then 0 else SizeOf(files[0]) + Length(files[1..])
  }

  /** The files one after the other from `at` on, each linked to the next, the last to none. */
  ghost function Written(at: nat, files: seq<File>, crc: Checksum): (s: seq<Byte>)
    requires AllWritable(files) && Is32Bits(crc) && at + Length(files) <= IMAGE_MAX
    ensures |s| == Length(files)
    decreases |files|
  {
    if files == [] then []
    else
      var f := files[0];
      var link := if |files| == 1 then 0 else at + SizeOf(f);
      assert |files| > 1 ==> Length(files[1..]) > 0;
      HeaderBytes(f, link, crc(Fields(f, link))) + f.data + Written(at + SizeOf(f), files[1..], crc)
  }

  lemma Slices(image: seq<Byte>, at: nat, header: seq<Byte>, data: seq<Byte>, rest: seq<Byte>)
    requires at <= |image| && image[at..] == header + data + rest
    ensures var mid, end := at + |header|, at + |header| + |data|;
            && end <= |image|
            && image[at..mid] == header && image[mid..end] == data && image[end..] == rest
  {
    var mid, end := at + |header|, at + |header| + |data|;
    assert |image| - at == |header| + |data| + |rest|;
    assert image[at..mid] == image[at..][..|header|];
    assert image[mid..end] == image[at..][|header|..|header| + |data|];
    assert image[end..] == image[at..][|header| + |data|..];
  }

  lemma FirstIsHeld(image: seq<Byte>, at: nat, f: File, link: nat, rest: seq<Byte>, crc: Checksum)
    requires Writable(f) && Is32Bits(crc) && link < 0x10000 && at <= |image|
    requires image[at..] == HeaderBytes(f, link, crc(Fields(f, link))) + f.data + rest
    ensures Holds(image, at, f, crc) && HeaderOf(RawAt(image, at)).next == link
    ensures at + SizeOf(f) <= |image| && image[at + SizeOf(f)..] == rest
  {
    var header := HeaderBytes(f, link, crc(Fields(f, link)));
    HeaderReadsBack(f, link, crc(Fields(f, link)));
    hide HeaderOf, Fields, HeaderBytes, Unwritten;
    Slices(image, at, header, f.data, rest);
  }

  /** What is written is a well-formed chain. */
  lemma {:induction false} WrittenIsAChain(image: seq<Byte>, at: nat, files: seq<File>, rest: seq<Byte>, crc: Checksum)
    requires files != [] && AllWritable(files) && Is32Bits(crc) && 0 < at && at + Length(files) <= IMAGE_MAX
    requires at <= |image| && image[at..] == Written(at, files, crc) + rest
    ensures Chain(image, at, files, crc)
    decreases |files|
  {
    hide Holds, HeaderOf, HeaderBytes, Fields;
    var f := files[0];
    var end := at + SizeOf(f);
    assert |files| > 1 ==> Length(files[1..]) > FILE_HEADER_SIZE;
    var link := if |files| == 1 then 0 else end;
    var after := Written(end, files[1..], crc) + rest;
    var header := HeaderBytes(f, link, crc(Fields(f, link)));
    assert image[at..] == header + f.data + after;
    FirstIsHeld(image, at, f, link, after, crc);
    if |files| > 1 {
      WrittenIsAChain(image, end, files[1..], rest, crc);
    }
  }

  /** So a search of an image as it was written finds the first file of the name, with the data and the checksum it
      was written with, or reports that there is none; whatever lies before and behind. */
  lemma WrittenIsFound(board: seq<Byte>, files: seq<File>, rest: seq<Byte>, name: seq<Byte>, crc: Checksum)
    requires |board| == BOARD_DATA_SIZE && files != [] && AllWritable(files) && Is32Bits(crc)
    requires BOARD_DATA_SIZE + Length(files) + |rest| <= IMAGE_MAX && 0 !in name && 0 < |name| < FILE_NAME_SIZE
    ensures var image := board + Written(BOARD_DATA_SIZE, files, crc) + rest;
            var begun := Begun(FS_VERSION_JEEFS_V1, |image|, Some(name));
            Inside(begun) && Answers(Walked(begun, image, crc), image, files, name)
  {
    var image := board + Written(BOARD_DATA_SIZE, files, crc) + rest;
    assert image[BOARD_DATA_SIZE..] == Written(BOARD_DATA_SIZE, files, crc) + rest;
    WrittenIsAChain(image, BOARD_DATA_SIZE, files, rest, crc);
    hide Chain, Walked, Answers, Written;
    SearchFindsTheFirst(image, FS_VERSION_JEEFS_V1, name, files, crc);
  }

  // --- Headers that end the walk ---

  /** A slot is erased, to ones or to zeros. */
  predicate Erased(raw: seq<Byte>) {
    (forall i :: 0 <= i < |raw| ==> raw[i] == 0) || (forall i :: 0 <= i < |raw| ==> raw[i] == 0xFF)
  }

  /** An erased slot ends the chain; bytes with another checksum are not believed; and a header that is believed
      ends the walk as corrupt exactly when its name is not closed, its data is none or runs over the image, or it
      links to anything but where it ends, with room for a header there. Any other is the file, or leads on by its link,
      or with none, or an erased one, ends the walk. */
  lemma FeedAnswers(w: Walk, raw: seq<Byte>, crc: Checksum)
    requires w.status.WantHeader? && |raw| == FILE_HEADER_SIZE && w.imageSize <= IMAGE_MAX
    ensures var r, h := Fed(w, raw, crc), HeaderOf(raw);
            var end := w.wantOffset + FILE_HEADER_SIZE + h.dataSize;
            var believed := crc(raw[..FILE_HEADER_CRC_DATA_SIZE]) == h.headerCrc;
            && (Erased(raw) ==> r.status.NotFound?)
            && (!Unwritten(raw) ==> (r.status.BadFileHeaderCrc? <==> !believed))
            && (!Unwritten(raw) && believed ==>
                  (r.status.CorruptChain? <==>
                     || raw[15] != 0 || h.dataSize == 0 || end > w.imageSize
                     || !(h.next == 0 || h.next == 0xFFFF || h.next == end)
                     || (h.next == end && h.next != 0xFFFF && end + FILE_HEADER_SIZE > w.imageSize)))
            && (!Unwritten(raw) && believed && !r.status.CorruptChain? ==>
                  if h.name == w.target then
                    && r.status.Found? && r.fileOffset + r.fileSize == end
                    && r.fileSize == h.dataSize && r.fileCrc == h.crc
                  else if h.next == 0 || h.next == 0xFFFF then r.status.NotFound?
                  else r.status.WantHeader? && r.wantOffset == end)
  {
    hide CString, Word16, Word32;
  }
}
