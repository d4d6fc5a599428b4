/** The file the slots of thermometers are kept in (components/dallas_scan/slot_file.cpp): what any list
    of entries reads as, what a table is written as, and that one undoes the other. The JSON library
    hands out entries; a list that is missing or no array is an empty one. */
module SlotFiles {
  import opened Options
  import opened Utf8
  import PanelText

  type Address = x: nat | x < 0x1_0000_0000_0000_0000

  const MAX_OFFSET: real := 5.0
  const MAX_OFFSET_TENTHS: int := 50
  /** Makes up for values stored a little below what was meant. */
  const ROUNDING_MARGIN: real := 0.00001

  // --- Addresses as text ---

  function Nibble(b: Byte): Option<nat> {
    if 0x30 <= b <= 0x39 then Some(b - 0x30)
    else if 0x61 <= b <= 0x66 then Some(b - 0x61 + 10)
    else if 0x41 <= b <= 0x46 then Some(b - 0x41 + 10)
    else None
  }

  function Pow16(digits: nat): (r: nat)
    ensures r > 0
  {
    if digits == 0 then 1 else 16 * Pow16(digits - 1)
  }

  /** The number a text of hex digits stands for. */
  function HexValue(s: seq<Byte>): (r: Option<nat>)
    ensures r.Some? ==> r.value < Pow16(|s|)
  {
    if s == [] then Some(0)
    else
      var n := |s| - 1;
      var high, low := HexValue(s[..n]), Nibble(s[n]);
      if high.None? || low.None? then None else Some(16 * high.value + low.value)
  }

  lemma SixteenDigits()
    ensures Pow16(16) == 0x1_0000_0000_0000_0000
  {
    assert Pow16(4) == 0x1_0000;
    assert Pow16(8) == 0x1_0000 * Pow16(4);
    assert Pow16(12) == 0x1_0000 * Pow16(8);
    assert Pow16(16) == 0x1_0000 * Pow16(12);
  }

  lemma {:induction false} MoreDigits(few: nat, many: nat)
    requires few <= many
    ensures Pow16(few) <= Pow16(many)
  {
    if few < many {
      MoreDigits(few, many - 1);
    }
  }

  /** An address as a person or the component writes it: 0x and up to sixteen digits, not all 0. */
  function ParsedAddress(text: seq<Byte>): (r: Option<Address>)
    ensures r.Some? ==> r.value != 0
  {
    var s := CString(text);
    if |s| < 3 || |s| > 18 || s[0] != 0x30 || (s[1] != 0x78 && s[1] != 0x58) then None
    else
      var v := HexValue(s[2..]);
      if v.None? || v.value == 0 then None
      else
        SixteenDigits();
        MoreDigits(|s| - 2, 16);
        Some(v.value)
  }

  function HexDigit(n: nat): (b: Byte)
    requires n < 16
    ensures Nibble(b) == Some(n) && b != 0
  {
    if n < 10 then 0x30 + n else 0x61 + n - 10
  }

  function HexText(x: nat, width: nat): (s: seq<Byte>)
    ensures |s| == width && 0 !in s
  {
    if width == 0 then [] else HexText(x / 16, width - 1) + [HexDigit(x % 16)]
  }

  function AddressText(address: Address): seq<Byte> {
    [0x30, 0x78] + HexText(address, 16)
  }

  lemma {:induction false} HexReadsBack(x: nat, width: nat)
    requires x < Pow16(width)
    ensures HexValue(HexText(x, width)) == Some(x)
  {
    if width > 0 {
      var s := HexText(x, width);
      HexReadsBack(x / 16, width - 1);
      assert s[..width - 1] == HexText(x / 16, width - 1);
      assert s[width - 1] == HexDigit(x % 16);
    }
  }

  lemma AddressReadsBack(address: Address)
    ensures ParsedAddress(AddressText(address)) == if address == 0 then None else Some(address)
  {
    var text := AddressText(address);
    SixteenDigits();
    HexReadsBack(address, 16);
    PlainCString(text);
    assert text[2..] == HexText(address, 16);
  }

  // --- Offsets as numbers ---

  /** Halves round away from zero. */
  function Rounded(x: real): int {
    if x >= 0.0 then (x + 0.5).Floor else -((0.5 - x).Floor)
  }

  function Magnitude(x: real): real {
    if x < 0.0 then -x else x
  }

  /** Tenths of a degree, within 5 degrees either way once rounded. */
  function OffsetTenths(celsius: real): (r: Option<int>)
    ensures r.Some? ==> -MAX_OFFSET_TENTHS <= r.value <= MAX_OFFSET_TENTHS
  {
    if Magnitude(celsius) > 2.0 * MAX_OFFSET then None
    else
      var tenths := Rounded(celsius * 10.0 + if celsius < 0.0 then -ROUNDING_MARGIN else ROUNDING_MARGIN);
      if -MAX_OFFSET_TENTHS <= tenths <= MAX_OFFSET_TENTHS then Some(tenths) else None
  }

  /** An offset is the nearest tenth to within the margin, and is refused exactly when that lies past
      the limit. */
  lemma OffsetIsNearest(celsius: real)
    ensures var r := OffsetTenths(celsius);
            && (r.Some? ==> Magnitude(celsius * 10.0 - r.value as real) <= 0.5 + ROUNDING_MARGIN)
            && (r.Some? <==> Magnitude(celsius * 10.0) < MAX_OFFSET_TENTHS as real + 0.5 - ROUNDING_MARGIN)
  {}

  lemma TenthsReadBack(tenths: int)
    requires -MAX_OFFSET_TENTHS <= tenths <= MAX_OFFSET_TENTHS
    ensures OffsetTenths(tenths as real / 10.0) == Some(tenths)
  {
    var celsius := tenths as real / 10.0;
    assert celsius * 10.0 == tenths as real;
  }

  // --- Tables ---

  /** For each slot an address or 0, an offset in tenths of a degree and a label. */
  datatype Table = Table(slots: seq<Address>, offsets: seq<int>, labels: seq<seq<Byte>>)

  predicate Sized(t: Table, n: nat) {
    |t.slots| == |t.offsets| == |t.labels| == n
  }

  predicate OneSlotEach(s: seq<Address>) {
    forall i, j :: 0 <= i < j < |s| && s[i] != 0 ==> s[i] != s[j]
  }

  predicate Offset(tenths: int) {
    -MAX_OFFSET_TENTHS <= tenths <= MAX_OFFSET_TENTHS
  }

  predicate Label(name: seq<Byte>) {
    name == [] || PanelText.ParseLabel(Some(name)) == Some(name)
  }

  predicate Offsets(s: seq<int>) {
    forall i :: 0 <= i < |s| ==> Offset(s[i])
  }

  predicate Labels(s: seq<seq<Byte>>) {
    forall i :: 0 <= i < |s| ==> Label(s[i])
  }

  /** A table that may be kept: no device in two slots, offsets within the limit, labels as accepted. */
  predicate Sound(t: Table) {
    OneSlotEach(t.slots) && Offsets(t.offsets) && Labels(t.labels)
  }

  function Without(s: seq<Address>, address: Address): (r: seq<Address>)
    ensures |r| == |s| && forall i :: 0 <= i < |s| ==> r[i] == if s[i] == address then 0 else s[i]
  {
    seq(|s|, i requires 0 <= i < |s| => if s[i] == address then 0 else s[i])
  }

  /** `address` in `slot` and nowhere else. */
  function Placed(s: seq<Address>, slot: nat, address: Address): (r: seq<Address>)
    requires slot < |s|
    ensures |r| == |s|
  {
    Without(s, address)[slot := address]
  }

  lemma PlacedStaysDistinct(s: seq<Address>, slot: nat, address: Address)
    requires slot < |s| && OneSlotEach(s) && address != 0
    ensures OneSlotEach(Placed(s, slot, address))
  {}

  function Empty(n: nat): (s: seq<Address>)
    ensures |s| == n && OneSlotEach(s)
  {
    seq(n, _ => 0)
  }

  function Blank(n: nat): (t: Table)
    ensures Sized(t, n) && Sound(t)
  {
    Table(Empty(n), seq(n, _ => 0), seq(n, _ => []))
  }

  // --- Entries ---

  datatype Value = Number(number: real) | Text(text: seq<Byte>) | Neither

  /** `slot` is absent where the file has no integer. */
  datatype Entry = Entry(slot: Option<int>, value: Value)

  datatype Root = Root(records: seq<Entry>, offsets: seq<Entry>, labels: seq<Entry>)

  predicate InTable(e: Entry, n: nat) {
    e.slot.Some? && 1 <= e.slot.value <= n
  }

  function AddressOf(v: Value): Option<Address> {
    if v.Text? then ParsedAddress(v.text) else None
  }

  function OffsetOf(v: Value): Option<int> {
    if v.Number? then OffsetTenths(v.number) else None
  }

  function LabelOf(v: Value): Option<seq<Byte>> {
    PanelText.ParseLabel(if v.Text? then Some(v.text) else None)
  }

  /** An entry takes effect only with a slot of the table and an address; it then clears whatever else
      held either. */
  function RecordRead(s: seq<Address>, e: Entry): (r: seq<Address>)
    ensures |r| == |s|
  {
    if InTable(e, |s|) && AddressOf(e.value).Some? then Placed(s, e.slot.value - 1, AddressOf(e.value).value)
    else s
  }

  function RecordsRead(entries: seq<Entry>, n: nat): (s: seq<Address>)
    ensures |s| == n
  {
    if entries == [] then Empty(n)
    else RecordRead(RecordsRead(entries[..|entries| - 1], n), entries[|entries| - 1])
  }

  function EntryRead<T>(s: seq<T>, e: Entry, read: Value -> Option<T>): (r: seq<T>)
    ensures |r| == |s|
  {
    if InTable(e, |s|) && read(e.value).Some? then s[e.slot.value - 1 := read(e.value).value] else s
  }

  /** Entries read over `blank` one after the other. */
  function EntriesRead<T>(blank: seq<T>, entries: seq<Entry>, read: Value -> Option<T>): (s: seq<T>)
    ensures |s| == |blank|
  {
    if entries == [] then blank
    else EntryRead(EntriesRead(blank, entries[..|entries| - 1], read), entries[|entries| - 1], read)
  }

  function Parsed(root: Root, n: nat): (t: Table)
    ensures Sized(t, n)
  {
    Table(RecordsRead(root.records, n),
          EntriesRead(Blank(n).offsets, root.offsets, OffsetOf),
          EntriesRead(Blank(n).labels, root.labels, LabelOf))
  }

  /** The entries of what differs from `none`. */
  function Listed<T(==)>(s: seq<T>, none: T, write: T -> Value): seq<Entry> {
    if s == [] then []
    else
      var n := |s| - 1;
      Listed(s[..n], none, write) + if s[n] == none then [] else [Entry(Some(n + 1), write(s[n]))]
  }

  function AddressValue(address: Address): Value {
    Text(AddressText(address))
  }

  function OffsetValue(tenths: int): Value {
    Number(tenths as real / 10.0)
  }

  function LabelValue(name: seq<Byte>): Value {
    Text(name)
  }

  function Written(t: Table): Root {
    Root(Listed(t.slots, 0, AddressValue), Listed(t.offsets, 0, OffsetValue), Listed(t.labels, [], LabelValue))
  }

  // --- Whatever a person writes into the file ---

  lemma {:induction false} RecordsAreDistinct(entries: seq<Entry>, n: nat)
    ensures OneSlotEach(RecordsRead(entries, n))
  {
    if entries != [] {
      var before, e := entries[..|entries| - 1], entries[|entries| - 1];
      RecordsAreDistinct(before, n);
      if InTable(e, n) && AddressOf(e.value).Some? {
        PlacedStaysDistinct(RecordsRead(before, n), e.slot.value - 1, AddressOf(e.value).value);
      }
      hide OneSlotEach, Placed;
    }
  }

  ghost predicate All<T>(s: seq<T>, fine: T -> bool) {
    forall i :: 0 <= i < |s| ==> fine(s[i])
  }

  lemma {:induction false} EntriesAre<T>(blank: seq<T>, entries: seq<Entry>, read: Value -> Option<T>, fine: T -> bool)
    requires All(blank, fine) && forall v :: read(v).Some? ==> fine(read(v).value)
    ensures All(EntriesRead(blank, entries, read), fine)
  {
    if entries != [] {
      var before, e := entries[..|entries| - 1], entries[|entries| - 1];
      EntriesAre(blank, before, read, fine);
      EntryIs(EntriesRead(blank, before, read), e, read, fine);
      hide All, EntryRead;
    }
  }

  lemma EntryIs<T>(s: seq<T>, e: Entry, read: Value -> Option<T>, fine: T -> bool)
    requires All(s, fine) && (read(e.value).Some? ==> fine(read(e.value).value))
    ensures All(EntryRead(s, e, read), fine)
  {}

  /** What was accepted is accepted again as it is. */
  lemma KeptLabelStays(v: Value)
    requires LabelOf(v).Some?
    ensures Label(LabelOf(v).value)
  {
    PanelText.LabelMeans(v.text);
    PanelText.TrimmedStays(v.text);
    hide PanelText.Accepted, PanelText.Trimmed;
  }

  lemma OffsetsAreSound(entries: seq<Entry>, n: nat)
    ensures Offsets(EntriesRead(Blank(n).offsets, entries, OffsetOf))
  {
    hide OffsetTenths;
    EntriesAre(Blank(n).offsets, entries, OffsetOf, Offset);
  }

  lemma LabelsAreSound(entries: seq<Entry>, n: nat)
    ensures Labels(EntriesRead(Blank(n).labels, entries, LabelOf))
  {
    forall v | LabelOf(v).Some? ensures Label(LabelOf(v).value) {
      KeptLabelStays(v);
    }
    EntriesAre(Blank(n).labels, entries, LabelOf, Label);
  }

  /** Any file at all reads as a sound table. */
  lemma ParsedIsSound(root: Root, n: nat)
    ensures Sound(Parsed(root, n))
  {
    RecordsAreDistinct(root.records, n);
    OffsetsAreSound(root.offsets, n);
    LabelsAreSound(root.labels, n);
    hide OneSlotEach, Offsets, Labels;
  }

  // --- What is written reads back ---

  /** The first `k` of a table, the rest as they were. */
  function FirstOf<T>(s: seq<T>, k: nat, blank: seq<T>): (r: seq<T>)
    requires k <= |s| == |blank|
    ensures |r| == |s| && forall i :: 0 <= i < |s| ==> r[i] == if i < k then s[i] else blank[i]
  {
    s[..k] + blank[k..]
  }

  lemma LastListed<T>(s: seq<T>, k: nat, none: T, write: T -> Value)
    requires 0 < k <= |s|
    ensures var before := Listed(s[..k - 1], none, write);
            var all := Listed(s[..k], none, write);
            if s[k - 1] == none then all == before
            else all != [] && all[..|all| - 1] == before && all[|all| - 1] == Entry(Some(k), write(s[k - 1]))
  {
    assert s[..k][..k - 1] == s[..k - 1];
  }

  lemma RecordReadsBack(s: seq<Address>, k: nat)
    requires OneSlotEach(s) && 0 < k <= |s| && s[k - 1] != 0
    ensures RecordRead(FirstOf(s, k - 1, Empty(|s|)), Entry(Some(k), AddressValue(s[k - 1])))
         == FirstOf(s, k, Empty(|s|))
  {
    hide AddressText, ParsedAddress;
    var before := FirstOf(s, k - 1, Empty(|s|));
    AddressReadsBack(s[k - 1]);
    assert Without(before, s[k - 1]) == before;
    assert FirstOf(s, k, Empty(|s|)) == before[k - 1 := s[k - 1]];
  }

  lemma {:induction false} RecordsReadBack(s: seq<Address>, k: nat)
    requires OneSlotEach(s) && k <= |s|
    ensures RecordsRead(Listed(s[..k], 0, AddressValue), |s|) == FirstOf(s, k, Empty(|s|))
  {
    hide OneSlotEach, RecordRead, Listed;
    if k > 0 {
      RecordsReadBack(s, k - 1);
      LastListed(s, k, 0, AddressValue);
      if s[k - 1] != 0 {
        RecordReadsBack(s, k);
      }
      assert s[k - 1] == 0 ==> FirstOf(s, k, Empty(|s|)) == FirstOf(s, k - 1, Empty(|s|));
    } else {
      NoneListed(s, 0, AddressValue);
      assert FirstOf(s, 0, Empty(|s|)) == Empty(|s|);
    }
  }

  lemma NoneListed<T>(s: seq<T>, none: T, write: T -> Value)
    ensures Listed(s[..0], none, write) == []
  {}

  lemma {:induction false} EntriesReadBack<T>(
      s: seq<T>, k: nat, none: T, blank: seq<T>, write: T -> Value, read: Value -> Option<T>)
    requires k <= |s| == |blank| && forall i :: 0 <= i < |s| ==> blank[i] == none
    requires forall i :: 0 <= i < |s| && s[i] != none ==> read(write(s[i])) == Some(s[i])
    ensures EntriesRead(blank, Listed(s[..k], none, write), read) == FirstOf(s, k, blank)
  {
    hide Listed, FirstOf, EntryRead;
    if k > 0 {
      EntriesReadBack(s, k - 1, none, blank, write, read);
      LastListed(s, k, none, write);
      if s[k - 1] == none {
        FirstSkips(s, k, none, blank);
      } else {
        EntryReadsBack(s, k, blank, write, read);
      }
    } else {
      NoneListed(s, none, write);
      NoneFirst(s, blank);
    }
  }

  lemma EntryReadsBack<T>(s: seq<T>, k: nat, blank: seq<T>, write: T -> Value, read: Value -> Option<T>)
    requires 0 < k <= |s| == |blank| && read(write(s[k - 1])) == Some(s[k - 1])
    ensures EntryRead(FirstOf(s, k - 1, blank), Entry(Some(k), write(s[k - 1])), read) == FirstOf(s, k, blank)
  {}

  lemma FirstSkips<T>(s: seq<T>, k: nat, none: T, blank: seq<T>)
    requires 0 < k <= |s| == |blank| && s[k - 1] == none == blank[k - 1]
    ensures FirstOf(s, k, blank) == FirstOf(s, k - 1, blank)
  {}

  lemma NoneFirst<T>(s: seq<T>, blank: seq<T>)
    requires |s| == |blank|
    ensures FirstOf(s, 0, blank) == blank
  {}

  /** The addresses come back whenever no device is in two slots, whatever the rest holds. */
  lemma SlotsReadBack(t: Table, n: nat)
    requires Sized(t, n) && OneSlotEach(t.slots)
    ensures Parsed(Written(t), n).slots == t.slots
  {
    RecordsReadBack(t.slots, n);
    assert t.slots[..n] == t.slots == FirstOf(t.slots, n, Empty(n));
  }

  lemma OffsetsReadBack(s: seq<int>, n: nat)
    requires |s| == n && Offsets(s)
    ensures EntriesRead(Blank(n).offsets, Listed(s, 0, OffsetValue), OffsetOf) == s
  {
    forall i | 0 <= i < n ensures OffsetOf(OffsetValue(s[i])) == Some(s[i]) {
      TenthsReadBack(s[i]);
    }
    EntriesReadBack(s, n, 0, Blank(n).offsets, OffsetValue, OffsetOf);
    assert s[..n] == s == FirstOf(s, n, Blank(n).offsets);
  }

  lemma LabelsReadBack(s: seq<seq<Byte>>, n: nat)
    requires |s| == n && Labels(s)
    ensures EntriesRead(Blank(n).labels, Listed(s, [], LabelValue), LabelOf) == s
  {
    forall i | 0 <= i < n && s[i] != [] ensures LabelOf(LabelValue(s[i])) == Some(s[i]) {
      assert Label(s[i]);
    }
    EntriesReadBack(s, n, [], Blank(n).labels, LabelValue, LabelOf);
    assert s[..n] == s == FirstOf(s, n, Blank(n).labels);
  }

  /** A table comes back from its file, addresses, offsets and labels, exactly when it is sound. */
  lemma FileRoundTrips(t: Table, n: nat)
    requires Sized(t, n)
    ensures Parsed(Written(t), n) == t <==> Sound(t)
  {
    hide OneSlotEach, Offsets, Labels, RecordsRead, EntriesRead, Listed;
    ParsedIsSound(Written(t), n);
    if Sound(t) {
      SlotsReadBack(t, n);
      OffsetsReadBack(t.offsets, n);
      LabelsReadBack(t.labels, n);
    }
  }

  // --- The loops ---

  method ReadDigits(s: seq<Byte>) returns (value: Option<nat>)
    ensures value == if |s| <= 16 then HexValue(s) else None
  {
    var read, i := 0, 0;
    while i < |s|
      invariant i <= |s| && i <= 16 && HexValue(s[..i]) == Some(read)
    {
      assert s[..i + 1][..i] == s[..i];
      var nibble := Nibble(s[i]);
      if nibble.None? {
        NoneAfter(s, i);
        return None;
      }
      if i == 16 {
        return None;
      }
      read := 16 * read + nibble.value;
      i := i + 1;
    }
    assert s[..|s|] == s;
    return Some(read);
  }

  method ReadAddress(text: seq<Byte>) returns (address: Option<Address>)
    ensures address == ParsedAddress(text)
  {
    hide HexValue, Pow16, CString;
    var s := CString(text);
    if |s| < 2 || s[0] != 0x30 || (s[1] != 0x78 && s[1] != 0x58) {
      return None;
    }
    var value := ReadDigits(s[2..]);
    if |s| == 2 || value.None? || value.value == 0 {
      return None;
    }
    SixteenDigits();
    MoreDigits(|s| - 2, 16);
    return value;
  }

  /** One character that is no digit, and the text is no number. */
  lemma {:induction false} NoneAfter(s: seq<Byte>, i: nat)
    requires i < |s| && Nibble(s[i]).None?
    ensures HexValue(s).None?
  {
    var n := |s| - 1;
    if i < n {
      NoneAfter(s[..n], i);
    }
  }

  class SlotFile {
    var table: seq<Address>
    var offsets: seq<int>
    var labels: seq<seq<Byte>>

    function View(): Table
      reads this
    {
      Table(table, offsets, labels)
    }

    constructor (slots: nat)
      ensures View() == Blank(slots)
    {
      table := Empty(slots);
      offsets := Blank(slots).offsets;
      labels := Blank(slots).labels;
    }

    method Reset()
      modifies this
      ensures View() == Blank(|old(table)|)
    {
      var blank := Blank(|table|);
      table, offsets, labels := blank.slots, blank.offsets, blank.labels;
    }

    method ParseRecords(records: seq<Entry>)
      modifies this`table
      ensures table == RecordsRead(records, |old(table)|)
    {
      var slots := |table|;
      table := Empty(slots);
      for i := 0 to |records|
        invariant table == RecordsRead(records[..i], slots)
      {
        assert records[..i + 1][..i] == records[..i];
        var record := records[i];
        if record.slot.None? || record.slot.value < 1 {
          continue;
        }
        if record.slot.value > |table| {
          continue;
        }
        if !record.value.Text? {
          continue;
        }
        var address := ReadAddress(record.value.text);
        if address.None? {
          continue;
        }
        table := Without(table, address.value)[record.slot.value - 1 := address.value];
      }
      assert records[..|records|] == records;
    }

    method ParseOffsets(entries: seq<Entry>)
      modifies this`offsets
      ensures offsets == EntriesRead(Blank(|old(offsets)|).offsets, entries, OffsetOf)
    {
      ghost var blank := Blank(|offsets|).offsets;
      offsets := seq(|offsets|, _ => 0);
      for i := 0 to |entries|
        invariant offsets == EntriesRead(blank, entries[..i], OffsetOf)
      {
        assert entries[..i + 1][..i] == entries[..i];
        var entry := entries[i];
        if entry.slot.None? || entry.slot.value < 1 {
          continue;
        }
        if entry.slot.value > |offsets| {
          continue;
        }
        if !entry.value.Number? || OffsetTenths(entry.value.number).None? {
          continue;
        }
        offsets := offsets[entry.slot.value - 1 := OffsetTenths(entry.value.number).value];
      }
      assert entries[..|entries|] == entries;
    }

    method ParseLabels(entries: seq<Entry>)
      modifies this`labels
      ensures labels == EntriesRead(Blank(|old(labels)|).labels, entries, LabelOf)
    {
      ghost var blank := Blank(|labels|).labels;
      labels := seq(|labels|, _ => []);
      for i := 0 to |entries|
        invariant labels == EntriesRead(blank, entries[..i], LabelOf)
      {
        assert entries[..i + 1][..i] == entries[..i];
        var entry := entries[i];
        if entry.slot.None? || entry.slot.value < 1 {
          continue;
        }
        if entry.slot.value > |labels| {
          continue;
        }
        if !entry.value.Text? {
          continue;
        }
        var ok, name := PanelText.ParseLabelBytes(entry.value.text, []);
        if !ok {
          continue;
        }
        labels := labels[entry.slot.value - 1 := name];
      }
      assert entries[..|entries|] == entries;
    }

    /** The table, offsets and labels of a file, whatever they held before. */
    method ParseJson(root: Root)
      requires |table| == |offsets| == |labels|
      modifies this
      ensures View() == Parsed(root, |old(table)|)
    {
      ParseRecords(root.records);
      ParseOffsets(root.offsets);
      ParseLabels(root.labels);
    }

    method WriteJson() returns (root: Root)
      ensures root == Written(View())
    {
      var records := ListOf(table, 0, AddressValue);
      var tenths := ListOf(offsets, 0, OffsetValue);
      var names := ListOf(labels, [], LabelValue);
      return Root(records, tenths, names);
    }
  }

  method ListOf<T(==)>(s: seq<T>, none: T, write: T -> Value) returns (entries: seq<Entry>)
    ensures entries == Listed(s, none, write)
  {
    entries := [];
    for slot := 0 to |s|
      invariant entries == Listed(s[..slot], none, write)
    {
      assert s[..slot + 1][..slot] == s[..slot];
      if s[slot] == none {
        continue;
      }
      entries := entries + [Entry(Some(slot + 1), write(s[slot]))];
    }
    assert s[..|s|] == s;
  }
}
