/** The slots thermometers stick to (components/dallas_scan/dallas_scan.cpp): which address is read as
    which sensor, with its offset and label, kept in a file across boots. Which addresses are
    thermometers, and valid, is given. */
module DallasSlots {
  import opened Options
  import opened SlotFiles
  import opened Utf8

  // --- Listed sensors ---

  datatype Pin = Pin(slot: nat, address: Address)

  /** Slots given to sensors of the configuration, those with an address of their own, and both. */
  datatype Listing = Listing(given: seq<bool>, pinned: seq<bool>, pins: seq<Pin>)

  predicate Lists(l: Listing, slot: nat) {
    exists i :: 0 <= i < |l.pins| && l.pins[i].slot == slot
  }

  predicate Owns(l: Listing, address: Address) {
    exists i :: 0 <= i < |l.pins| && l.pins[i].address == address
  }

  /** What the configuration gives: each listed sensor a slot and an address of its own. */
  predicate Fits(l: Listing, n: nat) {
    && |l.given| == |l.pinned| == n
    && (forall i :: 0 <= i < |l.pins| ==> l.pins[i].slot < n && l.pins[i].address != 0)
    && (forall i, j :: 0 <= i < j < |l.pins| ==>
          l.pins[i].slot != l.pins[j].slot && l.pins[i].address != l.pins[j].address)
    && (forall i :: 0 <= i < n ==> (l.pinned[i] <==> l.given[i] || Lists(l, i)))
  }

  // --- Binding the bus ---

  function GivenCleared(l: Listing, s: seq<Address>): (r: seq<Address>)
    requires |l.given| == |s|
    ensures |r| == |s| && forall i :: 0 <= i < |s| ==> r[i] == if l.given[i] then 0 else s[i]
  {
    seq(|s|, i requires 0 <= i < |s| => if l.given[i] then 0 else s[i])
  }

  function PinnedIn(s: seq<Address>, pins: seq<Pin>): (r: seq<Address>)
    requires forall i :: 0 <= i < |pins| ==> pins[i].slot < |s|
    ensures |r| == |s|
  {
    if pins == [] then s
    else
      var last := pins[|pins| - 1];
      Placed(PinnedIn(s, pins[..|pins| - 1]), last.slot, last.address)
  }

  predicate Free(l: Listing, s: seq<Address>, i: nat)
    requires |l.given| == |s| && i < |s|
  {
    s[i] == 0 && !l.given[i]
  }

  /** The lowest free slot from `i` on, or past the end. */
  function FreeFrom(l: Listing, s: seq<Address>, i: nat): (k: nat)
    requires |l.given| == |s| && i <= |s|
    ensures i <= k <= |s| && (k < |s| ==> Free(l, s, k))
    ensures forall j :: i <= j < k ==> !Free(l, s, j)
    decreases |s| - i
  {
    if i == |s| || Free(l, s, i) then i else FreeFrom(l, s, i + 1)
  }

  type Family = Address -> bool

  function Taken(l: Listing, s: seq<Address>, device: Address, thermometer: Family): (r: seq<Address>)
    requires |l.given| == |s|
    ensures |r| == |s|
  {
    var k := FreeFrom(l, s, 0);
    if !thermometer(device) || device in s || k == |s| then s else s[k := device]
  }

  function Scanned(l: Listing, s: seq<Address>, devices: seq<Address>, thermometer: Family): (r: seq<Address>)
    requires |l.given| == |s|
    ensures |r| == |s|
  {
    if devices == [] then s
    else Taken(l, Scanned(l, s, devices[..|devices| - 1], thermometer), devices[|devices| - 1], thermometer)
  }

  function Bound(l: Listing, s: seq<Address>, devices: seq<Address>, thermometer: Family): (r: seq<Address>)
    requires Fits(l, |s|)
    ensures |r| == |s|
  {
    Scanned(l, PinnedIn(GivenCleared(l, s), l.pins), devices, thermometer)
  }

  predicate PinsHold(s: seq<Address>, pins: seq<Pin>) {
    forall i :: 0 <= i < |pins| ==> pins[i].slot < |s| && s[pins[i].slot] == pins[i].address
  }

  lemma {:induction false} PinningMeans(s: seq<Address>, pins: seq<Pin>)
    requires forall i :: 0 <= i < |pins| ==> pins[i].slot < |s| && pins[i].address != 0
    requires forall i, j :: 0 <= i < j < |pins| ==>
               pins[i].slot != pins[j].slot && pins[i].address != pins[j].address
    requires OneSlotEach(s)
    ensures var r := PinnedIn(s, pins);
            && OneSlotEach(r) && PinsHold(r, pins)
            && forall i :: 0 <= i < |s| && (forall k :: 0 <= k < |pins| ==> pins[k].slot != i) ==>
                 r[i] == if exists k :: 0 <= k < |pins| && pins[k].address == s[i] then 0 else s[i]
    decreases |pins|
  {
    if pins != [] {
      var n := |pins| - 1;
      var last := pins[n];
      PinningMeans(s, pins[..n]);
      var before := PinnedIn(s, pins[..n]);
      PlacedStaysDistinct(before, last.slot, last.address);
      PinStep(s, before, pins);
    }
  }

  lemma PinStep(s: seq<Address>, before: seq<Address>, pins: seq<Pin>)
    requires pins != [] && |before| == |s|
    requires forall i :: 0 <= i < |pins| ==> pins[i].slot < |s| && pins[i].address != 0
    requires forall i, j :: 0 <= i < j < |pins| ==>
               pins[i].slot != pins[j].slot && pins[i].address != pins[j].address
    requires var init := pins[..|pins| - 1];
             && PinsHold(before, init)
             && forall i :: 0 <= i < |s| && (forall k :: 0 <= k < |init| ==> init[k].slot != i) ==>
                  before[i] == if exists k :: 0 <= k < |init| && init[k].address == s[i] then 0 else s[i]
    ensures var last := pins[|pins| - 1];
            var r := Placed(before, last.slot, last.address);
            && PinsHold(r, pins)
            && forall i :: 0 <= i < |s| && (forall k :: 0 <= k < |pins| ==> pins[k].slot != i) ==>
                 r[i] == if exists k :: 0 <= k < |pins| && pins[k].address == s[i] then 0 else s[i]
  {
    var n := |pins| - 1;
    var init := pins[..n];
    var last := pins[n];
    var r := Placed(before, last.slot, last.address);
    forall i | 0 <= i < n ensures r[pins[i].slot] == pins[i].address {
      assert init[i] == pins[i];
    }
    forall i | 0 <= i < |s| && (forall k :: 0 <= k < |pins| ==> pins[k].slot != i)
      ensures r[i] == if exists k :: 0 <= k < |pins| && pins[k].address == s[i] then 0 else s[i]
    {
      assert forall k :: 0 <= k < |init| ==> init[k] == pins[k];
      assert pins[n].slot != i;
      if exists k :: 0 <= k < |pins| && pins[k].address == s[i] {
        var k :| 0 <= k < |pins| && pins[k].address == s[i];
        assert k < n ==> init[k].address == s[i];
      }
    }
  }

  /** What scanning devices does: what is there stays, given slots get nothing, and a thermometer is
      left out only when no slot is free. */
  predicate ScanMeans(l: Listing, s: seq<Address>, r: seq<Address>, devices: seq<Address>, thermometer: Family) {
    && |l.given| == |s| == |r|
    && (OneSlotEach(s) ==> OneSlotEach(r))
    && (forall i :: 0 <= i < |s| && !Free(l, s, i) ==> r[i] == s[i])
    && (forall d :: d in devices && thermometer(d) ==> d in r || forall i :: 0 <= i < |r| ==> !Free(l, r, i))
    && (forall i :: 0 <= i < |s| && r[i] != s[i] ==> r[i] in devices && thermometer(r[i]))
  }

  lemma {:induction false} ScanningMeans(l: Listing, s: seq<Address>, devices: seq<Address>, thermometer: Family)
    requires !thermometer(0) && |l.given| == |s|
    ensures ScanMeans(l, s, Scanned(l, s, devices, thermometer), devices, thermometer)
    decreases |devices|
  {
    if devices != [] {
      var n := |devices| - 1;
      ScanningMeans(l, s, devices[..n], thermometer);
      ScanStep(l, s, Scanned(l, s, devices[..n], thermometer), devices, thermometer);
    }
  }

  lemma ScanStep(l: Listing, s: seq<Address>, before: seq<Address>, devices: seq<Address>, thermometer: Family)
    requires !thermometer(0) && devices != [] && ScanMeans(l, s, before, devices[..|devices| - 1], thermometer)
    ensures ScanMeans(l, s, Taken(l, before, devices[|devices| - 1], thermometer), devices, thermometer)
  {
    var n := |devices| - 1;
    var device := devices[n];
    var k := FreeFrom(l, before, 0);
    var r := Taken(l, before, device, thermometer);
    forall d | d in devices && thermometer(d)
      ensures d in r || forall i :: 0 <= i < |r| ==> !Free(l, r, i)
    {
      assert d in devices[..n] || d == device;
      if d in before {
        var i :| 0 <= i < |before| && before[i] == d;
        assert r[i] == d;
      } else if d == device && k < |before| {
        assert r[k] == d;
      }
    }
  }

  // --- The sticky table ---

  /** Listed sensors hold their slots; a slot given to one without an address of its own is empty. */
  predicate KeepsListing(l: Listing, s: seq<Address>) {
    && Fits(l, |s|) && PinsHold(s, l.pins)
    && forall i :: 0 <= i < |s| && l.given[i] && !Lists(l, i) ==> s[i] == 0
  }

  /** The table as listed sensors leave it, before the bus is scanned. */
  lemma ListedFirst(l: Listing, s: seq<Address>)
    requires Fits(l, |s|) && OneSlotEach(s)
    ensures var r := PinnedIn(GivenCleared(l, s), l.pins);
            && OneSlotEach(r) && KeepsListing(l, r)
            && (forall i :: 0 <= i < |s| && s[i] != 0 && !l.pinned[i] && !Owns(l, s[i]) ==> r[i] == s[i])
  {
    var cleared := GivenCleared(l, s);
    PinningMeans(cleared, l.pins);
    var r := PinnedIn(cleared, l.pins);
    forall i | 0 <= i < |s| && !Lists(l, i) ensures r[i] == if Owns(l, cleared[i]) then 0 else cleared[i] {}
  }

  lemma ScannedKeepsListing(l: Listing, s: seq<Address>, r: seq<Address>, devices: seq<Address>, thermometer: Family)
    requires KeepsListing(l, s) && ScanMeans(l, s, r, devices, thermometer)
    ensures KeepsListing(l, r)
  {
    forall i | 0 <= i < |l.pins| ensures l.pins[i].slot < |r| && r[l.pins[i].slot] == l.pins[i].address {
      assert s[l.pins[i].slot] == l.pins[i].address;
      assert !Free(l, s, l.pins[i].slot);
    }
    forall i | 0 <= i < |r| && l.given[i] && !Lists(l, i) ensures r[i] == 0 {
      assert !Free(l, s, i);
    }
  }

  /** One boot over any bus: no address in two slots; listed sensors keep theirs; a device the table
      knows stays in its slot, unless the slot is listed or the device is; and a thermometer is left
      out only when no slot is free. */
  lemma BootSticks(l: Listing, s: seq<Address>, devices: seq<Address>, thermometer: Family)
    requires Fits(l, |s|) && OneSlotEach(s) && !thermometer(0)
    ensures var r := Bound(l, s, devices, thermometer);
            && OneSlotEach(r) && KeepsListing(l, r)
            && (forall i :: 0 <= i < |s| && s[i] != 0 && !l.pinned[i] && !Owns(l, s[i]) ==> r[i] == s[i])
            && (forall d :: d in devices && thermometer(d) ==>
                  d in r || forall i :: 0 <= i < |r| ==> !Free(l, r, i))
  {
    hide KeepsListing, OneSlotEach, Owns, PinnedIn, Scanned;
    var listed := PinnedIn(GivenCleared(l, s), l.pins);
    ListedFirst(l, s);
    ScanningMeans(l, listed, devices, thermometer);
    ScannedKeepsListing(l, listed, Scanned(l, listed, devices, thermometer), devices, thermometer);
  }

  // --- Editing ---

  datatype AssignCheck = Fine | BadSlot | BadAddress | ListedSlot | ListedAddress | Unchanged

  function CheckAssign(l: Listing, s: seq<Address>, slot: nat, address: Address, valid: Family): AssignCheck
    requires |l.pinned| == |s|
  {
    if slot >= |s| then BadSlot
    else if !valid(address) then BadAddress
    else if l.pinned[slot] then ListedSlot
    else if Owns(l, address) then ListedAddress
    else if s[slot] == address then Unchanged
    else Fine
  }

  function IndexOf(s: seq<Address>, address: Address): (i: nat)
    ensures i <= |s| && (i < |s| ==> s[i] == address) && (i == |s| ==> address !in s)
  {
    if s == [] || s[0] == address then 0 else 1 + IndexOf(s[1..], address)
  }

  /** The device takes the slot, and where it was takes what the slot held. */
  function Assigned(s: seq<Address>, slot: nat, address: Address): (r: seq<Address>)
    requires slot < |s|
    ensures |r| == |s|
  {
    var held := IndexOf(s, address);
    (if held < |s| then s[held := s[slot]] else s)[slot := address]
  }

  lemma PinnedHolds(l: Listing, s: seq<Address>, i: nat)
    requires KeepsListing(l, s) && i < |s| && l.pinned[i]
    ensures s[i] == 0 || Owns(l, s[i])
  {
    if Lists(l, i) {
      var k :| 0 <= k < |l.pins| && l.pins[k].slot == i;
      assert s[i] == l.pins[k].address;
    }
  }

  lemma AssigningMeans(l: Listing, s: seq<Address>, slot: nat, address: Address, valid: Family)
    requires OneSlotEach(s) && KeepsListing(l, s) && !valid(0)
    requires CheckAssign(l, s, slot, address, valid) == Fine
    ensures var r := Assigned(s, slot, address);
            && OneSlotEach(r) && KeepsListing(l, r) && r[slot] == address
            && (address in s ==> multiset(r) == multiset(s))
            && forall i :: 0 <= i < |s| && i != slot && s[i] != address ==> r[i] == s[i]
  {
    var held := IndexOf(s, address);
    var r := Assigned(s, slot, address);
    assert !l.pinned[slot];
    if held < |s| {
      forall i: nat | i < |s| && l.pinned[i] ensures s[i] == 0 || Owns(l, s[i]) {
        PinnedHolds(l, s, i);
      }
      SwapKeeps(s, held, slot);
    }
    forall i | 0 <= i < |l.pins| ensures r[l.pins[i].slot] == l.pins[i].address {
      assert Lists(l, l.pins[i].slot) && l.pinned[l.pins[i].slot];
    }
  }

  lemma SwapKeeps(s: seq<Address>, i: nat, j: nat)
    requires i < |s| && j < |s|
    ensures multiset(s[i := s[j]][j := s[i]]) == multiset(s)
  {}

  predicate CanForget(l: Listing, t: Table, slot: int)
    requires |l.pinned| == |t.slots| == |t.offsets| == |t.labels|
  {
    exists i :: 0 <= i < |t.slots| && (slot < 0 || slot == i) && !l.pinned[i] &&
                (t.slots[i] != 0 || (slot < 0 && (t.offsets[i] != 0 || t.labels[i] != [])))
  }

  // --- Memory and file, over boots and edits ---

  function Forgotten(l: Listing, t: Table, slot: int): (r: Table)
    requires Sized(t, |l.pinned|)
    ensures Sized(r, |l.pinned|)
  {
    var n := |l.pinned|;
    Table(seq(n, i requires 0 <= i < n => if (slot < 0 || slot == i) && !l.pinned[i] then 0 else t.slots[i]),
          seq(n, i requires 0 <= i < n => if slot < 0 && !l.pinned[i] then 0 else t.offsets[i]),
          seq(n, i requires 0 <= i < n => if slot < 0 && !l.pinned[i] then [] else t.labels[i]))
  }

  /** The file, what the component holds in memory, and what this boot bound; `readable` is whether the
      file loaded. */
  datatype Device = Device(file: Root, memory: Table, booted: seq<Address>, readable: bool)

  datatype Event =
    | Boot(devices: seq<Address>, loads: bool, saves: bool)
    | Assign(slot: nat, address: Address, canSave: bool, written: bool)
    | Forget(which: int, canSave: bool, written: bool)
    | SetOffset(slot: nat, celsius: real, canSave: bool, written: bool)
    | SetLabel(slot: nat, text: seq<Byte>, canSave: bool, written: bool)
    | HandEdit(root: Root)

  function Valid(s: seq<Address>, valid: Family): (r: seq<Address>)
    ensures |r| == |s| && forall i :: 0 <= i < |s| ==> r[i] == if valid(s[i]) then s[i] else 0
  {
    seq(|s|, i requires 0 <= i < |s| => if valid(s[i]) then s[i] else 0)
  }

  /** The offsets and labels of listed slots go. */
  function Unlabelled(l: Listing, t: Table): (r: Table)
    requires Sized(t, |l.pinned|)
    ensures Sized(r, |l.pinned|) && r.slots == t.slots
  {
    var n := |l.pinned|;
    Table(t.slots, seq(n, i requires 0 <= i < n => if l.pinned[i] then 0 else t.offsets[i]),
          seq(n, i requires 0 <= i < n => if l.pinned[i] then [] else t.labels[i]))
  }

  /** The table a boot starts from. */
  function Loaded(l: Listing, file: Root, loads: bool, valid: Family): (t: Table)
    requires |l.pinned| == |l.given|
    ensures Sized(t, |l.given|)
  {
    var n := |l.given|;
    var t := if loads then Parsed(file, n) else Blank(n);
    Unlabelled(l, t.(slots := Valid(t.slots, valid)))
  }

  function CheckedOffset(l: Listing, d: Device, slot: nat, celsius: real): Option<int>
    requires Sized(d.memory, |l.pinned|)
  {
    if slot < |l.pinned| && !l.pinned[slot] then OffsetTenths(celsius) else None
  }

  function CheckedLabel(l: Listing, d: Device, slot: nat, text: seq<Byte>): Option<seq<Byte>>
    requires Sized(d.memory, |l.pinned|)
  {
    if slot < |l.pinned| && !l.pinned[slot] then LabelOf(Text(text)) else None
  }

  /** An edit is kept once it is written; before that memory and file are as they were. */
  function Kept(d: Device, memory: Table, done: bool): Device {
    if done then d.(file := Written(memory), memory := memory) else d
  }

  function After(l: Listing, d: Device, e: Event, thermometer: Family, valid: Family): (r: Device)
    requires Fits(l, |l.given|) && Sized(d.memory, |l.given|)
    ensures Sized(r.memory, |l.given|)
  {
    match e
    case Boot(devices, loads, saves) =>
      var loaded := Loaded(l, d.file, loads, valid);
      var memory := loaded.(slots := Bound(l, loaded.slots, devices, thermometer));
      Device(if memory.slots != loaded.slots && loads && saves then Written(memory) else d.file,
             memory, memory.slots, loads)
    case Assign(slot, address, canSave, written) =>
      if CheckAssign(l, d.memory.slots, slot, address, valid) == Fine then
        Kept(d, d.memory.(slots := Assigned(d.memory.slots, slot, address)), canSave && written)
      else d
    case Forget(which, canSave, written) =>
      Kept(d, Forgotten(l, d.memory, which), canSave && CanForget(l, d.memory, which) && written)
    case SetOffset(slot, celsius, canSave, written) =>
      var tenths := CheckedOffset(l, d, slot, celsius);
      if tenths.Some? && d.memory.offsets[slot] != tenths.value then
        Kept(d, d.memory.(offsets := d.memory.offsets[slot := tenths.value]), canSave && d.readable && written)
      else d
    case SetLabel(slot, text, canSave, written) =>
      var name := CheckedLabel(l, d, slot, text);
      if name.Some? && d.memory.labels[slot] != name.value then
        Kept(d, d.memory.(labels := d.memory.labels[slot := name.value]), canSave && d.readable && written)
      else d
    case HandEdit(root) => d.(file := root)
  }

  /** Listed slots have no offset and no label here. */
  predicate Plain(l: Listing, t: Table) {
    Sized(t, |l.pinned|) && forall i :: 0 <= i < |l.pinned| && l.pinned[i] ==> t.offsets[i] == 0 && t.labels[i] == []
  }

  /** What holds of the table from the first boot on. */
  predicate Steady(l: Listing, t: Table) {
    Sized(t, |l.given|) && Sound(t) && KeepsListing(l, t.slots) && Plain(l, t)
  }

  lemma ForgettingMeans(l: Listing, t: Table, which: int)
    requires Steady(l, t)
    ensures var r := Forgotten(l, t, which);
            && Steady(l, r)
            && forall i :: 0 <= i < |t.slots| ==>
                 if l.pinned[i] || (which >= 0 && which != i) then RowAt(r, i) == RowAt(t, i)
                 else if which >= 0 then RowAt(r, i) == RowAt(t, i).(address := 0)
                 else RowAt(r, i) == Row(0, 0, [])
  {
    var r := Forgotten(l, t, which);
    forall i | 0 <= i < |l.pins| ensures r.slots[l.pins[i].slot] == l.pins[i].address {
      assert Lists(l, l.pins[i].slot) && l.pinned[l.pins[i].slot];
    }
  }

  lemma LoadedIsSound(l: Listing, file: Root, loads: bool, valid: Family)
    requires |l.pinned| == |l.given|
    ensures var t := Loaded(l, file, loads, valid);
            Sound(t) && Plain(l, t)
  {
    ParsedIsSound(file, |l.given|);
    hide Parsed;
  }

  lemma LabelChecks(text: seq<Byte>)
    ensures LabelOf(Text(text)).Some? ==> Label(LabelOf(Text(text)).value)
  {
    if LabelOf(Text(text)).Some? {
      KeptLabelStays(Text(text));
    }
  }

  lemma StaysSteady(l: Listing, d: Device, e: Event, thermometer: Family, valid: Family)
    requires Fits(l, |l.given|) && !valid(0) && !thermometer(0) && Sized(d.memory, |l.given|)
    requires e.Boot? || Steady(l, d.memory)
    ensures Steady(l, After(l, d, e, thermometer, valid).memory)
  {
    assert |l.pinned| == |l.given|;
    hide Bound, Loaded, Assigned, Written, Forgotten, CanForget, OneSlotEach, KeepsListing, Fits, CheckAssign, Label,
         LabelOf;
    match e
    case Boot(devices, loads, saves) =>
      LoadedIsSound(l, d.file, loads, valid);
      BootSticks(l, Loaded(l, d.file, loads, valid).slots, devices, thermometer);
    case Assign(slot, address, canSave, written) =>
      if CheckAssign(l, d.memory.slots, slot, address, valid) == Fine {
        AssigningMeans(l, d.memory.slots, slot, address, valid);
      }
    case Forget(which, canSave, written) => ForgettingMeans(l, d.memory, which);
    case SetOffset(slot, celsius, canSave, written) =>
    case SetLabel(slot, text, canSave, written) => LabelChecks(text);
    case HandEdit(root) =>
  }

  function Run(l: Listing, d: Device, es: seq<Event>, thermometer: Family, valid: Family): (r: Device)
    requires Fits(l, |l.given|) && Sized(d.memory, |l.given|)
    ensures Sized(r.memory, |l.given|)
  {
    if es == [] then d
    else After(l, Run(l, d, es[..|es| - 1], thermometer, valid), es[|es| - 1], thermometer, valid)
  }

  /** From the first boot on, over any sequence of boots with any bus, failed loads and writes, edits, and
      files edited by hand: no address in two slots, listed sensors in theirs, and a table that comes back
      from its file as it is. */
  lemma {:induction false} EveryRunIsSteady(l: Listing, d: Device, es: seq<Event>, thermometer: Family, valid: Family)
    requires Fits(l, |l.given|) && !valid(0) && !thermometer(0) && Sized(d.memory, |l.given|) && es != [] && es[0].Boot?
    ensures var t := Run(l, d, es, thermometer, valid).memory;
            Steady(l, t) && Parsed(Written(t), |l.given|) == t
    decreases |es|
  {
    hide Steady, After;
    var n := |es| - 1;
    var before := Run(l, d, es[..n], thermometer, valid);
    if n > 0 {
      EveryRunIsSteady(l, d, es[..n], thermometer, valid);
    }
    StaysSteady(l, before, es[n], thermometer, valid);
    SteadyComesBack(l, After(l, before, es[n], thermometer, valid).memory);
  }

  lemma SteadyComesBack(l: Listing, t: Table)
    requires Steady(l, t)
    ensures Parsed(Written(t), |l.given|) == t
  {
    FileRoundTrips(t, |l.given|);
  }

  // --- A device sticks ---

  /** What a slot holds: whose readings, moved by how much, under which name. */
  datatype Row = Row(address: Address, offset: int, name: seq<Byte>)

  function RowAt(t: Table, slot: nat): Row
    requires slot < |t.slots| && Sized(t, |t.slots|)
  {
    Row(t.slots[slot], t.offsets[slot], t.labels[slot])
  }

  /** The slot's row is in the file, and in memory unless the file could not be read. */
  predicate Filed(l: Listing, d: Device, slot: nat, row: Row) {
    && Sized(d.memory, |l.given|) && slot < |l.given|
    && RowAt(Parsed(d.file, |l.given|), slot) == row
    && (d.readable ==> RowAt(d.memory, slot) == row)
  }

  /** Whether the file was read at the last boot of `es`. */
  function ReadAfter(readable: bool, es: seq<Event>): bool {
    if es == [] then readable
    else if es[|es| - 1].Boot? then es[|es| - 1].loads
    else ReadAfter(readable, es[..|es| - 1])
  }

  /** Any boot at all; a file edited by hand that still has the row; any edit that fails; and any edit of
      another slot and device made while the file could be read. */
  predicate LeavesAlone(l: Listing, e: Event, readable: bool, slot: nat, row: Row)
    requires slot < |l.given|
  {
    match e
    case Boot(_, _, _) => true
    case Assign(s, a, canSave, written) => canSave && written ==> readable && s != slot && a != row.address
    case Forget(which, canSave, written) => canSave && written ==> readable && which >= 0 && which != slot
    case SetOffset(s, _, canSave, written) => canSave && written ==> s != slot
    case SetLabel(s, _, canSave, written) => canSave && written ==> s != slot
    case HandEdit(root) => RowAt(Parsed(root, |l.given|), slot) == row
  }

  predicate AllLeaveAlone(l: Listing, es: seq<Event>, readable: bool, slot: nat, row: Row)
    requires slot < |l.given|
  {
    es != [] ==>
      && AllLeaveAlone(l, es[..|es| - 1], readable, slot, row)
      && LeavesAlone(l, es[|es| - 1], ReadAfter(readable, es[..|es| - 1]), slot, row)
  }

  /** A slot and a device that are the table's to give. */
  predicate Sticky(l: Listing, slot: nat, row: Row, valid: Family) {
    slot < |l.pinned| && !l.pinned[slot] && valid(row.address) && !Owns(l, row.address)
  }

  lemma RowLoads(l: Listing, file: Root, slot: nat, row: Row, valid: Family)
    requires |l.given| == |l.pinned| && Sticky(l, slot, row, valid)
    requires RowAt(Parsed(file, |l.given|), slot) == row
    ensures RowAt(Loaded(l, file, true, valid), slot) == row
  {
    hide Parsed;
  }

  lemma RowBoots(l: Listing, t: Table, devices: seq<Address>, thermometer: Family, slot: nat, row: Row, valid: Family)
    requires Fits(l, |l.given|) && Sized(t, |l.given|) && OneSlotEach(t.slots) && !thermometer(0) && !valid(0)
    requires Sticky(l, slot, row, valid) && RowAt(t, slot) == row
    ensures RowAt(t.(slots := Bound(l, t.slots, devices, thermometer)), slot) == row
  {
    BootSticks(l, t.slots, devices, thermometer);
    hide Bound, KeepsListing, OneSlotEach, Owns;
  }

  lemma EditStays(l: Listing, d: Device, memory: Table, done: bool, slot: nat, row: Row)
    requires Filed(l, d, slot, row) && (done ==> Steady(l, memory) && RowAt(memory, slot) == row)
    ensures Filed(l, Kept(d, memory, done), slot, row)
  {
    hide Steady, Parsed, Written;
    if done {
      SteadyComesBack(l, memory);
      SteadyIsSized(l, memory);
    }
  }

  lemma SteadyIsSized(l: Listing, t: Table)
    requires Steady(l, t)
    ensures Sized(t, |l.given|)
  {}

  lemma BootKeepsFiled(l: Listing, d: Device, e: Event, thermometer: Family, valid: Family, slot: nat, row: Row)
    requires Fits(l, |l.given|) && !valid(0) && !thermometer(0) && Filed(l, d, slot, row)
    requires Sticky(l, slot, row, valid) && e.Boot?
    ensures Filed(l, After(l, d, e, thermometer, valid), slot, row)
  {
    StaysSteady(l, d, e, thermometer, valid);
    var memory := After(l, d, e, thermometer, valid).memory;
    SteadyComesBack(l, memory);
    if e.loads {
      LoadedIsSound(l, d.file, true, valid);
      RowLoads(l, d.file, slot, row, valid);
      RowBoots(l, Loaded(l, d.file, true, valid), e.devices, thermometer, slot, row, valid);
    }
    hide Bound, Loaded, Written, Parsed, OneSlotEach, KeepsListing, Owns, Fits, Plain, Offsets, Labels, Sticky;
  }

  lemma StaysFiled(l: Listing, d: Device, e: Event, thermometer: Family, valid: Family, slot: nat, row: Row)
    requires Fits(l, |l.given|) && !valid(0) && !thermometer(0) && Steady(l, d.memory)
    requires Filed(l, d, slot, row) && Sticky(l, slot, row, valid) && LeavesAlone(l, e, d.readable, slot, row)
    ensures Filed(l, After(l, d, e, thermometer, valid), slot, row)
  {
    StaysSteady(l, d, e, thermometer, valid);
    if e.Boot? {
      BootKeepsFiled(l, d, e, thermometer, valid, slot, row);
    } else if !e.HandEdit? {
      EditKeepsFiled(l, d, e, thermometer, valid, slot, row);
    }
    hide Steady, Bound, Loaded, Written, Parsed, Sticky, Kept;
  }

  lemma EditKeepsFiled(l: Listing, d: Device, e: Event, thermometer: Family, valid: Family, slot: nat, row: Row)
    requires Fits(l, |l.given|) && Steady(l, d.memory) && !valid(0)
    requires Filed(l, d, slot, row) && LeavesAlone(l, e, d.readable, slot, row) && !e.Boot? && !e.HandEdit?
    requires Steady(l, After(l, d, e, thermometer, valid).memory)
    ensures Filed(l, After(l, d, e, thermometer, valid), slot, row)
  {
    var r := After(l, d, e, thermometer, valid);
    if r != d {
      if e.Assign? {
        AssigningMeans(l, d.memory.slots, e.slot, e.address, valid);
      } else if e.Forget? {
        ForgettingMeans(l, d.memory, e.which);
      }
      hide Steady, Assigned, Written, Parsed, OneSlotEach, KeepsListing, CheckAssign, Forgotten, CanForget, LabelOf;
      assert RowAt(r.memory, slot) == row;
      EditStays(l, d, r.memory, true, slot, row);
    }
  }

  /** Over any run of boots, with the file read or not and written or not, of edits of other slots and
      devices, and of files edited by hand that keep its row: a device the file knows stays in the file
      with its offset and label, and it is in its slot whenever the last boot could read the file. Only
      while it could not, an edit that succeeds writes over it. */
  lemma {:induction false} KnownDeviceSticks(
      l: Listing, d: Device, es: seq<Event>, thermometer: Family, valid: Family, slot: nat, row: Row)
    requires Fits(l, |l.given|) && !valid(0) && !thermometer(0) && Steady(l, d.memory)
    requires Filed(l, d, slot, row) && Sticky(l, slot, row, valid)
    requires AllLeaveAlone(l, es, d.readable, slot, row)
    ensures Sized(d.memory, |l.given|)
    ensures var r := Run(l, d, es, thermometer, valid);
            && Steady(l, r.memory) && r.readable == ReadAfter(d.readable, es)
            && Filed(l, r, slot, row)
    decreases |es|
  {
    SteadyIsSized(l, d.memory);
    hide Steady, Filed, LeavesAlone, Fits, Sticky;
    if es != [] {
      var n := |es| - 1;
      var before := Run(l, d, es[..n], thermometer, valid);
      KnownDeviceSticks(l, d, es[..n], thermometer, valid, slot, row);
      StaysFiled(l, before, es[n], thermometer, valid, slot, row);
      StaysSteady(l, before, es[n], thermometer, valid);
      ReadableMeans(l, before, es[n], thermometer, valid);
      hide After;
    }
  }

  lemma ReadableMeans(l: Listing, d: Device, e: Event, thermometer: Family, valid: Family)
    requires Fits(l, |l.given|) && Sized(d.memory, |l.given|)
    ensures After(l, d, e, thermometer, valid).readable == if e.Boot? then e.loads else d.readable
  {
    hide Bound, Loaded, Written, CheckAssign, Assigned, Forgotten, CanForget;
  }
}
