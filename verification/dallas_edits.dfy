/** What an edit of the slot table answers (components/dallas_scan/dallas_scan.cpp): it arrives whole, in memory and
    in the file, or leaves both as they were. */
module DallasEdits {
  import opened SlotFiles
  import opened DallasSlots
  import opened Utf8

  /** The table is the given one, and so is the file, written anew only for a change. */
  predicate Arrives(d: Device, r: Device, memory: Table) {
    && r.memory == memory && r.booted == d.booted && r.readable == d.readable
    && r.file == if memory == d.memory then d.file else Written(memory)
  }

  /** An assign arrives for a slot there is and an address of a family it knows, neither of them listed. */
  lemma AssignAnswers(
    l: Listing, d: Device, slot: nat, address: Address, canSave: bool, written: bool, thermometer: Family,
    valid: Family)
    requires Fits(l, |l.given|) && Steady(l, d.memory) && !valid(0)
    ensures var r := After(l, d, Assign(slot, address, canSave, written), thermometer, valid);
            var slots := d.memory.slots;
            if slot < |slots| && valid(address) && !l.pinned[slot] && !Owns(l, address) && canSave && written then
              && Arrives(d, r, r.memory) && r.memory == d.memory.(slots := r.memory.slots)
              && |r.memory.slots| == |slots| && r.memory.slots[slot] == address
            else r == d
  {
    if CheckAssign(l, d.memory.slots, slot, address, valid) == Fine {
      AssigningMeans(l, d.memory.slots, slot, address, valid);
    }
    hide Written, Sound, KeepsListing, Plain, OneSlotEach, IndexOf;
  }

  /** An offset arrives for a slot that is not listed, near enough to 0, while the file could be read. */
  lemma OffsetAnswers(
    l: Listing, d: Device, slot: nat, celsius: real, canSave: bool, written: bool, thermometer: Family, valid: Family)
    requires Fits(l, |l.given|) && Sized(d.memory, |l.given|)
    ensures var r := After(l, d, SetOffset(slot, celsius, canSave, written), thermometer, valid);
            var tenths := OffsetTenths(celsius);
            if slot < |l.given| && !l.pinned[slot] && tenths.Some? && canSave && d.readable && written then
              Arrives(d, r, d.memory.(offsets := d.memory.offsets[slot := tenths.value]))
            else r == d
  {
    hide Written, OffsetTenths;
  }

  /** A label likewise. */
  lemma LabelAnswers(
    l: Listing, d: Device, slot: nat, text: seq<Byte>, canSave: bool, written: bool, thermometer: Family,
    valid: Family)
    requires Fits(l, |l.given|) && Sized(d.memory, |l.given|)
    ensures var r := After(l, d, SetLabel(slot, text, canSave, written), thermometer, valid);
            var name := LabelOf(Text(text));
            if slot < |l.given| && !l.pinned[slot] && name.Some? && canSave && d.readable && written then
              Arrives(d, r, d.memory.(labels := d.memory.labels[slot := name.value]))
            else r == d
  {
    hide Written, LabelOf;
  }

  /** There is something to forget exactly where forgetting changes something. */
  lemma ForgetChanges(l: Listing, t: Table, which: int)
    requires Sized(t, |l.pinned|)
    ensures CanForget(l, t, which) <==> Forgotten(l, t, which) != t
  {
    var r := Forgotten(l, t, which);
    if forall i :: 0 <= i < |t.slots| ==> r.slots[i] == t.slots[i] && r.offsets[i] == t.offsets[i]
                                          && r.labels[i] == t.labels[i] {
      assert r.slots == t.slots && r.offsets == t.offsets && r.labels == t.labels;
    }
  }

  lemma ForgetAnswers(
    l: Listing, d: Device, which: int, canSave: bool, written: bool, thermometer: Family, valid: Family)
    requires Fits(l, |l.given|) && Sized(d.memory, |l.given|)
    ensures var r := After(l, d, Forget(which, canSave, written), thermometer, valid);
            if canSave && written then Arrives(d, r, Forgotten(l, d.memory, which)) else r == d
  {
    ForgetChanges(l, d.memory, which);
    hide Written, CanForget, Forgotten;
  }
}
