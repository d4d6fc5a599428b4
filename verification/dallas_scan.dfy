/** The component that keeps the slots, in place (components/dallas_scan/dallas_scan.cpp). */
module DallasScans {
  import opened DallasSlots
  import opened Options
  import opened SlotFiles
  import opened Utf8

  class DallasScan {
    const listing: Listing
    const slotFile: SlotFile
    var slots: seq<Address>
    var offsets: seq<int>
    var labels: seq<seq<Byte>>
    var booted: seq<Address>
    var readable: bool
    /** What the slot file holds on storage. */
    var stored: Root

    ghost predicate Valid()
      reads this, slotFile
    {
      Fits(listing, |listing.given|) && Sized(Memory(), |listing.given|) && Sized(slotFile.View(), |listing.given|)
    }

    function Memory(): Table
      reads this
    {
      Table(slots, offsets, labels)
    }

    function View(): Device
      reads this
    {
      Device(stored, Memory(), booted, readable)
    }

    constructor (listing: Listing, stored: Root)
      requires Fits(listing, |listing.given|)
      ensures Valid() && this.listing == listing && this.stored == stored && fresh(slotFile)
    {
      this.listing := listing;
      this.stored := stored;
      slotFile := new SlotFile(|listing.given|);
      slots, offsets, labels := Empty(|listing.given|), seq(|listing.given|, _ => 0), seq(|listing.given|, _ => []);
      booted := [];
      readable := true;
    }

    /** Slots taken by the configuration's sensors hold nothing but their address. */
    method ClearGiven()
      requires Valid()
      modifies this`slots
      ensures Valid() && slots == GivenCleared(listing, old(slots))
    {
      for slot := 0 to |slots|
        invariant |slots| == |old(slots)| == |listing.given|
        invariant forall i :: 0 <= i < |slots| ==>
                    slots[i] == if i < slot && listing.given[i] then 0 else old(slots)[i]
      {
        if listing.given[slot] {
          slots := slots[slot := 0];
        }
      }
    }

    method PlacePins()
      requires Valid()
      modifies this`slots
      ensures Valid() && slots == PinnedIn(old(slots), listing.pins)
    {
      var pins := listing.pins;
      for i := 0 to |pins|
        invariant |slots| == |old(slots)| && slots == PinnedIn(old(slots), pins[..i])
      {
        assert pins[..i + 1][..i] == pins[..i];
        if pins[i].slot < |slots| {
          slots := Without(slots, pins[i].address);
          slots := slots[pins[i].slot := pins[i].address];
        }
      }
      assert pins[..|pins|] == pins;
    }

    method PlaceDevice(device: Address, thermometer: Family)
      requires Valid()
      modifies this`slots
      ensures Valid() && slots == Taken(listing, old(slots), device, thermometer)
    {
      if !thermometer(device) {
        return;
      }
      if device in slots {
        return;
      }
      var slot := 0;
      while slot < |slots| && (slots[slot] != 0 || listing.given[slot])
        invariant slot <= |slots| && FreeFrom(listing, slots, 0) == FreeFrom(listing, slots, slot)
      {
        slot := slot + 1;
      }
      if slot == |slots| {
        return;
      }
      slots := slots[slot := device];
    }

    /** What memory holds goes through the slot file to storage, where it may not arrive. */
    method SaveTable(canSave: bool) returns (saved: bool)
      requires Valid()
      modifies this`stored, slotFile
      ensures Valid() && (saved ==> canSave)
      ensures stored == if saved then Written(Memory()) else old(stored)
    {
      if !canSave {
        return false;
      }
      slotFile.table, slotFile.offsets, slotFile.labels := slots, offsets, labels;
      var root := slotFile.WriteJson();
      saved := *;
      if saved {
        stored := root;
      }
    }

    /** Binds and stores: the file changes only with the table, and only if it could be read. */
    method BindDevices(devices: seq<Address>, thermometer: Family, canSave: bool) returns (saves: bool)
      requires Valid()
      modifies this`slots, this`stored, slotFile
      ensures Valid() && slots == Bound(listing, old(slots), devices, thermometer)
      ensures stored == if slots != old(slots) && readable && saves then Written(Memory()) else old(stored)
    {
      var before := slots;
      ClearGiven();
      PlacePins();
      ghost var listed := slots;
      for i := 0 to |devices|
        invariant Valid() && stored == old(stored)
        invariant slots == Scanned(listing, listed, devices[..i], thermometer)
      {
        assert devices[..i + 1][..i] == devices[..i];
        PlaceDevice(devices[i], thermometer);
      }
      assert devices[..|devices|] == devices;
      if slots == before {
        return false;
      }
      if !readable {
        return false;
      }
      saves := SaveTable(canSave);
    }

    /** The table, offsets and labels of the file, or blanks where it could not be read. */
    method LoadTable(loads: bool, valid: Family)
      requires Valid()
      modifies this, slotFile
      ensures Valid() && stored == old(stored) && readable == loads
      ensures Memory() == (var t := if loads then Parsed(stored, |listing.given|) else Blank(|listing.given|);
                           t.(slots := DallasSlots.Valid(t.slots, valid)))
    {
      hide Parsed, Blank;
      slotFile.Reset();
      readable := loads;
      if loads {
        slotFile.ParseJson(stored);
      }
      slots, offsets, labels := slotFile.table, slotFile.offsets, slotFile.labels;
      DropInvalid(valid);
    }

    method DropInvalid(valid: Family)
      requires Valid()
      modifies this`slots
      ensures Valid() && slots == DallasSlots.Valid(old(slots), valid)
    {
      for slot := 0 to |slots|
        invariant |slots| == |old(slots)|
        invariant forall i :: 0 <= i < |slots| ==>
                    slots[i] == if i < slot && !valid(old(slots)[i]) then 0 else old(slots)[i]
      {
        if slots[slot] != 0 && !valid(slots[slot]) {
          slots := slots[slot := 0];
        }
      }
    }

    method DropListed()
      requires Valid()
      modifies this`offsets, this`labels
      ensures Valid() && Memory() == Unlabelled(listing, old(Memory()))
    {
      for slot := 0 to |offsets|
        invariant Valid()
        invariant forall i :: 0 <= i < |offsets| ==>
                    && offsets[i] == (if i < slot && listing.pinned[i] then 0 else old(offsets)[i])
                    && labels[i] == if i < slot && listing.pinned[i] then [] else old(labels)[i]
      {
        if listing.pinned[slot] {
          offsets, labels := offsets[slot := 0], labels[slot := []];
        }
      }
    }

    /** A boot: the table is loaded, listed sensors and the bus bound to it. */
    method Setup(devices: seq<Address>, loads: bool, canSave: bool, thermometer: Family, valid: Family)
      returns (saves: bool)
      requires Valid()
      modifies this, slotFile
      ensures Valid() && View() == After(listing, old(View()), Boot(devices, loads, saves), thermometer, valid)
    {
      hide Bound, Written, Parsed, Blank, Unlabelled;
      LoadTable(loads, valid);
      DropListed();
      assert Memory() == Loaded(listing, old(stored), loads, valid);
      saves := BindDevices(devices, thermometer, canSave);
      booted := slots;
    }

    /** Memory follows the file: what could not be written is as it was. */
    method StoreOrRollBack(before: Table) returns (written: bool)
      requires Valid() && Sized(before, |listing.given|)
      modifies this`slots, this`offsets, this`labels, this`stored, slotFile
      ensures Valid()
      ensures if written then Memory() == old(Memory()) && stored == Written(Memory())
              else Memory() == before && stored == old(stored)
    {
      written := SaveTable(true);
      if written {
        return;
      }
      slots := before.slots;
      offsets := before.offsets;
      labels := before.labels;
    }

    method AssignAndSave(slot: nat, address: Address, canSave: bool, valid: Family, ghost thermometer: Family)
      returns (ok: bool)
      requires Valid()
      modifies this, slotFile
      ensures Valid() && View() == After(listing, old(View()), Assign(slot, address, canSave, ok), thermometer, valid)
      ensures !ok ==> View() == old(View())
      ensures ok ==> CheckAssign(listing, old(slots), slot, address, valid) == Fine && canSave
    {
      hide Written;
      if CheckAssign(listing, slots, slot, address, valid) != Fine {
        return false;
      }
      if !canSave {
        return false;
      }
      var before := Memory();
      var held := IndexOf(slots, address);
      if held < |slots| {
        slots := slots[held := slots[slot]];
      }
      slots := slots[slot := address];
      ok := StoreOrRollBack(before);
    }

    method HasSomething(which: int) returns (held: bool)
      requires Valid()
      ensures held == CanForget(listing, Memory(), which)
    {
      for i := 0 to |slots|
        invariant forall j :: 0 <= j < i && (which < 0 || which == j) && !listing.pinned[j] ==>
                    slots[j] == 0 && (which < 0 ==> offsets[j] == 0 && labels[j] == [])
      {
        var full := slots[i] != 0 || (which < 0 && (offsets[i] != 0 || labels[i] != []));
        if (which < 0 || which == i) && !listing.pinned[i] && full {
          return true;
        }
      }
      return false;
    }

    method ForgetAndSave(which: int, canSave: bool, ghost thermometer: Family, ghost valid: Family) returns (ok: bool)
      requires Valid()
      modifies this, slotFile
      ensures Valid() && View() == After(listing, old(View()), Forget(which, canSave, ok), thermometer, valid)
      ensures !ok ==> View() == old(View())
    {
      hide Written, CanForget;
      if !canSave {
        return false;
      }
      var something := HasSomething(which);
      if !something {
        return false;
      }
      var before := Memory();
      EmptySlots(which);
      ok := StoreOrRollBack(before);
    }

    method EmptySlots(which: int)
      requires Valid()
      modifies this`slots, this`offsets, this`labels
      ensures Valid() && Memory() == Forgotten(listing, old(Memory()), which)
    {
      for i := 0 to |slots|
        invariant Valid()
        invariant forall j :: 0 <= j < |slots| ==>
                    slots[j] == if j < i && (which < 0 || which == j) && !listing.pinned[j] then 0 else old(slots)[j]
        invariant forall j :: 0 <= j < |slots| ==>
                    offsets[j] == if j < i && which < 0 && !listing.pinned[j] then 0 else old(offsets)[j]
        invariant forall j :: 0 <= j < |slots| ==>
                    labels[j] == if j < i && which < 0 && !listing.pinned[j] then [] else old(labels)[j]
      {
        if (which < 0 || which == i) && !listing.pinned[i] {
          slots := slots[i := 0];
          if which < 0 {
            offsets := offsets[i := 0];
            labels := labels[i := []];
          }
        }
      }
    }

    /** An offset that is set already needs no write. */
    method SetOffsetAndSave(slot: nat, celsius: real, canSave: bool, ghost thermometer: Family, ghost valid: Family)
      returns (ok: bool)
      requires Valid()
      modifies this, slotFile
      ensures Valid()
      ensures View() == After(listing, old(View()), SetOffset(slot, celsius, canSave, ok), thermometer, valid)
      ensures ok <==> slot < |slots| && CheckedOffset(listing, View(), slot, celsius) == Some(offsets[slot])
      ensures !ok ==> View() == old(View())
    {
      hide Written, OffsetTenths;
      if slot >= |slots| || OffsetTenths(celsius).None? || listing.pinned[slot] {
        return false;
      }
      var tenths := OffsetTenths(celsius).value;
      if offsets[slot] == tenths {
        return true;
      }
      if !canSave || !readable {
        return false;
      }
      var before := Memory();
      offsets := offsets[slot := tenths];
      ok := StoreOrRollBack(before);
    }

    method SetLabelAndSave(slot: nat, text: seq<Byte>, canSave: bool, ghost thermometer: Family, ghost valid: Family)
      returns (ok: bool)
      requires Valid()
      modifies this, slotFile
      ensures Valid()
      ensures View() == After(listing, old(View()), SetLabel(slot, text, canSave, ok), thermometer, valid)
      ensures ok <==> slot < |slots| && CheckedLabel(listing, View(), slot, text) == Some(labels[slot])
      ensures !ok ==> View() == old(View())
    {
      hide Written, LabelOf;
      var name := CheckedLabel(listing, View(), slot, text);
      if name.None? {
        return false;
      }
      if labels[slot] == name.value {
        return true;
      }
      if !canSave || !readable {
        return false;
      }
      var before := Memory();
      labels := labels[slot := name.value];
      ok := StoreOrRollBack(before);
    }
  }
}
