/** A boot that cannot read its slot file (components/dallas_scan/dallas_scan.cpp): the bus is bound to an
    empty table until the next boot, so the slots follow the order of the bus, and a device keeps its
    own only where that happens to agree. */
module DallasFailedLoads {
  import opened DallasSlots
  import opened SlotFiles

  /** The thermometers on the bus that no listed sensor owns, each where it is first met. */
  function Newcomers(l: Listing, devices: seq<Address>, thermometer: Family): seq<Address> {
    if devices == [] then []
    else
      var before, device := Newcomers(l, devices[..|devices| - 1], thermometer), devices[|devices| - 1];
      if thermometer(device) && !Owns(l, device) && device !in before then before + [device] else before
  }

  /** How many slots below `slot` are no listed sensor's. */
  function UnlistedBelow(l: Listing, slot: nat): (n: nat)
    requires slot <= |l.pinned|
    ensures n <= slot
  {
    if slot == 0 then 0 else UnlistedBelow(l, slot - 1) + if l.pinned[slot - 1] then 0 else 1
  }

  /** Unlisted slots hold the newcomers in order, as far as both go. */
  predicate Numbered(l: Listing, s: seq<Address>, news: seq<Address>) {
    && KeepsListing(l, s)
    && forall i :: 0 <= i < |s| && !l.pinned[i] ==>
         s[i] == if UnlistedBelow(l, i) < |news| then news[UnlistedBelow(l, i)] else 0
  }

  predicate Fresh(l: Listing, news: seq<Address>) {
    (forall i :: 0 <= i < |news| ==> news[i] != 0 && !Owns(l, news[i])) && OneSlotEach(news)
  }

  lemma {:induction false} UnlistedBelowGrows(l: Listing, i: nat, j: nat)
    requires i <= j <= |l.pinned|
    ensures UnlistedBelow(l, i) <= UnlistedBelow(l, j)
    ensures i < j && !l.pinned[i] ==> UnlistedBelow(l, i) < UnlistedBelow(l, j)
  {
    if i < j {
      UnlistedBelowGrows(l, i, j - 1);
    }
  }

  /** Every count below one reached is some unlisted slot's. */
  lemma {:induction false} RankReached(l: Listing, k: nat, rank: nat) returns (i: nat)
    requires k <= |l.pinned| && rank < UnlistedBelow(l, k)
    ensures i < k && !l.pinned[i] && UnlistedBelow(l, i) == rank
  {
    i := k - 1;
    if l.pinned[k - 1] || UnlistedBelow(l, k - 1) != rank {
      i := RankReached(l, k - 1, rank);
    }
  }

  lemma UnlistedAreFree(l: Listing, s: seq<Address>, i: nat)
    requires KeepsListing(l, s) && i < |s|
    ensures Free(l, s, i) <==> !l.pinned[i] && s[i] == 0
  {
    if l.pinned[i] && !l.given[i] {
      assert Lists(l, i);
    }
  }

  /** The lowest free slot is the one the next newcomer numbers. */
  lemma FreeIsNext(l: Listing, s: seq<Address>, news: seq<Address>)
    requires Numbered(l, s, news) && Fresh(l, news)
    ensures var k := FreeFrom(l, s, 0);
            if k < |s| then !l.pinned[k] && UnlistedBelow(l, k) == |news| else UnlistedBelow(l, |s|) <= |news|
  {
    var k := FreeFrom(l, s, 0);
    if k < |s| {
      UnlistedAreFree(l, s, k);
    }
    if UnlistedBelow(l, k) > |news| {
      var i := RankReached(l, k, |news|);
      UnlistedAreFree(l, s, i);
      assert false;
    }
    hide KeepsListing, Owns;
  }

  lemma WhereNewcomersAre(l: Listing, s: seq<Address>, news: seq<Address>, device: Address)
    requires Numbered(l, s, news) && Fresh(l, news) && device != 0
    ensures device in s ==> device in news || Owns(l, device)
    ensures Owns(l, device) ==> device in s
    ensures device in news && FreeFrom(l, s, 0) < |s| ==> device in s
  {
    if device in s {
      var i :| 0 <= i < |s| && s[i] == device;
      if l.pinned[i] {
        PinnedHolds(l, s, i);
      }
    }
    if Owns(l, device) {
      var i :| 0 <= i < |l.pins| && l.pins[i].address == device;
      assert s[l.pins[i].slot] == device;
    }
    if device in news && FreeFrom(l, s, 0) < |s| {
      FreeIsNext(l, s, news);
      var rank :| 0 <= rank < |news| && news[rank] == device;
      var i := RankReached(l, FreeFrom(l, s, 0), rank);
      assert s[i] == device;
    }
  }

  lemma TakenIsNumbered(l: Listing, s: seq<Address>, news: seq<Address>, device: Address, thermometer: Family)
    requires Numbered(l, s, news) && Fresh(l, news) && !thermometer(0)
    ensures var more := if thermometer(device) && !Owns(l, device) && device !in news then news + [device] else news;
            Numbered(l, Taken(l, s, device, thermometer), more) && Fresh(l, more)
  {
    if thermometer(device) {
      WhereNewcomersAre(l, s, news, device);
      FreeIsNext(l, s, news);
      var k := FreeFrom(l, s, 0);
      if device !in s && k < |s| {
        PutIsNumbered(l, s, news, device, k);
      } else if !Owns(l, device) && device !in news {
        OverflowIsNumbered(l, s, news, device);
      }
    }
    hide Numbered, Fresh, Owns;
  }

  lemma PutIsNumbered(l: Listing, s: seq<Address>, news: seq<Address>, device: Address, k: nat)
    requires Numbered(l, s, news) && Fresh(l, news) && device != 0 && device !in news && !Owns(l, device)
    requires k < |s| && !l.pinned[k] && UnlistedBelow(l, k) == |news|
    ensures Numbered(l, s[k := device], news + [device]) && Fresh(l, news + [device])
  {
    var r := s[k := device];
    forall i | 0 <= i < |s| && !l.pinned[i] && i != k ensures UnlistedBelow(l, i) != |news| {
      UnlistedBelowGrows(l, if i < k then i else k, if i < k then k else i);
    }
    forall i | 0 <= i < |l.pins| ensures r[l.pins[i].slot] == l.pins[i].address {
      assert Lists(l, l.pins[i].slot) && l.pinned[l.pins[i].slot];
    }
  }

  lemma OverflowIsNumbered(l: Listing, s: seq<Address>, news: seq<Address>, device: Address)
    requires Numbered(l, s, news) && Fresh(l, news) && device != 0 && device !in news && !Owns(l, device)
    requires UnlistedBelow(l, |s|) <= |news|
    ensures Numbered(l, s, news + [device]) && Fresh(l, news + [device])
  {
    forall i | 0 <= i < |s| && !l.pinned[i] ensures UnlistedBelow(l, i) < |news| {
      UnlistedBelowGrows(l, i, |s|);
    }
  }

  lemma {:induction false} ScannedIsNumbered(l: Listing, s: seq<Address>, devices: seq<Address>, thermometer: Family)
    requires Numbered(l, s, []) && !thermometer(0) && |l.given| == |s|
    ensures var news := Newcomers(l, devices, thermometer);
            Numbered(l, Scanned(l, s, devices, thermometer), news) && Fresh(l, news)
    decreases |devices|
  {
    if devices != [] {
      var before := devices[..|devices| - 1];
      ScannedIsNumbered(l, s, before, thermometer);
      TakenIsNumbered(l, Scanned(l, s, before, thermometer), Newcomers(l, before, thermometer),
                      devices[|devices| - 1], thermometer);
      hide Numbered, Fresh, Taken, Owns;
    }
  }

  lemma ListedAloneIsNumbered(l: Listing)
    requires Fits(l, |l.given|)
    ensures Numbered(l, PinnedIn(GivenCleared(l, Empty(|l.given|)), l.pins), [])
  {
    var cleared := GivenCleared(l, Empty(|l.given|));
    ListedFirst(l, Empty(|l.given|));
    PinningMeans(cleared, l.pins);
    forall i | 0 <= i < |cleared| && !l.pinned[i] ensures PinnedIn(cleared, l.pins)[i] == 0 {
      assert !Lists(l, i);
    }
  }

  /** With nothing read, the unlisted slots hold the thermometers of the bus in the order they are met,
      listed ones and repeats passed over, and are empty from there on. */
  lemma EmptyTableFollowsTheBus(l: Listing, devices: seq<Address>, thermometer: Family)
    requires Fits(l, |l.given|) && !thermometer(0)
    ensures Numbered(l, Bound(l, Empty(|l.given|), devices, thermometer), Newcomers(l, devices, thermometer))
    ensures Fresh(l, Newcomers(l, devices, thermometer))
  {
    ListedAloneIsNumbered(l);
    ScannedIsNumbered(l, PinnedIn(GivenCleared(l, Empty(|l.given|)), l.pins), devices, thermometer);
    hide Numbered, Fresh;
  }

  /** As many newcomers come before the device as unlisted slots before its own. */
  predicate InBusOrder(l: Listing, devices: seq<Address>, thermometer: Family, slot: nat, address: Address)
    requires slot < |l.pinned|
  {
    var news := Newcomers(l, devices, thermometer);
    UnlistedBelow(l, slot) < |news| && news[UnlistedBelow(l, slot)] == address
  }

  /** A device its file knows is in its slot after a boot exactly when the file could be read, or the
      order of the bus happens to put it there. */
  lemma BootKeepsExactly(
      l: Listing, d: Device, e: Event, thermometer: Family, valid: Family, slot: nat, row: Row)
    requires Fits(l, |l.given|) && !valid(0) && !thermometer(0) && e.Boot?
    requires Filed(l, d, slot, row) && Sticky(l, slot, row, valid)
    ensures var r := After(l, d, e, thermometer, valid);
            r.memory.slots[slot] == row.address <==>
              e.loads || InBusOrder(l, e.devices, thermometer, slot, row.address)
  {
    if e.loads {
      BootKeepsFiled(l, d, e, thermometer, valid, slot, row);
    } else {
      NothingLoads(l, d.file, valid);
      EmptyTableFollowsTheBus(l, e.devices, thermometer);
    }
    hide Bound, Loaded, Written, Parsed, KeepsListing, Owns, Newcomers, UnlistedBelow;
  }

  lemma NothingLoads(l: Listing, file: Root, valid: Family)
    requires |l.pinned| == |l.given| && !valid(0)
    ensures Loaded(l, file, false, valid).slots == Empty(|l.given|)
  {
    hide Parsed;
  }

  function TwoSlots(): Listing {
    Listing([false, false], [false, false], [])
  }

  function InSecond(address: Address): Table {
    Table([0, address], [0, 0], [[], []])
  }

  /** Two slots, and the one device is filed in the second: a boot that cannot read the file has it in the
      first. The file is as it was. */
  lemma AFailedLoadMoves(address: Address, thermometer: Family, valid: Family)
    requires thermometer(address) && valid(address) && !thermometer(0) && !valid(0)
    ensures var file := Written(InSecond(address));
            var d := Device(file, InSecond(address), [0, address], true);
            var r := After(TwoSlots(), d, Boot([address], false, true), thermometer, valid);
            && Filed(TwoSlots(), d, 1, Row(address, 0, []))
            && r.memory.slots == [address, 0] && r.file == file
  {
    var l := TwoSlots();
    InSecondIsFiled(address);
    NothingLoads(l, Written(InSecond(address)), valid);
    EmptyTableFollowsTheBus(l, [address], thermometer);
    OneNewcomer(address, thermometer);
    var bound := Bound(l, Empty(2), [address], thermometer);
    assert UnlistedBelow(l, 1) == 1;
    assert bound[0] == address && bound[1] == 0;
    hide Written, Parsed, Bound, Newcomers, Loaded, Filed;
  }

  lemma InSecondIsFiled(address: Address)
    requires address != 0
    ensures Filed(TwoSlots(), Device(Written(InSecond(address)), InSecond(address), [0, address], true), 1,
                  Row(address, 0, []))
  {
    FileRoundTrips(InSecond(address), 2);
    hide Parsed, Written;
  }

  lemma OneNewcomer(address: Address, thermometer: Family)
    requires thermometer(address)
    ensures Newcomers(TwoSlots(), [address], thermometer) == [address]
  {
    assert [address][..0] == [];
    assert !Owns(TwoSlots(), address);
  }
}
