/** What a caller of the hub gets: who runs afterwards, whose documents change and whom a refusal names
    (components/climate_hub/climate_hub.cpp:588-860). */
module HubAnswers {
  import opened Options
  import opened HubState
  import opened HubArbitration
  import opened HubMutators
  import opened HubTakeOver

  // --- Rivals ---

  /** Another thermostat that is enabled and names a relay `c` names. */
  ghost predicate Rival(h: Hub, c: Config, x: nat) {
    x in h.store && x != c.id && h.store[x].enabled && !(Named(c) !! Named(h.store[x]))
  }

  lemma HolderIsRival(h: Hub, c: Config)
    requires Good(h) && HolderOf(h, c).Some?
    ensures Rival(h, c, HolderOf(h, c).value) && HolderOf(h, c).value in h.running
  {
    HolderMeans(h, c);
    var r :| r in Named(c) && OwnerOf(h, r) == HolderOf(h, c);
    assert Rightful(h, r, {});
    assert HolderOf(h, c).value != c.id;
  }

  lemma ReserverIsRival(h: Hub, c: Config)
    requires ReserverOf(h, c).Some?
    ensures Rival(h, c, ReserverOf(h, c).value) && ReserverOf(h, c).value !in h.running
  {
    var r :| r in Named(c) && r in Named(h.store[ReserverOf(h, c).value]);
  }

  predicate Celsius(device: Device, c: Config) {
    c.sensor in device.sensors ==> device.sensors[c.sensor]
  }

  lemma RunningRivalHolds(h: Hub, c: Config, x: nat)
    requires Good(h) && Rival(h, c, x) && x in h.running
    ensures HolderOf(h, c).Some?
  {
    var r :| r in Named(c) && r in Named(h.store[x]);
    assert RunsRight(h, x);
    assert OwnerOf(h, r) == Some(x);
    HolderMeans(h, c);
  }

  lemma HolderMeansRunner(h: Hub, c: Config)
    requires Good(h)
    ensures HolderOf(h, c).Some? <==> exists x :: Rival(h, c, x) && x in h.running
  {
    if HolderOf(h, c).Some? {
      HolderIsRival(h, c);
    }
    if x :| Rival(h, c, x) && x in h.running {
      RunningRivalHolds(h, c, x);
    }
  }

  /** A conflict names a rival, and one that runs if any does. */
  ghost predicate IsConflict(h: Hub, c: Config, refused: Refused) {
    && refused.code == 409 && refused.holder.Some? && Rival(h, c, refused.holder.value)
    && ((exists x :: Rival(h, c, x) && x in h.running) ==> refused.holder.value in h.running)
  }

  lemma ConflictIsNamed(h: Hub, c: Config)
    requires Good(h)
    ensures HolderOf(h, c).Some? ==> IsConflict(h, c, Refused(409, HolderOf(h, c)))
    ensures HolderOf(h, c).None? && ReserverOf(h, c).Some? ==> IsConflict(h, c, Refused(409, ReserverOf(h, c)))
  {
    HolderMeansRunner(h, c);
    if HolderOf(h, c).Some? {
      HolderIsRival(h, c);
    } else if ReserverOf(h, c).Some? {
      ReserverIsRival(h, c);
    }
    hide HolderOf, ReserverOf, Rival, Good;
  }

  lemma SavableIs(h: Hub, c: Config)
    ensures SavableRefusal(h, c)
         == if !Celsius(h.device, c) then Some(Refused(400, None))
            else if HolderOf(h, c).Some? then Some(Refused(409, HolderOf(h, c)))
            else if ReserverOf(h, c).Some? then Some(Refused(409, ReserverOf(h, c)))
            else None
  {
    hide HolderOf, ReserverOf;
  }

  /** The check before a Save refuses a sensor that is not in °C, and otherwise exactly what has a rival. */
  lemma SavableMeans(h: Hub, c: Config)
    requires Good(h) && Exclusive(h)
    ensures var refused := SavableRefusal(h, c);
            && (refused.None? <==> Celsius(h.device, c) && forall x :: !Rival(h, c, x))
            && (refused.Some? && !Celsius(h.device, c) ==> refused.value == Refused(400, None))
            && (refused.Some? && Celsius(h.device, c) ==> IsConflict(h, c, refused.value))
  {
    SavableIs(h, c);
    ConflictIsNamed(h, c);
    if SavableRefusal(h, c).None? {
      SavableIsClear(h, c);
    }
    hide Good, Exclusive, HolderOf, ReserverOf, SavableRefusal, Celsius, IsConflict;
  }

  /** Whatever the files at boot named, two enabled thermostats on one relay included: the check refuses exactly what
      shares with a rival a relay it does not hold itself. */
  lemma SavableExactly(h: Hub, c: Config)
    requires Good(h)
    ensures SavableRefusal(h, c).None? <==>
              && Celsius(h.device, c)
              && forall x, r :: Rival(h, c, x) && r in Named(c) && r in Named(h.store[x]) ==>
                   OwnerOf(h, r) == Some(c.id)
  {
    SavableIs(h, c);
    HolderMeans(h, c);
    hide SavableRefusal, Celsius;
    if HolderOf(h, c).None? && ReserverOf(h, c).None? {
      forall x, r | Rival(h, c, x) && r in Named(c) && r in Named(h.store[x]) ensures OwnerOf(h, r) == Some(c.id) {
        if x in h.running {
          assert RunsRight(h, x);
        } else {
          assert x in h.order && Waits(h, x) && !Reserves(h, c, h.store[x]);
        }
      }
    } else if HolderOf(h, c).Some? {
      HolderIsRival(h, c);
      var r :| r in Named(c) && OwnerOf(h, r) == HolderOf(h, c);
      assert Rightful(h, r, {}) && HolderOf(h, c) != Some(c.id);
    } else {
      ReserverIsRival(h, c);
    }
  }

  // --- A refusal ---

  /** A refused call leaves the hub as it was. */
  lemma RefusedChangesNothing(h: Hub, id: nat, doc: Config, with: Saving, enabled: bool, takeOver: bool, now: nat)
    ensures Creating(h, doc, with, now).report.refused.Some? ==> Creating(h, doc, with, now).hub == h
    ensures Updating(h, id, doc, with, now).report.refused.Some? ==> Updating(h, id, doc, with, now).hub == h
    ensures Restoring(h, doc, with, now).report.refused.Some? ==> Restoring(h, doc, with, now).hub == h
    ensures Removing(h, id, now).report.refused.Some? ==> Removing(h, id, now).hub == h
    ensures Enabling(h, id, enabled, takeOver, now).report.refused.Some? ==>
              Enabling(h, id, enabled, takeOver, now).hub == h
  {
    hide SavableRefusal, HoldersTaken, ReserversDisabled, Closing, Starting, Applying, Stopped, Present, HolderOf;
  }

  // --- Who runs afterwards ---

  /** Everyone who ran and is not in `but` still does. */
  ghost predicate Spares(h: Hub, g: Hub, but: set<nat>) {
    forall x :: x in h.running && x !in but ==> x in g.running
  }

  lemma {:induction false} RelaySweepSkips(s: Sweep, ids: seq<nat>, id: nat, now: nat)
    requires forall x :: x in s.hub.store ==> s.hub.store[x].id == x
    ensures id in SweepRelays(s, ids, Some(id), now).hub.running <==> id in s.hub.running
    decreases |ids|
  {
    if ids != [] {
      var x := ids[0];
      var tries := Waits(s.hub, x) && Some(x) != Some(id) && Touched(s.hub, x);
      if tries {
        TryStartsItself(s, x, now);
      }
      hide Tried, Touched, Waits;
      RelaySweepSkips(if tries then Tried(s, x, now) else s, ids[1..], id, now);
    }
  }

  lemma {:induction false} EntitySweepSkips(s: Sweep, ids: seq<nat>, id: nat, now: nat)
    requires forall x :: x in s.hub.store ==> s.hub.store[x].id == x
    ensures id in SweepEntities(s, ids, Some(id), now).hub.running <==> id in s.hub.running
    decreases |ids|
  {
    if ids != [] && s.hub.free != 0 {
      var x := ids[0];
      var tries := Waits(s.hub, x) && Some(x) != Some(id) && WaitsForEntity(s.hub, x);
      if tries {
        TryStartsItself(s, x, now);
      }
      hide Tried, WaitsForEntity, Waits;
      EntitySweepSkips(if tries then Tried(s, x, now) else s, ids[1..], id, now);
    }
  }

  lemma TryStartsItself(s: Sweep, x: nat, now: nat)
    requires x in s.hub.store && s.hub.store[x].id == x
    ensures var g := Tried(s, x, now).hub;
            g.store == s.hub.store && forall y :: y != x ==> (y in g.running <==> y in s.hub.running)
  {
    hide Claiming, Dwelled, RelaysLetGo, Refusal;
    ClaimingFrame(s.hub, s.hub.store[x]);
    ReleasedFrame(s.hub, x, now);
  }

  lemma ClaimedFrame(h: Hub, id: nat, out: Output)
    ensures ClaimedOutput(h, id, out).running == h.running
  {}

  lemma DwelledFrame(h: Hub, out: Output)
    ensures DwelledOutput(h, out).running == h.running
  {}

  lemma ClaimingFrame(h: Hub, c: Config)
    ensures Dwelled(Claiming(h, c), c).running == h.running
  {
    hide ClaimedOutput, DwelledOutput;
    ClaimedFrame(h, c.id, c.heat);
    ClaimedFrame(ClaimedOutput(h, c.id, c.heat), c.id, c.cool);
    DwelledFrame(Claiming(h, c), c.heat);
    DwelledFrame(DwelledOutput(Claiming(h, c), c.heat), c.cool);
  }

  lemma ReleasedFrame(h: Hub, id: nat, now: nat)
    ensures Released(h, id, now).running == h.running
  {}

  /** The sweeps leave out whom they are told to. */
  lemma ClosingSkips(h: Hub, id: nat, now: nat)
    requires forall x :: x in h.store ==> h.store[x].id == x
    ensures id in Closing(h, Some(id), now).hub.running <==> id in h.running
  {
    hide SweepRelays, SweepEntities;
    var begin := Sweep(h.(entityFreed := false), []);
    RelaySweepSkips(begin, h.order, id, now);
    var swept := RelaysSwept(h, Some(id), now);
    SweptStore(h, Some(id), now);
    EntitySweepSkips(swept, h.order, id, now);
  }

  lemma {:induction false} SweepStore(s: Sweep, ids: seq<nat>, skip: Option<nat>, now: nat)
    ensures SweepRelays(s, ids, skip, now).hub.store == s.hub.store
    decreases |ids|
  {
    hide Starting, Touched;
    if ids != [] {
      var x := ids[0];
      var tries := Waits(s.hub, x) && Some(x) != skip && Touched(s.hub, x);
      SweepStore(if tries then Tried(s, x, now) else s, ids[1..], skip, now);
    }
  }

  lemma SweptStore(h: Hub, skip: Option<nat>, now: nat)
    ensures RelaysSwept(h, skip, now).hub.store == h.store
  {
    hide SweepRelays;
    SweepStore(Sweep(h.(entityFreed := false), []), h.order, skip, now);
  }

  // --- What is reported ---

  /** A start that fails says why: what it names is so. */
  predicate IsTrue(h: Hub, c: Config, why: Why) {
    match why
    case SensorMissing => c.sensor !in h.device.sensors
    case NotCelsius => c.sensor in h.device.sensors && !h.device.sensors[c.sensor]
    case NoFreeEntity => h.free == 0
    case RelayMissing(r) => r in Named(c) && r !in h.device.switches && OwnerOf(h, r).None?
    case RelayHeld(r, x) => r in Named(c) && x != c.id && OwnerOf(h, r) == Some(x)
  }

  lemma OutputRefusedIsTrue(h: Hub, c: Config, out: Output)
    requires out == c.heat || out == c.cool
    ensures OutputRefusal(h, c.id, out).Some? ==> IsTrue(h, c, OutputRefusal(h, c.id, out).value)
  {}

  lemma WarningIsTrue(h: Hub, c: Config, now: nat)
    ensures Starting(h, c, now).why.Some? ==> IsTrue(h, c, Starting(h, c, now).why.value)
    ensures c.id in h.running && Restarting(h, c, now).why.Some? ==> IsTrue(h, c, Restarting(h, c, now).why.value)
  {
    OutputRefusedIsTrue(h, c, c.heat);
    OutputRefusedIsTrue(h, c, c.cool);
    hide OutputRefusal, Released, Stopped, Started, Claiming, Dwelled, RelaysLetGo;
  }

  /** The list names those that run now and did not before. */
  ghost predicate ListsStarters(begin: Sweep, end: Sweep) {
    && end.hub.store == begin.hub.store && begin.started <= end.started
    && (forall x :: x in begin.hub.running ==> x in end.hub.running)
    && (forall x :: x in end.started <==> x in begin.started || (x in end.hub.running && x !in begin.hub.running))
  }

  lemma TryLists(s: Sweep, x: nat, now: nat)
    requires x in s.hub.store && s.hub.store[x].id == x && x !in s.hub.running
    ensures ListsStarters(s, Tried(s, x, now))
  {
    TryStartsItself(s, x, now);
    TryStarts(s, x, now);
    hide Tried;
  }

  lemma TryStarts(s: Sweep, x: nat, now: nat)
    requires x in s.hub.store && s.hub.store[x].id == x && x !in s.hub.running
    ensures Tried(s, x, now).started == if x in Tried(s, x, now).hub.running then s.started + [x] else s.started
  {
    hide Claiming, Dwelled, RelaysLetGo, Refusal;
    ClaimingFrame(s.hub, s.hub.store[x]);
    ReleasedFrame(s.hub, x, now);
  }

  lemma ListsOn(s: Sweep, t: Sweep, u: Sweep)
    requires ListsStarters(s, t) && ListsStarters(t, u)
    ensures ListsStarters(s, u)
  {}

  lemma ListsNone(s: Sweep)
    ensures ListsStarters(s, s)
  {}

  lemma {:induction false} RelaySweepLists(s: Sweep, ids: seq<nat>, skip: Option<nat>, now: nat)
    requires forall x :: x in s.hub.store ==> s.hub.store[x].id == x
    ensures ListsStarters(s, SweepRelays(s, ids, skip, now))
    decreases |ids|
  {
    ListsNone(s);
    if ids != [] {
      var x := ids[0];
      var tries := Waits(s.hub, x) && Some(x) != skip && Touched(s.hub, x);
      if tries {
        TryLists(s, x, now);
      }
      var next := if tries then Tried(s, x, now) else s;
      assert next.hub.store == s.hub.store;
      hide Tried, Touched, ListsStarters, Waits;
      RelaySweepLists(next, ids[1..], skip, now);
      ListsOn(s, next, SweepRelays(next, ids[1..], skip, now));
    }
  }

  lemma {:induction false} EntitySweepLists(s: Sweep, ids: seq<nat>, skip: Option<nat>, now: nat)
    requires forall x :: x in s.hub.store ==> s.hub.store[x].id == x
    ensures ListsStarters(s, SweepEntities(s, ids, skip, now))
    decreases |ids|
  {
    ListsNone(s);
    if ids != [] && s.hub.free != 0 {
      var x := ids[0];
      var tries := Waits(s.hub, x) && Some(x) != skip && WaitsForEntity(s.hub, x);
      if tries {
        TryLists(s, x, now);
      }
      var next := if tries then Tried(s, x, now) else s;
      assert next.hub.store == s.hub.store;
      hide Tried, WaitsForEntity, ListsStarters, Waits;
      EntitySweepLists(next, ids[1..], skip, now);
      ListsOn(s, next, SweepEntities(next, ids[1..], skip, now));
    }
  }

  /** The answer lists exactly the waiters that started. */
  lemma StartersAreListed(h: Hub, skip: Option<nat>, now: nat)
    requires forall x :: x in h.store ==> h.store[x].id == x
    ensures var end := Closing(h, skip, now);
            forall x :: x in end.started <==> x in end.hub.running && x !in h.running
  {
    hide SweepRelays, SweepEntities;
    var begin := Sweep(h.(entityFreed := false), []);
    RelaySweepLists(begin, h.order, skip, now);
    SweptStore(h, skip, now);
    EntitySweepLists(RelaysSwept(h, skip, now), h.order, skip, now);
  }

  // --- A Save, a creation, a removal ---

  /** The relays `id` held are open. */
  ghost predicate LeftOpen(h: Hub, g: Hub, id: nat) {
    forall r :: OwnerOf(h, r) == Some(id) ==> r !in g.shut
  }

  /** Whether a thermostat runs once its document is in, and what becomes of the others. */
  ghost predicate SavedAs(h: Hub, doc: Config, g: Hub, why: Option<Why>) {
    && (doc.id in g.running <==> doc.enabled && Present(h.device, doc) && (doc.id in h.running || h.free > 0))
    && (why.None? <==> !doc.enabled || doc.id in g.running)
    && Spares(h, g, {doc.id})
    && (doc.id !in g.running ==> LeftOpen(h, g, doc.id))
  }

  lemma UnheldMayClaim(h: Hub, c: Config, odd: set<nat>)
    requires HolderOf(h, c).None? && forall r :: Rightful(h, r, odd)
    ensures MayClaim(h, c) <==> Named(c) <= h.device.switches
  {
    HolderMeans(h, c);
    hide HolderOf;
    forall r | r in Named(c)
      ensures (if OwnerOf(h, r).Some? then OwnerOf(h, r) == Some(c.id) else r in h.device.switches)
              <==> r in h.device.switches
    {
      assert Rightful(h, r, odd);
    }
  }

  lemma HolderIgnoresDocuments(h: Hub, g: Hub, c: Config)
    requires g.claims == h.claims
    ensures HolderOf(g, c) == HolderOf(h, c)
  {}

  lemma OwnedMeans(h: Hub, id: nat)
    ensures forall r :: r in Owned(h, id) <==> OwnerOf(h, r) == Some(id)
  {}

  lemma RestartedAs(h: Hub, stored: Hub, doc: Config, now: nat)
    requires stored.claims == h.claims && stored.running == h.running && stored.device == h.device
    requires doc.id in stored.running && PointsHome(stored, doc.id) && doc.enabled
    requires MayClaim(stored, doc) <==> Named(doc) <= h.device.switches
    ensures var a := Restarting(stored, doc, now);
            SavedAs(h, doc, a.hub, a.why)
  {
    RefusalMeans(stored, doc);
    OwnedMeans(stored, doc.id);
    assert forall r :: OwnerOf(stored, r) == OwnerOf(h, r);
    if Input(stored.device, doc.sensor).None? && MayClaim(stored, doc) {
      RestartedDoes(stored, doc, now);
    } else {
      StoppedDoes(stored, doc.id, now);
    }
    hide MayClaim, Named, OwnerOf, Stopped, Refusal, PointsHome;
  }

  lemma StartedAs(h: Hub, stored: Hub, doc: Config, now: nat)
    requires stored.claims == h.claims && stored.running == h.running && stored.device == h.device
    requires stored.free == h.free && doc.id in stored.store && stored.store[doc.id] == doc
    requires doc.id !in stored.running && Owned(stored, doc.id) == {} && doc.enabled
    requires MayClaim(stored, doc) <==> Named(doc) <= h.device.switches
    ensures var a := Starting(stored, doc, now);
            SavedAs(h, doc, a.hub, a.why)
  {
    RefusalMeans(stored, doc);
    FailedStart(stored, doc, now);
    OwnedMeans(stored, doc.id);
    assert forall r :: OwnerOf(stored, r) == OwnerOf(h, r);
    hide MayClaim, Named, OwnerOf, Refusal, Started;
  }

  lemma StoppedAs(h: Hub, stored: Hub, doc: Config, now: nat)
    requires stored.claims == h.claims && stored.running == h.running && stored.device == h.device
    requires doc.id in stored.running && PointsHome(stored, doc.id) && !doc.enabled
    ensures SavedAs(h, doc, Stopped(stored, doc.id, now), None)
  {
    StoppedDoes(stored, doc.id, now);
    OwnedMeans(stored, doc.id);
    assert forall r :: OwnerOf(stored, r) == OwnerOf(h, r);
    hide Stopped, OwnerOf;
  }

  lemma AppliedAs(h: Hub, doc: Config, now: nat)
    requires Good(h) && doc.id in h.store && Wired(doc) && (doc.enabled ==> HolderOf(h, doc).None?)
    ensures var a := Applying(h, doc, now);
            SavedAs(h, doc, a.hub, a.why)
  {
    var stored := StoredAs(h, doc);
    StoredAsKeeps(h, doc);
    HolderIgnoresDocuments(h, stored, doc);
    if doc.enabled {
      UnheldMayClaim(stored, doc, {doc.id});
    }
    if doc.id !in h.running {
      WaitersOwnNothing(h, doc.id);
      OwnedMeans(h, doc.id);
    }
    assert stored.claims == h.claims;
    hide Good, MayClaim, Starting, Restarting, Stopped, Named, HolderOf, SavedAs, BooksBut, LinkedBut, AllExcused,
         NoneForgotten, PointsHome;
    if doc.id in h.running && doc.enabled {
      RestartedAs(h, stored, doc, now);
    } else if doc.id in h.running {
      StoppedAs(h, stored, doc, now);
    } else if doc.enabled {
      assert Owned(stored, doc.id) == Owned(h, doc.id);
      StartedAs(h, stored, doc, now);
    } else {
      NothingSaved(h, stored, doc);
    }
  }

  lemma NothingSaved(h: Hub, stored: Hub, doc: Config)
    requires stored.running == h.running && doc.id !in h.running && !doc.enabled
    requires forall r :: r in Owned(h, doc.id) <==> OwnerOf(h, r) == Some(doc.id)
    requires Owned(h, doc.id) == {}
    ensures SavedAs(h, doc, stored, None)
  {}

  lemma ClosedAs(h: Hub, doc: Config, a: Attempt, now: nat)
    requires SavedAs(h, doc, a.hub, a.why) && Closable(Noted(a, doc.id), Some(doc.id))
    ensures SavedAs(h, doc, Closing(Noted(a, doc.id), Some(doc.id), now).hub, a.why)
  {
    var noted := Noted(a, doc.id);
    assert forall x :: x in noted.store ==> noted.store[x].id == x;
    ClosingSettles(noted, Some(doc.id), now);
    ClosingSkips(noted, doc.id, now);
    hide Closable, Closing, Good, OwnerOf, Present;
  }

  lemma ReplacedAs(h: Hub, doc: Config, now: nat)
    requires Good(h) && doc.id in h.store && Wired(doc) && (doc.enabled ==> HolderOf(h, doc).None?)
    ensures var a := Replaced(h, doc, now);
            && SavedAs(h, doc, a.hub, a.report.warning)
            && a.report.refused.None? && a.report.stopped == [] && a.hub.store == h.store[doc.id := doc]
  {
    hide Good, SavedAs, Applying, Closing, Closable, HolderOf;
    AppliedAs(h, doc, now);
    ApplyingCloses(h, doc, now);
    ClosedAs(h, doc, Applying(h, doc, now), now);
    ReplacedKeeps(h, doc, now);
  }

  lemma AddedIsSaved(h: Hub, doc: Config, now: nat)
    requires Good(h) && doc.id !in h.store && Wired(doc) && (doc.enabled ==> HolderOf(h, doc).None?)
    ensures var stored := StoredNew(h, doc);
            var a := if doc.enabled then Starting(stored, doc, now) else Attempt(stored, None);
            SavedAs(h, doc, a.hub, a.why) && doc.id !in h.running
  {
    var stored := StoredNew(h, doc);
    NotRunningUnknown(h, doc.id);
    WaitersOwnNothing(h, doc.id);
    OwnedMeans(h, doc.id);
    StoredNewKeeps(h, doc);
    HolderIgnoresDocuments(h, stored, doc);
    assert stored.claims == h.claims && Owned(stored, doc.id) == Owned(h, doc.id);
    if doc.enabled {
      UnheldMayClaim(stored, doc, {});
    }
    hide Good, MayClaim, Starting, Named, HolderOf, LinkedBut, AllExcused, Present, BooksBut, SavedAs;
    if doc.enabled {
      StartedAs(h, stored, doc, now);
    } else {
      NothingSaved(h, stored, doc);
    }
  }

  lemma AddedAs(h: Hub, doc: Config, now: nat)
    requires Good(h) && doc.id !in h.store && Wired(doc) && (doc.enabled ==> HolderOf(h, doc).None?)
    ensures var a := Added(h, doc, now);
            && SavedAs(h, doc, a.hub, a.report.warning) && Spares(h, a.hub, {})
            && a.report.refused.None? && a.report.stopped == [] && a.hub.store == h.store[doc.id := doc]
  {
    hide Good, Starting, HolderOf, Present, OwnerOf;
    AddedIsSaved(h, doc, now);
    AddedKeeps(h, doc, now);
  }

  /** A creation is refused exactly for its document, a full store, a name or id taken, a rival or a write that
      fails. Else its thermostat is in the store as it was sent, runs if its sensor, its relays and an entity are
      there, and nobody else stops. */
  lemma CreateAnswers(h: Hub, draft: Config, with: Saving, now: nat)
    requires Good(h)
    ensures var a := Creating(h, draft, with, now);
            var doc := draft.(newer := false);
            && (a.report.refused.None? <==>
                  && Wired(draft) && |h.store| < with.maxControllers && !with.nameTaken && draft.id !in h.store
                  && (draft.enabled ==> SavableRefusal(h, draft).None?) && with.written)
            && (a.report.refused.None? ==>
                  && a.hub.store == h.store[doc.id := doc] && SavedAs(h, doc, a.hub, a.report.warning)
                  && Spares(h, a.hub, {}) && a.report.stopped == [])
  {
    var doc := draft.(newer := false);
    HolderOfSame(h, draft, doc);
    SavableIsUnheld(h, draft);
    hide Good, SavableRefusal, Added, SavedAs, Spares, HolderOf, Wired;
    if Creating(h, draft, with, now).report.refused.None? && Wired(draft) && draft.id !in h.store {
      WiredSame(draft, doc);
      AddedAs(h, doc, now);
    }
    AddedIsAccepted(h, doc, now);
  }

  lemma AddedIsAccepted(h: Hub, doc: Config, now: nat)
    ensures Added(h, doc, now).report.refused.None?
  {
    hide Starting;
  }

  lemma ReplacedIsAccepted(h: Hub, doc: Config, now: nat)
    ensures Replaced(h, doc, now).report.refused.None?
  {
    hide Applying, Closing;
  }

  /** A document has a relay to drive, and no relay for both directions. */
  lemma WiredMeans(c: Config)
    ensures Wired(c) <==> Named(c) != {} && (c.heat.relay.Some? && c.cool.relay.Some? ==> |Named(c)| == 2)
  {
    if c.heat.relay.Some? && c.cool.relay.Some? && c.heat.relay != c.cool.relay {
      assert Named(c) == {c.heat.relay.value, c.cool.relay.value};
    } else if c.heat.relay.Some? {
      assert Named(c) == {c.heat.relay.value};
    } else if c.cool.relay.Some? {
      assert Named(c) == {c.cool.relay.value};
    }
  }

  lemma WiredSame(c: Config, d: Config)
    requires d.heat == c.heat && d.cool == c.cool
    ensures Wired(d) == Wired(c)
  {}

  lemma HolderOfSame(h: Hub, c: Config, d: Config)
    requires d.id == c.id && d.heat == c.heat && d.cool == c.cool
    ensures HolderOf(h, d) == HolderOf(h, c)
  {}

  lemma SavableIsUnheld(h: Hub, c: Config)
    ensures SavableRefusal(h, c).None? ==> HolderOf(h, c).None?
  {
    hide HolderOf;
  }

  /** A Save likewise: an id that is there, a document this firmware can write, and whoever runs still does;
      its own thermostat runs if it may, keeping the entity it has. */
  lemma UpdateAnswers(h: Hub, id: nat, doc: Config, with: Saving, now: nat)
    requires Good(h)
    ensures var a := Updating(h, id, doc, with, now);
            var kept := doc.(id := id, newer := false);
            && (a.report.refused.None? <==>
                  && id in h.store && !h.store[id].newer && Wired(doc) && !with.nameTaken
                  && (doc.enabled ==> SavableRefusal(h, kept).None?) && with.written)
            && (a.report.refused.None? ==>
                  && a.hub.store == h.store[id := kept] && SavedAs(h, kept, a.hub, a.report.warning)
                  && a.report.stopped == [])
  {
    var kept := doc.(id := id, newer := false);
    SavableIsUnheld(h, kept);
    WiredSame(doc, kept);
    hide Good, SavableRefusal, Replaced, SavedAs, HolderOf, Wired;
    if Updating(h, id, doc, with, now).report.refused.None? && id in h.store && Wired(kept) {
      ReplacedAs(h, kept, now);
    }
    ReplacedIsAccepted(h, kept, now);
  }

  /** A backup is an update of the thermostat it names, or its creation. */
  lemma RestoreAnswers(h: Hub, doc: Config, with: Saving, now: nat)
    requires Good(h)
    ensures var a := Restoring(h, doc, with, now);
            var kept := doc.(newer := false);
            && (a.report.refused.None? <==>
                  && Wired(doc)
                  && (if doc.id in h.store then !h.store[doc.id].newer else |h.store| < with.maxControllers)
                  && !with.nameTaken && (doc.enabled ==> SavableRefusal(h, kept).None?) && with.written)
            && (a.report.refused.None? ==>
                  && a.hub.store == h.store[doc.id := kept] && SavedAs(h, kept, a.hub, a.report.warning)
                  && a.report.stopped == [])
  {
    hide Good, Creating, Updating, SavedAs, SavableRefusal;
    assert doc.(id := doc.id, newer := false) == doc.(newer := false);
    SavableSame(h, doc, doc.(newer := false));
    if doc.id in h.store {
      UpdateAnswers(h, doc.id, doc, with, now);
    } else {
      CreateAnswers(h, doc, with, now);
    }
  }

  lemma SavableSame(h: Hub, c: Config, d: Config)
    requires d == c.(newer := d.newer)
    ensures SavableRefusal(h, d) == SavableRefusal(h, c)
  {
    HolderOfSame(h, c, d);
    ReserverAmongSame(h, c, d, h.order);
    hide HolderOf, ReserverAmong;
  }

  lemma {:induction false} ReserverAmongSame(h: Hub, c: Config, d: Config, ids: seq<nat>)
    requires d == c.(newer := d.newer)
    ensures ReserverAmong(h, d, ids) == ReserverAmong(h, c, ids)
  {
    if ids != [] {
      ReserverAmongSame(h, c, d, ids[1..]);
      assert Named(d) == Named(c);
      assert Waits(h, ids[0]) ==> (Reserves(h, d, h.store[ids[0]]) <==> Reserves(h, c, h.store[ids[0]]));
    }
  }

  /** A refusal's code says what is so. */
  ghost predicate CodeIsTrue(h: Hub, doc: Config, with: Saving, refused: Refused) {
    && refused.code in {400, 404, 409, 500, 507}
    && (refused.code == 400 ==> !Wired(doc) || (doc.enabled && !Celsius(h.device, doc)))
    && (refused.code == 404 ==> doc.id !in h.store)
    && (refused.code == 409 ==>
          with.nameTaken || doc.id in h.store || (doc.enabled && exists x :: Rival(h, doc, x)))
    && (refused.code == 500 ==> !with.written)
    && (refused.code == 507 ==> |h.store| >= with.maxControllers)
  }

  lemma SavableCode(h: Hub, c: Config)
    requires Good(h)
    ensures var refused := SavableRefusal(h, c);
            refused.Some? ==>
              || (refused.value.code == 400 && !Celsius(h.device, c))
              || (refused.value.code == 409 && exists x :: Rival(h, c, x))
  {
    hide Good, Celsius, HolderOf, ReserverOf, SavableRefusal;
    SavableIs(h, c);
    ConflictIsNamed(h, c);
    hide Rival;
  }

  lemma CreateCode(h: Hub, doc: Config, with: Saving, now: nat)
    requires Good(h)
    ensures var refused := Creating(h, doc, with, now).report.refused;
            refused.Some? ==> CodeIsTrue(h, doc, with, refused.value)
  {
    hide Good, Added, Wired, Celsius, SavableRefusal, Rival;
    SavableCode(h, doc);
    AddedIsAccepted(h, doc.(newer := false), now);
  }

  lemma UpdateCode(h: Hub, doc: Config, with: Saving, now: nat)
    requires Good(h)
    ensures var refused := Updating(h, doc.id, doc, with, now).report.refused;
            refused.Some? ==> CodeIsTrue(h, doc, with, refused.value)
  {
    hide Good, Replaced, Wired, Celsius, SavableRefusal, Rival;
    var kept := doc.(id := doc.id, newer := false);
    SavableSame(h, doc, kept);
    SavableCode(h, doc);
    ReplacedIsAccepted(h, kept, now);
  }

  lemma CodesAreTrue(h: Hub, doc: Config, with: Saving, now: nat)
    requires Good(h)
    ensures var refused := Creating(h, doc, with, now).report.refused;
            refused.Some? ==> CodeIsTrue(h, doc, with, refused.value)
    ensures var refused := Updating(h, doc.id, doc, with, now).report.refused;
            refused.Some? ==> CodeIsTrue(h, doc, with, refused.value)
    ensures var refused := Restoring(h, doc, with, now).report.refused;
            refused.Some? ==> CodeIsTrue(h, doc, with, refused.value)
    ensures var refused := Removing(h, doc.id, now).report.refused;
            refused.Some? ==> refused == Some(Refused(404, None)) && doc.id !in h.store
  {
    CreateCode(h, doc, with, now);
    UpdateCode(h, doc, with, now);
    hide Good, Creating, Updating, Wired, Celsius, Rival, Closing, Stopped;
  }

  lemma DisablingIsReplaced(h: Hub, id: nat, now: nat)
    requires id in h.store && h.store[id].id == id
    ensures Disabling(h, id, now) == Replaced(h, h.store[id].(enabled := false), now)
  {}

  /** Disabled, a thermostat stops, its relays open, and nobody else stops or changes. */
  lemma DisableAnswers(h: Hub, id: nat, takeOver: bool, now: nat)
    requires Good(h) && id in h.store
    ensures var a := Enabling(h, id, false, takeOver, now);
            && a.report.refused.None? && a.report.warning.None? && a.report.stopped == []
            && a.hub.store == h.store[id := h.store[id].(enabled := false)]
            && id !in a.hub.running && LeftOpen(h, a.hub, id) && Spares(h, a.hub, {id})
  {
    var off := h.store[id].(enabled := false);
    DisablingIsReplaced(h, id, now);
    WiredSame(h.store[id], off);
    assert Wired(off) && off.id == id;
    hide Good, Replaced, Disabling, Spares, LeftOpen, Present, Wired;
    ReplacedAs(h, off, now);
  }

  /** Removed, it is gone from the store too, and its relays are open. */
  lemma RemoveAnswers(h: Hub, id: nat, now: nat)
    requires Good(h)
    ensures var a := Removing(h, id, now);
            && (a.report.refused.None? <==> id in h.store)
            && (id in h.store ==>
                  && a.hub.store == h.store - {id} && id !in a.hub.running && LeftOpen(h, a.hub, id)
                  && Spares(h, a.hub, {id}) && (forall r :: OwnerOf(a.hub, r) != Some(id)))
  {
    RemovingKeeps(h, id, now);
    if id in h.store {
      ForgottenFromGood(h, id);
      StoppedIfRunning(h, id, now);
      StoppedOrIdle(h, id, now);
      var stopped := if id in h.running then Stopped(h, id, now) else h;
      var gone := stopped.(store := stopped.store - {id}, order := RemoveId(stopped.order, id),
                           waiting := stopped.waiting - {id});
      assert Goes(stopped, gone, id);
      GoneKeepsBooks(stopped, gone, id);
      GoneCloses(stopped, gone, id);
      ClosingSettles(gone, None, now);
      NotRunningUnknown(Removing(h, id, now).hub, id);
      WaitersOwnNothing(Removing(h, id, now).hub, id);
      OwnedMeans(Removing(h, id, now).hub, id);
      hide Closing, Good, Books, Closable, LinkedBut, NoneForgotten, Stopped;
    }
  }

  lemma StoppedOrIdle(h: Hub, id: nat, now: nat)
    requires Good(h) && id in h.store
    ensures var g := if id in h.running then Stopped(h, id, now) else h;
            Spares(h, g, {id}) && LeftOpen(h, g, id)
  {
    OwnedMeans(h, id);
    if id in h.running {
      assert RunsRight(h, id) && PointsHome(h, id);
      StoppedDoes(h, id, now);
    } else {
      WaitersOwnNothing(h, id);
    }
  }

  // --- Enabling ---

  ghost predicate Unrivalled(h: Hub, c: Config) {
    forall x :: !Rival(h, c, x)
  }

  /** A climate entity is free, or becomes free with a rival that runs. */
  ghost predicate EntityToHave(h: Hub, c: Config) {
    h.free > 0 || exists x :: Rival(h, c, x) && x in h.running
  }

  /** What an enable leaves: the thermostat enabled, its rivals disabled, stopped and reported, and of the others
      every document as it was and every runner running. */
  ghost predicate EnabledOver(h: Hub, a: Answer, c: Config) {
    && a.hub.store.Keys == h.store.Keys
    && (forall x :: x in h.store ==>
          a.hub.store[x] == if x == c.id then c.(enabled := true)
                            else if Rival(h, c, x) then h.store[x].(enabled := false)
                            else h.store[x])
    && (forall x :: x in a.report.stopped <==> Rival(h, c, x))
    && (forall x :: x in h.running && !Rival(h, c, x) ==> x in a.hub.running)
    && (forall x :: Rival(h, c, x) ==> x !in a.hub.running)
  }

  /** One that does not run holds nothing, so whoever names its relays stands in its way. */
  lemma UnheldIsUnrivalled(h: Hub, c: Config)
    requires Good(h) && c.id !in h.running
    ensures HolderOf(h, c).None? && ReserverOf(h, c).None? <==> Unrivalled(h, c)
  {
    if HolderOf(h, c).Some? {
      HolderIsRival(h, c);
    } else if ReserverOf(h, c).Some? {
      ReserverIsRival(h, c);
    } else {
      forall x ensures !Rival(h, c, x) {
        if Rival(h, c, x) {
          if x in h.running {
            RunningRivalHolds(h, c, x);
          } else {
            var r :| r in Named(c) && r in Named(h.store[x]);
            WaitersShareNone(h, c, x, r);
          }
        }
      }
    }
  }

  /** Documents through a take-over: those listed are switched off, and each stood in the way. */
  ghost predicate SwitchesOff(h: Hub, g: Hub, c: Config, ids: seq<nat>) {
    && g.store.Keys == h.store.Keys
    && (forall x :: x in ids ==> Rival(h, c, x))
    && (forall x :: x in h.store ==> g.store[x] == if x in ids then h.store[x].(enabled := false) else h.store[x])
  }

  lemma RivalBefore(h: Hub, g: Hub, c: Config, ids: seq<nat>, x: nat)
    requires SwitchesOff(h, g, c, ids) && Rival(g, c, x)
    ensures Rival(h, c, x)
  {}

  lemma OffThenOff(h: Hub, g: Hub, k: Hub, c: Config, some: seq<nat>, more: seq<nat>)
    requires SwitchesOff(h, g, c, some) && SwitchesOff(g, k, c, more)
    ensures forall ids: seq<nat> :: (forall x :: x in ids <==> x in some || x in more) ==> SwitchesOff(h, k, c, ids)
  {
    forall x | x in more ensures Rival(h, c, x) {
      RivalBefore(h, g, c, some, x);
    }
    hide Rival;
  }

  lemma OneOff(h: Hub, g: Hub, c: Config, w: nat)
    requires Rival(h, c, w) && g.store == h.store[w := h.store[w].(enabled := false)]
    ensures SwitchesOff(h, g, c, [w])
  {}

  lemma {:induction false} DroppedAreRivals(h: Hub, c: Config)
    ensures SwitchesOff(h, ReserversDisabled(h, c).hub, c, ReserversDisabled(h, c).ids)
    decreases set id | id in h.store && h.store[id].enabled
  {
    var waiter := ReserverOf(h, c);
    if waiter.Some? {
      var off := Disabled(h, waiter.value);
      FewerEnabled(h, off, waiter.value);
      DroppedAreRivals(off, c);
      ReserverIsRival(h, c);
      OneOff(h, off, c, waiter.value);
      var rest := ReserversDisabled(off, c);
      OffThenOff(h, off, rest.hub, c, [waiter.value], rest.ids);
      assert ReserversDisabled(h, c) == Cleared(rest.hub, [waiter.value] + rest.ids);
      hide SwitchesOff, ReserverOf;
    }
  }

  lemma TakingHolderIsRival(h: Hub, c: Config)
    requires Taking(h, c) && HolderOf(h, c).Some?
    ensures Rival(h, c, HolderOf(h, c).value)
  {
    HolderRuns(h, c);
    HolderMeans(h, c);
    var r :| r in Named(c) && OwnerOf(h, r) == HolderOf(h, c);
    assert Rightful(h, r, {c.id});
  }

  lemma TakingOne(h: Hub, c: Config, now: nat)
    requires Taking(h, c) && HolderOf(h, c).Some?
    ensures var taken := HolderTaken(h, HolderOf(h, c).value, c, now);
            && Taking(taken, c) && SwitchesOff(h, taken, c, [HolderOf(h, c).value])
            && HeldElsewhere(taken, c) < HeldElsewhere(h, c)
  {
    var from := HolderOf(h, c).value;
    HolderRuns(h, c);
    TakingHolderIsRival(h, c);
    HolderTakenDoes(h, from, c, now);
    var taken := HolderTaken(h, from, c, now);
    TakesKeepsTaking(h, taken, from, c);
    FewerHeldElsewhere(h, taken, from, c);
    OneOff(h, taken, c, from);
    hide Taking, TakenFrom, HolderTaken, HolderOf, SwitchesOff, Rival;
  }

  lemma {:induction false} TakenAreRivals(h: Hub, c: Config, now: nat)
    requires Taking(h, c)
    ensures SwitchesOff(h, HoldersTaken(h, c, now).hub, c, HoldersTaken(h, c, now).ids)
    decreases HeldElsewhere(h, c)
  {
    hide Taking, HolderOf, HeldElsewhere, HolderTaken;
    var holder := HolderOf(h, c);
    if holder.Some? {
      TakingOne(h, c, now);
      TakenFirst(h, c, now);
      var taken := HolderTaken(h, holder.value, c, now);
      TakenAreRivals(taken, c, now);
      OffThenOff(h, taken, HoldersTaken(taken, c, now).hub, c, [holder.value], HoldersTaken(taken, c, now).ids);
      hide SwitchesOff;
    }
  }

  lemma TakenFirst(h: Hub, c: Config, now: nat)
    requires HolderOf(h, c).Some?
    ensures var taken := HolderTaken(h, HolderOf(h, c).value, c, now);
            var rest := HoldersTaken(taken, c, now);
            HoldersTaken(h, c, now) == Cleared(rest.hub, [HolderOf(h, c).value] + rest.ids)
  {}

  lemma TakenDocuments(h: Hub, dropped: Hub, c: Config, now: nat)
    requires dropped == ReserversDisabled(h, c).hub && Taking(dropped, c)
    ensures var taken := HoldersTaken(dropped, c, now);
            SwitchesOff(h, taken.hub, c, taken.ids + ReserversDisabled(h, c).ids)
  {
    hide Taking, ReserversDisabled, HoldersTaken, SwitchesOff;
    DroppedAreRivals(h, c);
    TakenAreRivals(dropped, c, now);
    var firsts, thens := ReserversDisabled(h, c).ids, HoldersTaken(dropped, c, now).ids;
    OffThenOff(h, dropped, HoldersTaken(dropped, c, now).hub, c, firsts, thens);
    assert forall x :: x in thens + firsts <==> x in firsts || x in thens;
  }

  lemma StoppedAreTaken(h: Hub, c: Config, dropped: Hub, now: nat)
    requires c.id in h.store && h.store[c.id] == c && TakingOver(h, c.id, now).report.refused.None?
    requires dropped == ReserversDisabled(h, c).hub
    ensures TakingOver(h, c.id, now).report.stopped
         == HoldersTaken(dropped, c, now).ids + ReserversDisabled(h, c).ids
  {
    NotRefused(h, c.id, now);
    hide TakingOver, HoldersTaken, ReserversDisabled, Starting, Closing, Present;
  }

  lemma AcceptedTakeOver(h: Hub, id: nat, now: nat)
    requires Good(h) && id in h.store && id !in h.running && TakingOver(h, id, now).report.refused.None?
    ensures var a := TakingOver(h, id, now);
            EnabledOver(h, a, h.store[id]) && id in a.hub.running && a.report.warning.None?
  {
    var c, dropped, taken := TakeOverSteps(h, id, now);
    hide TakingOver, Taking, ReserversDisabled, HoldersTaken, ReserverOf, HolderOf, Enabled, Drops, Gives, ClearOf,
         SwitchesOff, EnabledOver, Good, Present;
    TakenDocuments(h, dropped, c, now);
    StoppedAreTaken(h, c, dropped, now);
    var ids := HoldersTaken(dropped, c, now).ids + ReserversDisabled(h, c).ids;
    TakeOverClear(h, id, now);
    OthersAfter(h, dropped, taken, TakingOver(h, id, now), c, ids);
  }

  lemma OthersAfter(h: Hub, dropped: Hub, taken: Hub, a: Answer, c: Config, ids: seq<nat>)
    requires Good(h) && c.id in h.store && h.store[c.id] == c && c.id !in h.running
    requires Drops(h, dropped, c) && Gives(dropped, taken, c) && RunsAfter(taken, a, c) && ClearOf(a.hub, c)
    requires SwitchesOff(h, taken, c, ids) && a.report.stopped == ids
    ensures EnabledOver(h, a, c)
  {
    RivalsAreOff(h, taken, a, c, ids);
    forall x | x in h.running && !Rival(h, c, x) ensures x in a.hub.running {
      assert RunsRight(h, x);
    }
    forall x | Rival(h, c, x) ensures x !in a.hub.running {
      assert !a.hub.store[x].enabled;
    }
  }

  lemma RivalsAreOff(h: Hub, taken: Hub, a: Answer, c: Config, ids: seq<nat>)
    requires RunsAfter(taken, a, c) && ClearOf(a.hub, c) && SwitchesOff(h, taken, c, ids)
    ensures forall x :: x in ids <==> Rival(h, c, x)
  {
    assert forall x :: Rival(h, c, x) && x !in ids ==> Rival(taken, c, x) && Rival(a.hub, c, x);
  }

  /** An enable without rivals. */
  lemma AcceptedEnable(h: Hub, id: nat, now: nat)
    requires Good(h) && id in h.store && id !in h.running && Unrivalled(h, h.store[id])
    ensures var a := Enabled(h, id, [], now);
            && a.report.refused.None? && EnabledOver(h, a, h.store[id])
            && (id in a.hub.running <==> Present(h.device, h.store[id]) && h.free > 0)
            && (a.report.warning.None? <==> id in a.hub.running)
  {
    var c := h.store[id];
    var on := c.(enabled := true);
    UnheldIsUnrivalled(h, c);
    HolderOfSame(h, c, on);
    EnabledIsReplaced(h, id, now);
    WiredSame(c, on);
    assert Wired(on) && on.id == id && Named(on) == Named(c) && Unrivalled(h, c);
    hide Good, Enabled, Replaced, HolderOf, ReserverOf, Wired, Named, Rival, Unrivalled, LeftOpen;
    ReplacedAs(h, on, now);
    NoRivals(h, Enabled(h, id, [], now), c);
  }

  lemma NoRivals(h: Hub, a: Answer, c: Config)
    requires Unrivalled(h, c) && a.hub.store == h.store[c.id := c.(enabled := true)] && c.id in h.store
    requires a.report.stopped == [] && Spares(h, a.hub, {c.id}) && c.id !in h.running
    ensures EnabledOver(h, a, c)
  {
    hide Rival;
  }

  lemma EnablingIs(h: Hub, id: nat, takeOver: bool, now: nat)
    requires Good(h) && id in h.store && id !in h.running
    ensures var c := h.store[id];
            var a := Enabling(h, id, true, takeOver, now);
            && (!Celsius(h.device, c) ==> a == Refuse(h, Refused(400, None)))
            && (Celsius(h.device, c) && Unrivalled(h, c) ==> a == Enabled(h, id, [], now))
            && (Celsius(h.device, c) && !Unrivalled(h, c) ==>
                  if takeOver then a == TakingOver(h, id, now)
                  else a.hub == h && a.report.refused.Some? && IsConflict(h, c, a.report.refused.value))
  {
    assert h.store[id].id == id;
    hide Enabled, TakingOver, Good, Unrivalled, HolderOf, ReserverOf, IsConflict, Rival, SavableRefusal, Celsius;
    UnheldIsUnrivalled(h, h.store[id]);
    ConflictIsNamed(h, h.store[id]);
    SavableIs(h, h.store[id]);
  }

  /** Asked to enable a thermostat that does not run, the hub refuses a sensor not in °C; a rival too, unless asked
      to take over, and it can: sensor and relays there, and an entity to have. Refused, it is as it was. Else the
      thermostat is enabled, its rivals are disabled and stopped and nobody else is touched, and it runs exactly if
      it can. */
  lemma EnableAnswers(h: Hub, id: nat, takeOver: bool, now: nat)
    requires Good(h) && id in h.store && id !in h.running
    ensures var c := h.store[id];
            var a := Enabling(h, id, true, takeOver, now);
            && (a.report.refused.None? <==>
                  && Celsius(h.device, c)
                  && (Unrivalled(h, c) || (takeOver && Present(h.device, c) && EntityToHave(h, c))))
            && (a.report.refused.Some? ==> a.hub == h)
            && (a.report.refused.Some? && Celsius(h.device, c) && !takeOver ==>
                  IsConflict(h, c, a.report.refused.value))
            && (a.report.refused.None? ==>
                  && EnabledOver(h, a, c)
                  && (id in a.hub.running <==> Present(h.device, c) && EntityToHave(h, c))
                  && (a.report.warning.None? <==> id in a.hub.running))
  {
    var c := h.store[id];
    assert c.id == id;
    hide Enabling, Enabled, TakingOver, Good, HolderOf, ReserverOf, EnabledOver, Rival, Present, IsConflict, Celsius,
         Unrivalled;
    EnablingIs(h, id, takeOver, now);
    UnheldIsUnrivalled(h, c);
    HolderMeansRunner(h, c);
    TakingOverRefuses(h, id, now);
    if Celsius(h.device, c) && Unrivalled(h, c) {
      AcceptedEnable(h, id, now);
    } else if Celsius(h.device, c) && takeOver && TakingOver(h, id, now).report.refused.None? {
      AcceptedTakeOver(h, id, now);
    }
  }

  lemma TakingOverRefuses(h: Hub, id: nat, now: nat)
    requires id in h.store
    ensures var c := h.store[id];
            TakingOver(h, id, now).report.refused
              == if !Present(h.device, c) then Some(Refused(400, None))
                 else if h.free == 0 && HolderOf(h, c).None? then Some(Refused(409, None))
                 else None
    ensures TakingOver(h, id, now).report.refused.Some? ==> TakingOver(h, id, now).hub == h
  {
    hide HoldersTaken, ReserversDisabled, Present, HolderOf;
    EnabledAccepts(HoldersTaken(ReserversDisabled(h, h.store[id]).hub, h.store[id], now).hub, id, [], now);
  }

  lemma EnabledAccepts(h: Hub, id: nat, stopped: seq<nat>, now: nat)
    requires id in h.store
    ensures Enabled(h, id, stopped, now).report.refused.None?
  {
    hide Starting, Closing;
  }
}
