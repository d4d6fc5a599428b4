/** Every relay of the hub over whole runs (components/climate_hub/climate_hub.cpp): what boot, every
    mutator with the sweeps at its end, and every control pass do to one relay is a walk through
    that relay's life, so no run of the hub, whoever holds the relay in turn, cycles it short. */
module HubLives {
  import opened Options
  import opened R = RelayClaims
  import opened HubState
  import opened HubRuns
  import opened HubRelays

  // --- One relay: walks that never drive it ---

  /** Driving is what a pass does; nothing else closes a relay. */
  predicate Gentle(ops: seq<Op>) {
    forall i :: 0 <= i < |ops| ==> !ops[i].Driving?
  }

  function Walked(l: Life, ops: seq<Op>, now: nat): Life {
    if ops == [] then l else Drive(Walked(l, ops[..|ops| - 1], now), TimedOp.At(now, ops[|ops| - 1]))
  }

  ghost predicate Reaches(l: Life, m: Life, now: nat) {
    exists ops :: Gentle(ops) && Walked(l, ops, now) == m
  }

  /** A claim knows where its relay is from the start. */
  predicate Initialized(l: Life) {
    l.claim.Some? ==> l.claim.value.initialized
  }

  lemma ReachesSelf(l: Life, now: nat)
    ensures Reaches(l, l, now)
  {
    assert Gentle([]) && Walked(l, [], now) == l;
  }

  lemma ReachesBy(l: Life, op: Op, now: nat)
    requires !op.Driving?
    ensures Reaches(l, Drive(l, TimedOp.At(now, op)), now)
  {
    hide Drive;
    var ops := [op];
    assert ops[..0] == [];
    assert Gentle(ops) && Walked(l, ops, now) == Drive(l, TimedOp.At(now, op));
  }

  lemma {:induction false} WalkedOn(l: Life, a: seq<Op>, b: seq<Op>, now: nat)
    ensures Walked(l, a + b, now) == Walked(Walked(l, a, now), b, now)
    decreases |b|
  {
    hide Drive;
    if b == [] {
      assert a + b == a;
    } else {
      WalkedOn(l, a, b[..|b| - 1], now);
      assert (a + b)[..|a + b| - 1] == a + b[..|b| - 1];
    }
  }

  lemma ReachesThen(l: Life, m: Life, n: Life, now: nat)
    requires Reaches(l, m, now) && Reaches(m, n, now)
    ensures Reaches(l, n, now)
  {
    hide Walked;
    var a :| Gentle(a) && Walked(l, a, now) == m;
    var b :| Gentle(b) && Walked(m, b, now) == n;
    WalkedOn(l, a, b, now);
    assert Gentle(a + b);
  }

  lemma DriveKeepsInitialized(l: Life, t: TimedOp)
    requires Initialized(l)
    ensures Initialized(Drive(l, t))
  {}

  lemma {:induction false} WalkKeepsInitialized(l: Life, ops: seq<Op>, now: nat)
    requires Initialized(l)
    ensures Initialized(Walked(l, ops, now))
  {
    hide Drive;
    if ops != [] {
      WalkKeepsInitialized(l, ops[..|ops| - 1], now);
      DriveKeepsInitialized(Walked(l, ops[..|ops| - 1], now), TimedOp.At(now, ops[|ops| - 1]));
    }
  }

  // --- All relays of the hub ---

  ghost predicate LivesOn(h: Hub, g: Hub, now: nat) {
    forall r :: Initialized(LifeOf(h, r)) ==> Reaches(LifeOf(h, r), LifeOf(g, r), now)
  }

  lemma LivesThen(h: Hub, g: Hub, k: Hub, now: nat)
    requires LivesOn(h, g, now) && LivesOn(g, k, now)
    ensures LivesOn(h, k, now)
  {
    hide LifeOf, Reaches;
    forall r | Initialized(LifeOf(h, r)) ensures Reaches(LifeOf(h, r), LifeOf(k, r), now) {
      ReachedIsInitialized(LifeOf(h, r), LifeOf(g, r), now);
      ReachesThen(LifeOf(h, r), LifeOf(g, r), LifeOf(k, r), now);
    }
  }

  lemma ReachedIsInitialized(l: Life, m: Life, now: nat)
    requires Initialized(l) && Reaches(l, m, now)
    ensures Initialized(m)
  {
    hide Walked;
    var ops :| Gentle(ops) && Walked(l, ops, now) == m;
    WalkKeepsInitialized(l, ops, now);
  }

  lemma LivesAside(h: Hub, g: Hub, now: nat)
    requires g.claims == h.claims && g.history == h.history && g.shut == h.shut
    ensures LivesOn(h, g, now)
  {
    hide Reaches;
    forall r: nat ensures Reaches(LifeOf(h, r), LifeOf(g, r), now) {
      ReachesSelf(LifeOf(h, r), now);
    }
  }

  // --- The steps of the allocator ---

  lemma LetGoLives(h: Hub, rs: set<nat>, now: nat)
    requires rs <= h.claims.Keys
    ensures LivesOn(h, RelaysLetGo(h, rs, now), now)
  {
    hide Reaches, Drive;
    forall r | Initialized(LifeOf(h, r)) ensures Reaches(LifeOf(h, r), LifeOf(RelaysLetGo(h, rs, now), r), now) {
      if r in rs {
        LetGoIsLife(h, rs, now, r);
        ReachesBy(LifeOf(h, r), LetGo, now);
      } else {
        ReachesSelf(LifeOf(h, r), now);
      }
    }
  }

  lemma OpenedLives(h: Hub, relay: Option<nat>, now: nat)
    ensures LivesOn(h, OpenedAt(h, relay, now), now)
  {
    hide Reaches, ForcedOff;
    forall r: nat ensures Reaches(LifeOf(h, r), LifeOf(OpenedAt(h, relay, now), r), now) {
      if relay == Some(r) && r in h.claims {
        OpenedIsOpen(h, r, now);
        ReachesBy(LifeOf(h, r), CutOut(false), now);
      } else {
        ReachesSelf(LifeOf(h, r), now);
      }
    }
  }

  lemma OpenedIsOpen(h: Hub, r: nat, now: nat)
    requires r in h.claims
    ensures LifeOf(OpenedAt(h, Some(r), now), r) == Drive(LifeOf(h, r), TimedOp.At(now, CutOut(false)))
  {}

  lemma ClaimedLives(h: Hub, id: nat, out: Output, now: nat)
    ensures LivesOn(h, ClaimedOutput(h, id, out), now)
  {
    hide Reaches;
    forall r: nat ensures Reaches(LifeOf(h, r), LifeOf(ClaimedOutput(h, id, out), r), now) {
      if out.relay == Some(r) && r !in h.claims {
        assert LifeOf(ClaimedOutput(h, id, out), r) == Drive(LifeOf(h, r), TimedOp.At(now, Claimed(0, 0)));
        ReachesBy(LifeOf(h, r), Claimed(0, 0), now);
      } else {
        ReachesSelf(LifeOf(h, r), now);
      }
    }
  }

  lemma DwelledLives(h: Hub, out: Output, now: nat)
    ensures LivesOn(h, DwelledOutput(h, out), now)
  {
    hide Reaches;
    forall r: nat ensures Reaches(LifeOf(h, r), LifeOf(DwelledOutput(h, out), r), now) {
      if out.relay == Some(r) && r in h.claims {
        ReachesBy(LifeOf(h, r), Saved(out.minOn, out.minOff), now);
      } else {
        ReachesSelf(LifeOf(h, r), now);
      }
    }
  }

  lemma HandedLives(h: Hub, from: nat, to: Config, out: Output, now: nat)
    ensures LivesOn(h, HandedOutput(h, from, to, out), now)
  {
    hide Reaches;
    forall r: nat ensures Reaches(LifeOf(h, r), LifeOf(HandedOutput(h, from, to, out), r), now) {
      if out.relay == Some(r) && r in h.claims && h.claims[r].owner == from {
        var c := h.claims[r].claim;
        ReachesBy(LifeOf(h, r), TakenOver(c.minOn, c.minOff), now);
      } else {
        ReachesSelf(LifeOf(h, r), now);
      }
    }
  }

  // --- The operations ---

  lemma TakenUpLives(h: Hub, c: Config, now: nat)
    ensures LivesOn(h, Claiming(h, c), now) && LivesOn(h, Dwelled(h, c), now)
  {
    hide LivesOn, ClaimedOutput, DwelledOutput;
    var first := ClaimedOutput(h, c.id, c.heat);
    ClaimedLives(h, c.id, c.heat, now);
    ClaimedLives(first, c.id, c.cool, now);
    LivesThen(h, first, Claiming(h, c), now);
    var second := DwelledOutput(h, c.heat);
    DwelledLives(h, c.heat, now);
    DwelledLives(second, c.cool, now);
    LivesThen(h, second, Dwelled(h, c), now);
  }

  lemma StartedLives(h: Hub, c: Config, now: nat)
    requires h.free > 0
    ensures LivesOn(h, Started(h, c), now)
  {
    hide LivesOn, Claiming, Dwelled;
    var claimed := Claiming(h, c);
    var dwelled := Dwelled(claimed, c);
    TakenUpLives(h, c, now);
    TakenUpLives(claimed, c, now);
    LivesThen(h, claimed, dwelled, now);
    LivesAside(dwelled, Started(h, c), now);
    LivesThen(h, dwelled, Started(h, c), now);
  }

  lemma ReleasedLives(h: Hub, id: nat, now: nat)
    ensures LivesOn(h, Released(h, id, now), now)
  {
    hide LivesOn, RelaysLetGo;
    LetGoLives(h, Owned(h, id), now);
  }

  lemma StartingLives(h: Hub, c: Config, now: nat)
    ensures LivesOn(h, Starting(h, c, now).hub, now)
  {
    hide LivesOn, Released, Started, Refusal;
    LivesAside(h, h, now);
    ReleasedLives(h, c.id, now);
    if h.free > 0 {
      StartedLives(h, c, now);
    }
  }

  lemma StoppedLives(h: Hub, id: nat, now: nat)
    requires id in h.running
    ensures LivesOn(h, Stopped(h, id, now), now)
  {
    hide LivesOn, OpenedAt, Released;
    var heat := OpenedAt(h, h.running[id].heat, now);
    var open := OpenedAt(heat, h.running[id].cool, now);
    OpenedLives(h, h.running[id].heat, now);
    OpenedLives(heat, h.running[id].cool, now);
    LivesThen(h, heat, open, now);
    ReleasedLives(open, id, now);
    LivesThen(h, open, Released(open, id, now), now);
    LivesAside(Released(open, id, now), Stopped(h, id, now), now);
    LivesThen(h, Released(open, id, now), Stopped(h, id, now), now);
  }

  lemma RestartingLives(h: Hub, c: Config, now: nat)
    requires c.id in h.running
    ensures LivesOn(h, Restarting(h, c, now).hub, now)
  {
    hide LivesOn, Stopped, Claiming, Dwelled, RelaysLetGo, Refusal;
    StoppedLives(h, c.id, now);
    var claimed := Claiming(h, c);
    var kept := RelaysLetGo(claimed, Owned(claimed, c.id) - Named(c), now);
    TakenUpLives(h, c, now);
    LetGoLives(claimed, Owned(claimed, c.id) - Named(c), now);
    LivesThen(h, claimed, kept, now);
    TakenUpLives(kept, c, now);
    LivesThen(h, kept, Dwelled(kept, c), now);
    LivesAside(Dwelled(kept, c), Running(Dwelled(kept, c), c), now);
    LivesThen(h, Dwelled(kept, c), Running(Dwelled(kept, c), c), now);
  }

  lemma NotedLives(h: Hub, a: Attempt, id: nat, now: nat)
    requires LivesOn(h, a.hub, now)
    ensures LivesOn(h, Noted(a, id), now)
  {
    hide LivesOn;
    LivesAside(a.hub, Noted(a, id), now);
    LivesThen(h, a.hub, Noted(a, id), now);
  }

  lemma TriedLives(s: Sweep, id: nat, now: nat)
    requires id in s.hub.store
    ensures LivesOn(s.hub, Tried(s, id, now).hub, now)
  {
    hide LivesOn, Starting, Noted;
    StartingLives(s.hub, s.hub.store[id], now);
    NotedLives(s.hub, Starting(s.hub, s.hub.store[id], now), id, now);
  }

  lemma {:induction false} SweepRelaysLives(s: Sweep, ids: seq<nat>, skip: Option<nat>, now: nat)
    ensures LivesOn(s.hub, SweepRelays(s, ids, skip, now).hub, now)
    decreases |ids|
  {
    hide LivesOn, Tried, Touched;
    LivesAside(s.hub, s.hub, now);
    if ids != [] {
      var id := ids[0];
      var tried := if Waits(s.hub, id) && Some(id) != skip && Touched(s.hub, id) then Tried(s, id, now) else s;
      if id in s.hub.store {
        TriedLives(s, id, now);
      }
      SweepRelaysLives(tried, ids[1..], skip, now);
      LivesThen(s.hub, tried.hub, SweepRelays(s, ids, skip, now).hub, now);
    }
  }

  lemma {:induction false} SweepEntitiesLives(s: Sweep, ids: seq<nat>, skip: Option<nat>, now: nat)
    ensures LivesOn(s.hub, SweepEntities(s, ids, skip, now).hub, now)
    decreases |ids|
  {
    hide LivesOn, Tried, WaitsForEntity;
    LivesAside(s.hub, s.hub, now);
    if ids != [] && s.hub.free != 0 {
      var id := ids[0];
      var tried := if Waits(s.hub, id) && Some(id) != skip && WaitsForEntity(s.hub, id) then Tried(s, id, now) else s;
      if id in s.hub.store {
        TriedLives(s, id, now);
      }
      SweepEntitiesLives(tried, ids[1..], skip, now);
      LivesThen(s.hub, tried.hub, SweepEntities(s, ids, skip, now).hub, now);
    }
  }

  lemma ClosingLives(h: Hub, skip: Option<nat>, now: nat)
    ensures LivesOn(h, Closing(h, skip, now).hub, now)
  {
    hide LivesOn, SweepRelays, SweepEntities;
    var begin := Sweep(h.(entityFreed := false), []);
    var relays := RelaysSwept(h, skip, now);
    LivesAside(h, begin.hub, now);
    SweepRelaysLives(begin, h.order, skip, now);
    LivesThen(h, begin.hub, SweepRelays(begin, h.order, skip, now).hub, now);
    SweepEntitiesLives(relays, h.order, skip, now);
    LivesThen(h, relays.hub, SweepEntities(relays, h.order, skip, now).hub, now);
    var swept := WaitersStarted(h, skip, now);
    LivesAside(swept.hub, Announced(swept).hub, now);
    LivesThen(h, swept.hub, Announced(swept).hub, now);
  }

  // --- The mutators ---

  /** A mutator's own work, noted, then the waiters' turn. */
  lemma EndLives(h: Hub, g: Hub, skip: Option<nat>, now: nat)
    requires LivesOn(h, g, now)
    ensures LivesOn(h, Closing(g, skip, now).hub, now)
  {
    hide LivesOn, Closing;
    ClosingLives(g, skip, now);
    LivesThen(h, g, Closing(g, skip, now).hub, now);
  }

  lemma AddedLives(h: Hub, doc: Config, now: nat)
    ensures LivesOn(h, Added(h, doc, now).hub, now)
  {
    hide LivesOn, Starting, Noted, InsertId;
    var stored := h.(store := h.store[doc.id := doc], order := InsertId(h.order, doc.id));
    LivesAside(h, stored, now);
    StartingLives(stored, doc, now);
    LivesThen(h, stored, Starting(stored, doc, now).hub, now);
    NotedLives(h, if doc.enabled then Starting(stored, doc, now) else Attempt(stored, None), doc.id, now);
  }

  lemma ApplyingLives(h: Hub, doc: Config, now: nat)
    ensures LivesOn(h, Applying(h, doc, now).hub, now)
  {
    hide LivesOn, Starting, Restarting, Stopped;
    var stored := h.(store := h.store[doc.id := doc],
                     waiting := if doc.enabled then h.waiting else h.waiting - {doc.id});
    LivesAside(h, stored, now);
    StartingLives(stored, doc, now);
    LivesThen(h, stored, Starting(stored, doc, now).hub, now);
    if doc.id in h.running {
      StoppedLives(stored, doc.id, now);
      LivesThen(h, stored, Stopped(stored, doc.id, now), now);
      RestartingLives(stored, doc, now);
      LivesThen(h, stored, Restarting(stored, doc, now).hub, now);
    }
  }

  lemma ReplacedLives(h: Hub, doc: Config, now: nat)
    ensures LivesOn(h, Replaced(h, doc, now).hub, now)
  {
    hide LivesOn, Applying, Noted, Closing;
    ApplyingLives(h, doc, now);
    NotedLives(h, Applying(h, doc, now), doc.id, now);
    EndLives(h, Noted(Applying(h, doc, now), doc.id), Some(doc.id), now);
  }

  lemma SavingLives(h: Hub, id: nat, doc: Config, with: Saving, now: nat)
    ensures LivesOn(h, Creating(h, doc, with, now).hub, now) && LivesOn(h, Updating(h, id, doc, with, now).hub, now)
  {
    hide LivesOn, Added, Replaced, SavableRefusal;
    LivesAside(h, h, now);
    AddedLives(h, doc.(newer := false), now);
    ReplacedLives(h, doc.(id := id, newer := false), now);
  }

  lemma RemovingLives(h: Hub, id: nat, now: nat)
    ensures LivesOn(h, Removing(h, id, now).hub, now)
  {
    hide LivesOn, Stopped, Closing, RemoveId;
    LivesAside(h, h, now);
    if id in h.running {
      StoppedLives(h, id, now);
    }
    if id in h.store {
      var stopped := if id in h.running then Stopped(h, id, now) else h;
      var gone := stopped.(store := stopped.store - {id}, order := RemoveId(stopped.order, id),
                           waiting := stopped.waiting - {id});
      LivesAside(stopped, gone, now);
      LivesThen(h, stopped, gone, now);
      EndLives(h, gone, None, now);
    }
  }

  lemma DisablingLives(h: Hub, id: nat, now: nat)
    requires id in h.store
    ensures LivesOn(h, Disabling(h, id, now).hub, now)
  {
    hide LivesOn, Stopped, Closing;
    var off := Disabled(h, id);
    LivesAside(h, off, now);
    if id in off.running {
      StoppedLives(off, id, now);
      LivesThen(h, off, Stopped(off, id, now), now);
      EndLives(h, Stopped(off, id, now), Some(id), now);
    } else {
      EndLives(h, off, Some(id), now);
    }
  }

  lemma HandOverLives(h: Hub, from: nat, to: Config, now: nat)
    ensures LivesOn(h, HandOver(h, from, to), now)
  {
    hide LivesOn, HandedOutput;
    var first := HandedOutput(h, from, to, to.heat);
    HandedLives(h, from, to, to.heat, now);
    HandedLives(first, from, to, to.cool, now);
    LivesThen(h, first, HandOver(h, from, to), now);
  }

  lemma HolderTakenLives(h: Hub, from: nat, to: Config, now: nat)
    ensures LivesOn(h, HolderTaken(h, from, to, now), now)
  {
    hide LivesOn, HandOver, Stopped, Released;
    var off := if from in h.store then Disabled(h, from) else h;
    LivesAside(h, off, now);
    var handed := HandOver(off, from, to);
    HandOverLives(off, from, to, now);
    LivesThen(h, off, handed, now);
    if from in handed.running {
      StoppedLives(handed, from, now);
    } else {
      ReleasedLives(handed, from, now);
    }
    LivesThen(h, handed, HolderTaken(h, from, to, now), now);
  }

  lemma {:induction false} DroppedLives(h: Hub, c: Config, now: nat)
    ensures LivesOn(h, ReserversDisabled(h, c).hub, now)
    decreases set id | id in h.store && h.store[id].enabled
  {
    hide LivesOn;
    var waiter := ReserverOf(h, c);
    LivesAside(h, h, now);
    if waiter.Some? {
      var off := Disabled(h, waiter.value);
      LivesAside(h, off, now);
      assert (set id | id in off.store && off.store[id].enabled)
          == (set id | id in h.store && h.store[id].enabled) - {waiter.value};
      DroppedLives(off, c, now);
      LivesThen(h, off, ReserversDisabled(off, c).hub, now);
    }
  }

  lemma {:induction false} HoldersTakenLives(h: Hub, c: Config, now: nat)
    ensures LivesOn(h, HoldersTaken(h, c, now).hub, now)
    decreases HeldElsewhere(h, c)
  {
    hide LivesOn, HolderTaken;
    var holder := HolderOf(h, c);
    LivesAside(h, h, now);
    if holder.Some? {
      var taken := HolderTaken(h, holder.value, c, now);
      HolderTakenLives(h, holder.value, c, now);
      HolderTakenOwners(h, holder.value, c, now);
      FewerHeldElsewhere(h, taken, holder.value, c);
      HoldersTakenLives(taken, c, now);
      LivesThen(h, taken, HoldersTaken(taken, c, now).hub, now);
    }
  }

  lemma EnabledLives(h: Hub, id: nat, stopped: seq<nat>, now: nat)
    requires id in h.store
    ensures LivesOn(h, Enabled(h, id, stopped, now).hub, now)
  {
    hide LivesOn, Starting, Noted, Closing;
    var on := h.(store := h.store[id := h.store[id].(enabled := true)]);
    LivesAside(h, on, now);
    StartingLives(on, on.store[id], now);
    LivesThen(h, on, Starting(on, on.store[id], now).hub, now);
    NotedLives(h, Starting(on, on.store[id], now), id, now);
    EndLives(h, Noted(Starting(on, on.store[id], now), id), Some(id), now);
  }

  lemma TakingOverLives(h: Hub, id: nat, now: nat)
    requires id in h.store
    ensures LivesOn(h, TakingOver(h, id, now).hub, now)
  {
    hide LivesOn, ReserversDisabled, HoldersTaken, Enabled, Present, HolderOf;
    var c := h.store[id];
    var dropped := ReserversDisabled(h, c);
    var taken := HoldersTaken(dropped.hub, c, now);
    LivesAside(h, h, now);
    DroppedLives(h, c, now);
    HoldersTakenLives(dropped.hub, c, now);
    LivesThen(h, dropped.hub, taken.hub, now);
    EnabledLives(taken.hub, id, taken.ids + dropped.ids, now);
    LivesThen(h, taken.hub, Enabled(taken.hub, id, taken.ids + dropped.ids, now).hub, now);
  }

  lemma EnablingLives(h: Hub, id: nat, enabled: bool, takeOver: bool, now: nat)
    ensures LivesOn(h, Enabling(h, id, enabled, takeOver, now).hub, now)
  {
    hide LivesOn, Disabling, Enabled, TakingOver, SavableRefusal;
    LivesAside(h, h, now);
    if id in h.store {
      DisablingLives(h, id, now);
      EnabledLives(h, id, [], now);
      TakingOverLives(h, id, now);
    }
  }

  /** Whatever mutator it is, each relay of the hub only walks on through its life. */
  lemma MutatorLives(h: Hub, e: HubRuns.Event, now: nat)
    requires !e.Elsewhere?
    ensures LivesOn(h, Step(h, e, now), now)
  {
    hide LivesOn, Creating, Updating, Removing, Enabling;
    match e
    case Create(draft, with) => SavingLives(h, draft.id, draft, with, now);
    case Update(id, doc, with) => SavingLives(h, id, doc, with, now);
    case Restore(doc, with) => SavingLives(h, doc.id, doc, with, now); LivesAside(h, h, now);
    case Remove(id) => RemovingLives(h, id, now);
    case SetEnabled(id, enabled, takeOver) => EnablingLives(h, id, enabled, takeOver, now);
  }

  lemma {:induction false} BootLives(h: Hub, ids: seq<nat>, now: nat)
    ensures LivesOn(h, Booted(h, ids, now), now)
    decreases |ids|
  {
    hide LivesOn, Starting, Noted;
    LivesAside(h, h, now);
    if ids != [] {
      var id := ids[0];
      var g := if Waits(h, id) then Noted(Starting(h, h.store[id], now), id) else h;
      if id in h.store {
        StartingLives(h, h.store[id], now);
        NotedLives(h, Starting(h, h.store[id], now), id, now);
      }
      BootLives(g, ids[1..], now);
      LivesThen(h, g, Booted(h, ids, now), now);
    }
  }

  // --- Passes ---

  /** A mutator, or one pass of the control loops over the relays they hold. */
  datatype Act = Mutator(event: HubRuns.Event) | Pass(moves: map<nat, Op>)

  datatype TimedAct = TimedAct(ms: nat, act: Act)

  /** Nothing from outside moves a relay, and a pass drives relays or cuts them out. */
  predicate Ordinary(a: Act) {
    match a
    case Mutator(e) => !e.Elsewhere?
    case Pass(moves) => forall r :: r in moves ==> moves[r].Driving? || moves[r].CutOut?
  }

  function Moves(h: Hub, moves: map<nat, Op>): set<nat> {
    set r | r in moves && r in h.claims && (moves[r].Driving? || moves[r].CutOut?)
  }

  function Passed(h: Hub, moves: map<nat, Op>, now: nat): Hub {
    var moved := Moves(h, moves);
    h.(claims := map r | r in h.claims ::
         if r in moved then h.claims[r].(claim := Drive(LifeOf(h, r), TimedOp.At(now, moves[r])).claim.value)
         else h.claims[r],
       shut := (h.shut - moved) + set r | r in moved && Drive(LifeOf(h, r), TimedOp.At(now, moves[r])).relay)
  }

  lemma PassedLife(h: Hub, moves: map<nat, Op>, now: nat, r: nat)
    ensures LifeOf(Passed(h, moves, now), r)
         == if r in Moves(h, moves) then Drive(LifeOf(h, r), TimedOp.At(now, moves[r])) else LifeOf(h, r)
  {
    hide Requested, ForcedOff;
  }

  function Acted(h: Hub, t: TimedAct): Hub {
    match t.act
    case Mutator(e) => Step(h, e, t.ms)
    case Pass(moves) => Passed(h, moves, t.ms)
  }

  // --- Runs, watched at one relay ---

  function HubAfter(h: Hub, ts: seq<TimedAct>): Hub {
    if ts == [] then h else Acted(HubAfter(h, ts[..|ts| - 1]), ts[|ts| - 1])
  }

  /** What an observer of the contact sees from one state of the hub to the next. */
  function Seen(w: Watched, next: Life, now: nat): Watched {
    Watched(next,
            if w.life.relay && !next.relay then now else w.openedAt,
            if !w.life.relay && next.relay then now else w.closedAt,
            now)
  }

  function Watching(h: Hub, boot: nat, ts: seq<TimedAct>, r: nat): Watched {
    if ts == [] then Watched(LifeOf(h, r), 0, 0, boot)
    else Seen(Watching(h, boot, ts[..|ts| - 1], r), LifeOf(HubAfter(h, ts), r), ts[|ts| - 1].ms)
  }

  predicate Ordered(boot: nat, ts: seq<TimedAct>) {
    ts != [] ==>
      var before, last := ts[..|ts| - 1], ts[|ts| - 1];
      && Ordered(boot, before) && Ordinary(last.act)
      && (if before == [] then boot else before[|before| - 1].ms) <= last.ms
  }

  function ClockAfter(boot: nat, ts: seq<TimedAct>): nat {
    if ts == [] then boot else ts[|ts| - 1].ms
  }

  /** The steps of a life that come out as what the observer saw. */
  ghost predicate Tells(story: seq<TimedOp>, w: Watched) {
    && R.Forward(story) && (story != [] ==> story[|story| - 1].ms <= w.clock)
    && var l := Lived(story);
       l.life == w.life && l.openedAt == w.openedAt && l.closedAt == w.closedAt
  }

  lemma ToldIsTruthful(story: seq<TimedOp>, w: Watched)
    requires Tells(story, w)
    ensures Truthful(w)
  {
    ClaimsAreTruthful(story);
  }

  lemma GentleNeverCloses(w: Watched, t: TimedOp)
    requires Truthful(w) && w.clock <= t.ms && !t.op.Driving?
    ensures Drive(w.life, t).relay ==> w.life.relay
  {}

  /** One more step told. */
  lemma Told(story: seq<TimedOp>, w: Watched, t: TimedOp)
    requires Tells(story, w) && w.clock <= t.ms
    ensures Tells(story + [t], Seen(w, Drive(w.life, t), t.ms))
  {
    hide Drive;
    var more := story + [t];
    assert more[..|story|] == story;
    assert forall i :: 0 <= i < |story| ==> more[i] == story[i];
  }

  /** Told step by step, a gentle walk is seen as one: the contact opens in it at most once. */
  lemma {:induction false} WalkTold(story: seq<TimedOp>, w: Watched, ops: seq<Op>, now: nat)
    returns (more: seq<TimedOp>)
    requires Tells(story, w) && w.clock <= now && Gentle(ops)
    ensures Tells(more, Seen(w, Walked(w.life, ops, now), now))
    ensures Walked(w.life, ops, now).relay ==> w.life.relay
    decreases |ops|
  {
    hide Drive;
    if ops == [] {
      more := story;
    } else {
      var before, op := ops[..|ops| - 1], ops[|ops| - 1];
      more := WalkTold(story, w, before, now);
      var mid := Seen(w, Walked(w.life, before, now), now);
      ToldIsTruthful(more, mid);
      GentleNeverCloses(mid, TimedOp.At(now, op));
      Told(more, mid, TimedOp.At(now, op));
      more := more + [TimedOp.At(now, op)];
    }
  }

  lemma MutatorTold(story: seq<TimedOp>, w: Watched, h: Hub, e: HubRuns.Event, now: nat, r: nat)
    returns (more: seq<TimedOp>)
    requires Tells(story, w) && w.clock <= now && w.life == LifeOf(h, r) && !e.Elsewhere?
    ensures Tells(more, Seen(w, LifeOf(Step(h, e, now), r), now))
    ensures LifeOf(Step(h, e, now), r).relay ==> w.life.relay
  {
    hide Step, Walked, Tells;
    ToldIsTruthful(story, w);
    MutatorLives(h, e, now);
    assert Reaches(w.life, LifeOf(Step(h, e, now), r), now);
    var ops :| Gentle(ops) && Walked(w.life, ops, now) == LifeOf(Step(h, e, now), r);
    more := WalkTold(story, w, ops, now);
  }

  lemma PassTold(story: seq<TimedOp>, w: Watched, h: Hub, moves: map<nat, Op>, now: nat, r: nat)
    returns (more: seq<TimedOp>)
    requires Tells(story, w) && w.clock <= now && w.life == LifeOf(h, r)
    ensures Tells(more, Seen(w, LifeOf(Passed(h, moves, now), r), now))
  {
    hide Passed, Drive, LifeOf;
    PassedLife(h, moves, now, r);
    more := story;
    if r in Moves(h, moves) {
      Told(story, w, TimedOp.At(now, moves[r]));
      more := story + [TimedOp.At(now, moves[r])];
    }
  }

  lemma ActTold(story: seq<TimedOp>, w: Watched, h: Hub, t: TimedAct, r: nat) returns (more: seq<TimedOp>)
    requires Tells(story, w) && w.clock <= t.ms && w.life == LifeOf(h, r) && Ordinary(t.act)
    ensures Tells(more, Seen(w, LifeOf(Acted(h, t), r), t.ms))
  {
    hide Tells, LifeOf, Step, Passed;
    if t.act.Mutator? {
      more := MutatorTold(story, w, h, t.act.event, t.ms, r);
    } else {
      more := PassTold(story, w, h, t.act.moves, t.ms, r);
    }
  }

  /** At boot no relay is closed, and claiming them closes none. */
  lemma BootTold(h: Hub, boot: nat, r: nat) returns (story: seq<TimedOp>)
    requires h == Loaded(h.device, h.order, h.store, {}, h.free)
    ensures Tells(story, Watched(LifeOf(Booted(h, h.order, boot), r), 0, 0, boot))
    ensures !LifeOf(Booted(h, h.order, boot), r).relay
  {
    hide Booted, Walked;
    var w := Watched(BOOT, 0, 0, 0);
    assert Tells([], w);
    assert LifeOf(h, r) == BOOT;
    BootLives(h, h.order, boot);
    assert Reaches(BOOT, LifeOf(Booted(h, h.order, boot), r), boot);
    var ops :| Gentle(ops) && Walked(BOOT, ops, boot) == LifeOf(Booted(h, h.order, boot), r);
    story := WalkTold([], w, ops, boot);
  }

  lemma {:induction false} WatchingIsOf(h: Hub, boot: nat, ts: seq<TimedAct>, r: nat)
    ensures Watching(h, boot, ts, r).life == LifeOf(HubAfter(h, ts), r)
    ensures Watching(h, boot, ts, r).clock == ClockAfter(boot, ts)
  {}

  /** Over every run from boot, mutators and passes in any order, what is seen of each relay is a life:
      claimed, kept, handed over, driven, cut out and let go, whichever thermostats hold it in turn. */
  lemma {:induction false} EveryRelayLives(h: Hub, boot: nat, ts: seq<TimedAct>, r: nat) returns (story: seq<TimedOp>)
    requires h == Loaded(h.device, h.order, h.store, {}, h.free) && Ordered(boot, ts)
    ensures Tells(story, Watching(Booted(h, h.order, boot), boot, ts, r))
    decreases |ts|
  {
    hide Tells, LifeOf, Acted, Booted, Ordinary;
    var start := Booted(h, h.order, boot);
    if ts == [] {
      story := BootTold(h, boot, r);
    } else {
      var before, last := ts[..|ts| - 1], ts[|ts| - 1];
      story := EveryRelayLives(h, boot, before, r);
      WatchingIsOf(start, boot, before, r);
      story := ActTold(story, Watching(start, boot, before, r), HubAfter(start, before), last, r);
    }
  }

  /** So nowhere in the hub is a relay cycled short: only a pass closes one, once it has been open for the
      min_off of the claim on it or the device up that long, and a pass that drives it opens it only
      after its min_on, through any Saves, removals, restarts and take-overs in between. */
  lemma NoRelayIsCycledShort(h: Hub, boot: nat, ts: seq<TimedAct>, next: TimedAct, r: nat)
    requires h == Loaded(h.device, h.order, h.store, {}, h.free) && Ordered(boot, ts + [next])
    ensures var start := Booted(h, h.order, boot);
            var before := Watching(start, boot, ts, r);
            var closed := r in HubAfter(start, ts + [next]).shut;
            && (!before.life.relay && closed ==>
                  && next.act.Pass? && before.life.claim.Some?
                  && next.ms - before.openedAt >= before.life.claim.value.minOff)
            && (before.life.relay && !closed && next.act.Pass? && r in next.act.moves && next.act.moves[r].Driving? ==>
                  && before.life.claim.Some?
                  && next.ms - before.closedAt >= before.life.claim.value.minOn)
  {
    var start := Booted(h, h.order, boot);
    assert (ts + [next])[..|ts|] == ts;
    hide Tells, LivesOn, Booted, Step, Passed, Drive, Truthful;
    var w := Watching(start, boot, ts, r);
    var story := EveryRelayLives(h, boot, ts, r);
    WatchingIsOf(start, boot, ts, r);
    var g := HubAfter(start, ts);
    if next.act.Pass? {
      PassedLife(g, next.act.moves, next.ms, r);
      ToldIsTruthful(story, w);
      if r in Moves(g, next.act.moves) {
        LifeStep(w, TimedOp.At(next.ms, next.act.moves[r]));
      }
    } else {
      var more := MutatorTold(story, w, g, next.act.event, next.ms, r);
    }
  }

  /** And everywhere in the hub demand is followed: a pass that drives a relay leaves it where it is wanted
      exactly when it was there already or has been the other way for the dwell of the claim then on it, and
      says which dwell holds it otherwise. */
  lemma DemandIsFollowedEverywhere(
      h: Hub, boot: nat, ts: seq<TimedAct>, moves: map<nat, Op>, want: bool, now: nat, r: nat)
    requires h == Loaded(h.device, h.order, h.store, {}, h.free) && Ordered(boot, ts + [TimedAct(now, Act.Pass(moves))])
    requires r in moves && moves[r] == Driving(want) && r in HubAfter(Booted(h, h.order, boot), ts).claims
    ensures var start := Booted(h, h.order, boot);
            var before := Watching(start, boot, ts, r);
            var after := LifeOf(HubAfter(start, ts + [TimedAct(now, Act.Pass(moves))]), r);
            && before.life.claim.Some? && after.claim.Some?
            && (after.relay == want <==>
                  before.life.relay == want || Rested(before, now) >= Dwell(before.life.claim.value, before.life.relay))
            && after.claim.value.wait == R.Waiting(after.relay, want)
  {
    var start := Booted(h, h.order, boot);
    var next := TimedAct(now, Act.Pass(moves));
    assert (ts + [next])[..|ts|] == ts;
    hide Tells, Booted, Passed, Drive, Truthful;
    var w := Watching(start, boot, ts, r);
    var story := EveryRelayLives(h, boot, ts, r);
    WatchingIsOf(start, boot, ts, r);
    PassedLife(HubAfter(start, ts), moves, now, r);
    ToldIsTruthful(story, w);
    DriveFollows(w, want, now);
  }
}
