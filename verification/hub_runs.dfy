/** The hub over whole runs: from boot, through any sequence of mutators, with control passes and
    outside writers moving relays in between. */
module HubRuns {
  import opened Options
  import opened RelayClaims
  import opened HubState
  import opened HubArbitration
  import opened HubMutators
  import opened HubTakeOver

  // --- What a thermostat waits for ---

  /** Everyone enabled runs or is blocked; `ConservingMeans` says what that is in terms of starts. */
  ghost predicate Conserving(h: Hub) {
    forall id :: id in h.store && h.store[id].enabled && id !in h.running ==> Blocked(h, id)
  }

  /** With the books right, being blocked is exactly being unable to start: so a conserving hub has
      no waiter a start would serve. */
  lemma ConservingMeans(h: Hub, now: nat)
    requires Books(h)
    ensures Conserving(h) <==>
      forall id :: id in h.store && Waits(h, id) ==> Starting(h, h.store[id], now).why.Some?
  {
    forall r | r in h.claims ensures r in h.device.switches {
      assert Rightful(h, r, {}) && OwnerOf(h, r).Some?;
    }
    forall id | id in h.store && Waits(h, id)
      ensures Blocked(h, id) <==> Starting(h, h.store[id], now).why.Some? {
      StartsUnlessBlocked(h, h.store[id], now);
    }
  }

  lemma GoodIsConserving(h: Hub)
    requires Good(h)
    ensures Conserving(h)
  {
    forall id | id in h.store && h.store[id].enabled && id !in h.running ensures Blocked(h, id) {
      assert Excused(h, id);
    }
  }

  // --- Boot ---

  /** The documents loaded, nothing running yet. */
  function Loaded(device: Device, order: seq<nat>, store: map<nat, Config>, shut: set<nat>, pool: nat): Hub {
    Hub(device, order, store, map[], shut, map[], map[], {}, false, map[], pool)
  }

  function Booted(h: Hub, ids: seq<nat>, now: nat): Hub
    decreases |ids|
  {
    if ids == [] then h
    else
      var id := ids[0];
      Booted(if Waits(h, id) then Noted(Starting(h, h.store[id], now), id) else h, ids[1..], now)
  }

  ghost predicate BootingBut(h: Hub, odd: set<nat>) {
    && Books(h) && LinkedBut(h, odd) && AllExcused(h, odd) && h.freed == {} && !h.entityFreed
    && (forall x :: x in odd ==> x !in h.running && x !in h.waiting)
  }

  lemma BootStep(h: Hub, id: nat, odd: set<nat>, now: nat)
    requires BootingBut(h, odd) && id in odd && id in h.store
    ensures var g := if Waits(h, id) then Noted(Starting(h, h.store[id], now), id) else h;
            && BootingBut(g, odd - {id}) && SameDocuments(h, g) && g.shut == h.shut && PoolSize(g) == PoolSize(h)
  {
    if Waits(h, id) {
      var c := h.store[id];
      StartingSettles(h, c, odd, now);
      WaitersOwnNothing(h, id);
      FailedStart(h, c, now);
    }
  }

  lemma RestIsOdd(ids: seq<nat>, odd: set<nat>)
    requires ids != [] && Ascending(ids) && forall x :: x in odd <==> x in ids
    ensures forall x :: x in odd - {ids[0]} <==> x in ids[1..]
  {
    forall x ensures x in odd - {ids[0]} <==> x in ids[1..] {
      if x in ids[1..] {
        var k :| 0 < k < |ids| && ids[k] == x;
        assert ids[0] < ids[k];
      }
    }
  }

  lemma {:induction false} BootKeeps(h: Hub, ids: seq<nat>, odd: set<nat>, now: nat)
    requires BootingBut(h, odd) && Ascending(ids)
    requires forall x :: x in odd <==> x in ids
    requires forall x :: x in ids ==> x in h.store
    ensures var g := Booted(h, ids, now);
            BootingBut(g, {}) && SameDocuments(h, g) && g.shut == h.shut && PoolSize(g) == PoolSize(h)
    decreases |ids|
  {
    if ids == [] {
      assert odd == {};
    } else {
      var id := ids[0];
      BootStep(h, id, odd, now);
      var g := if Waits(h, id) then Noted(Starting(h, h.store[id], now), id) else h;
      RestIsOdd(ids, odd);
      hide BootingBut, Starting, Noted;
      BootKeeps(g, ids[1..], odd - {id}, now);
    }
  }

  /** Boot leaves the hub good whatever the files name, even two enabled thermostats on one relay. */
  lemma BootIsGood(h: Hub, now: nat)
    requires Documents(h) && h == Loaded(h.device, h.order, h.store, h.shut, h.free)
    ensures var g := Booted(h, h.order, now);
            Good(g) && SameDocuments(h, g) && g.shut == h.shut && PoolSize(g) == h.free
  {
    assert BootingBut(h, h.store.Keys);
    BootKeeps(h, h.order, h.store.Keys, now);
  }

  // --- Every mutator ---

  /** What every mutator leaves: good books, the same pool, no relay closed, and no two enabled
      thermostats on one relay if none were before. */
  ghost predicate Keeps(h: Hub, g: Hub) {
    && Good(g) && PoolSize(g) == PoolSize(h) && g.device == h.device
    && g.shut <= h.shut
    && (Exclusive(h) ==> Exclusive(g))
  }

  /** What the check before a Save let through joins the store. */
  lemma SavedStaysExclusive(h: Hub, g: Hub, checked: Config, doc: Config)
    requires Good(h) && g.store == h.store[doc.id := doc]
    requires doc == checked.(newer := doc.newer, enabled := doc.enabled)
    requires doc.enabled ==> SavableRefusal(h, checked).None?
    ensures Exclusive(h) ==> Exclusive(g)
  {
    if Exclusive(h) {
      if doc.enabled {
        SavableIsClear(h, checked);
        assert Named(doc) == Named(checked);
      }
      hide Good, SavableRefusal;
      StoredStaysExclusive(h, g, doc);
    }
  }

  lemma CreatingKeeps(h: Hub, draft: Config, with: Saving, now: nat)
    requires Good(h)
    ensures Keeps(h, Creating(h, draft, with, now).hub)
  {
    hide Good, PoolSize, SavableRefusal, Added, Exclusive;
    var a := Creating(h, draft, with, now);
    if a.hub != h {
      var doc := draft.(newer := false);
      assert a == Added(h, doc, now);
      AddedKeeps(h, doc, now);
      SavedStaysExclusive(h, a.hub, draft, doc);
    }
  }

  lemma UpdatingKeeps(h: Hub, id: nat, doc: Config, with: Saving, now: nat)
    requires Good(h)
    ensures Keeps(h, Updating(h, id, doc, with, now).hub)
  {
    hide Good, PoolSize, SavableRefusal, Replaced, Exclusive;
    var a := Updating(h, id, doc, with, now);
    if a.hub != h {
      var kept := doc.(id := id, newer := false);
      assert a == Replaced(h, kept, now);
      ReplacedKeeps(h, kept, now);
      SavedStaysExclusive(h, a.hub, kept, kept);
    }
  }

  lemma DisablingStaysExclusive(h: Hub, g: Hub, id: nat)
    requires Exclusive(h) && id in h.store && g.store == h.store[id := h.store[id].(enabled := false)]
    ensures Exclusive(g)
  {
    assert Named(g.store[id]) == Named(h.store[id]);
  }

  lemma KnownDocument(h: Hub, id: nat)
    requires Good(h) && id in h.store
    ensures h.store[id].id == id && Wired(h.store[id])
  {}

  /** An enable that has to take nothing over. */
  lemma EnabledKeeps(h: Hub, id: nat, now: nat)
    requires Good(h) && id in h.store && id !in h.running && SavableRefusal(h, h.store[id]).None?
    ensures Keeps(h, Enabled(h, id, [], now).hub)
  {
    KnownDocument(h, id);
    EnabledIsReplaced(h, id, now);
    hide Good, PoolSize, SavableRefusal, Replaced, Exclusive, Enabled;
    var on := h.store[id].(enabled := true);
    ReplacedKeeps(h, on, now);
    SavedStaysExclusive(h, Enabled(h, id, [], now).hub, h.store[id], on);
  }

  lemma DisablingAlsoKeeps(h: Hub, id: nat, now: nat)
    requires Good(h) && id in h.store
    ensures Keeps(h, Disabling(h, id, now).hub)
  {
    hide Good, PoolSize, Exclusive, Disabling;
    DisablingKeeps(h, id, now);
    if Exclusive(h) {
      DisablingStaysExclusive(h, Disabling(h, id, now).hub, id);
    }
  }

  lemma TakingOverRefused(h: Hub, id: nat, now: nat)
    requires id in h.store && TakingOver(h, id, now).report.refused.Some?
    ensures TakingOver(h, id, now).hub == h
  {}

  lemma TookOverKeeps(h: Hub, a: Answer, c: Config)
    requires TookOver(h, a, c) && c.id in h.store && h.store[c.id] == c && ClearOf(a.hub, c)
    ensures Keeps(h, a.hub)
  {
    hide Good, PoolSize, ClearOf;
    if Exclusive(h) {
      TookOverExclusive(h, a, c);
    }
  }

  lemma TakingOverKeeps(h: Hub, id: nat, now: nat)
    requires Good(h) && id in h.store && id !in h.running
    ensures Keeps(h, TakingOver(h, id, now).hub)
  {
    KnownDocument(h, id);
    hide Good, PoolSize, Exclusive, TakingOver, TookOver, ClearOf;
    var a := TakingOver(h, id, now);
    if a.report.refused.None? {
      TakeOverRuns(h, id, now);
      TakeOverClear(h, id, now);
      TookOverKeeps(h, a, h.store[id]);
    } else {
      TakingOverRefused(h, id, now);
    }
  }

  lemma EnablingKeeps(h: Hub, id: nat, enabled: bool, takeOver: bool, now: nat)
    requires Good(h)
    ensures Keeps(h, Enabling(h, id, enabled, takeOver, now).hub)
  {
    hide Good, PoolSize, Exclusive, SavableRefusal, Enabled, Disabling, TakingOver;
    if id in h.store && !enabled {
      DisablingAlsoKeeps(h, id, now);
    } else if id in h.store && id !in h.running {
      if SavableRefusal(h, h.store[id]).None? {
        EnabledKeeps(h, id, now);
      } else {
        TakingOverKeeps(h, id, now);
      }
    }
  }

  lemma RemovingStaysExclusive(h: Hub, id: nat, now: nat)
    requires Good(h)
    ensures Keeps(h, Removing(h, id, now).hub)
  {
    RemovingKeeps(h, id, now);
  }

  // --- Runs ---

  /** A mutator, or what happens between two: control passes and outside writers leave any relay
      anywhere and any claim with any memory, and a target or a preset changes a document's body. */
  datatype Event =
    | Create(draft: Config, with: Saving)
    | Update(id: nat, doc: Config, with: Saving)
    | Restore(doc: Config, with: Saving)
    | Remove(id: nat)
    | SetEnabled(id: nat, enabled: bool, takeOver: bool)
    | Elsewhere(shut: set<nat>, memory: map<nat, Claim>, bodies: map<nat, nat>)

  function Moved(h: Hub, shut: set<nat>, memory: map<nat, Claim>, bodies: map<nat, nat>): Hub {
    h.(shut := shut,
       claims := map r | r in h.claims :: if r in memory then h.claims[r].(claim := memory[r]) else h.claims[r],
       store := map id | id in h.store :: if id in bodies then h.store[id].(body := bodies[id]) else h.store[id])
  }

  function Step(h: Hub, e: Event, now: nat): Hub {
    match e
    case Create(draft, with) => Creating(h, draft, with, now).hub
    case Update(id, doc, with) => Updating(h, id, doc, with, now).hub
    case Restore(doc, with) => Restoring(h, doc, with, now).hub
    case Remove(id) => Removing(h, id, now).hub
    case SetEnabled(id, enabled, takeOver) => Enabling(h, id, enabled, takeOver, now).hub
    case Elsewhere(shut, memory, bodies) => Moved(h, shut, memory, bodies)
  }

  datatype Timed = At(ms: nat, event: Event)

  function Run(h: Hub, es: seq<Timed>): Hub
    decreases |es|
  {
    if es == [] then h else Run(Step(h, es[0].event, es[0].ms), es[1..])
  }

  ghost predicate Moves(h: Hub, g: Hub) {
    && g == h.(shut := g.shut, claims := g.claims, store := g.store) && g.store.Keys == h.store.Keys
    && (forall r :: OwnerOf(g, r) == OwnerOf(h, r))
    && (forall id :: id in h.store ==> g.store[id] == h.store[id].(body := g.store[id].body))
  }

  lemma MovesNames(h: Hub, g: Hub)
    requires Moves(h, g)
    ensures forall id :: id in h.store ==> Named(g.store[id]) == Named(h.store[id])
  {}

  lemma MovesKeepsBooks(h: Hub, g: Hub)
    requires Books(h) && Moves(h, g)
    ensures Books(g)
  {
    MovesNames(h, g);
    forall r ensures Rightful(g, r, {}) {
      assert Rightful(h, r, {});
    }
    forall x | x in g.running ensures RunsRight(g, x) {
      assert RunsRight(h, x);
    }
  }

  lemma MovesExcuses(h: Hub, g: Hub)
    requires AllExcused(h, {}) && Moves(h, g)
    ensures AllExcused(g, {})
  {
    MovesNames(h, g);
    forall x | x in g.store && Waits(g, x) ensures Excused(g, x) {
      assert Excused(h, x);
      if r :| r in Named(h.store[x]) && OwnerOf(h, r).Some? && OwnerOf(h, r) != Some(x) {
        assert OwnerOf(g, r) == OwnerOf(h, r);
      }
    }
  }

  lemma MovesExclusive(h: Hub, g: Hub)
    requires Exclusive(h) && Moves(h, g)
    ensures Exclusive(g)
  {
    MovesNames(h, g);
  }

  lemma MovedMoves(h: Hub, shut: set<nat>, memory: map<nat, Claim>, bodies: map<nat, nat>)
    ensures Moves(h, Moved(h, shut, memory, bodies))
  {
    var g := Moved(h, shut, memory, bodies);
    assert g == h.(shut := g.shut, claims := g.claims, store := g.store);
  }

  lemma MovesLinks(h: Hub, g: Hub)
    requires LinkedBut(h, {}) && Moves(h, g)
    ensures LinkedBut(g, {})
  {
    hide OwnerOf;
  }

  lemma MovesKeepsGood(h: Hub, g: Hub)
    requires Good(h) && Moves(h, g)
    ensures Good(g) && PoolSize(g) == PoolSize(h) && g.device == h.device
  {
    MovesKeepsBooks(h, g);
    MovesLinks(h, g);
    MovesExcuses(h, g);
    hide Books, LinkedBut, AllExcused, OwnerOf;
  }

  lemma MovedKeeps(h: Hub, shut: set<nat>, memory: map<nat, Claim>, bodies: map<nat, nat>)
    requires Good(h)
    ensures var g := Moved(h, shut, memory, bodies);
            Good(g) && PoolSize(g) == PoolSize(h) && g.device == h.device && (Exclusive(h) ==> Exclusive(g))
  {
    var g := Moved(h, shut, memory, bodies);
    MovedMoves(h, shut, memory, bodies);
    hide Moved;
    MovesKeepsGood(h, g);
    hide Good, PoolSize, Exclusive;
    if Exclusive(h) {
      MovesExclusive(h, g);
    }
  }

  lemma StepKeeps(h: Hub, e: Event, now: nat)
    requires Good(h)
    ensures var g := Step(h, e, now);
            Good(g) && PoolSize(g) == PoolSize(h) && g.device == h.device && (Exclusive(h) ==> Exclusive(g))
  {
    hide Good, Exclusive, PoolSize;
    match e
    case Create(draft, with) => CreatingKeeps(h, draft, with, now);
    case Update(id, doc, with) => UpdatingKeeps(h, id, doc, with, now);
    case Restore(doc, with) =>
      CreatingKeeps(h, doc, with, now);
      UpdatingKeeps(h, doc.id, doc, with, now);
    case Remove(id) => RemovingStaysExclusive(h, id, now);
    case SetEnabled(id, enabled, takeOver) => EnablingKeeps(h, id, enabled, takeOver, now);
    case Elsewhere(shut, memory, bodies) => MovedKeeps(h, shut, memory, bodies);
  }

  /** Work conservation and the books over every run of the hub from boot: after any sequence of
      mutators nobody waits that could start, each claim's owner runs and names it, each running
      thermostat holds exactly what it names, and no climate entity is lost. */
  lemma {:induction false} EveryRunIsGood(h: Hub, es: seq<Timed>)
    requires Good(h)
    ensures var g := Run(h, es);
            && Good(g) && Conserving(g) && PoolSize(g) == PoolSize(h)
            && (Exclusive(h) ==> Exclusive(g))
    decreases |es|
  {
    GoodIsConserving(h);
    if es != [] {
      StepKeeps(h, es[0].event, es[0].ms);
      EveryRunIsGood(Step(h, es[0].event, es[0].ms), es[1..]);
    }
  }

  lemma EveryRunFromBoot(h: Hub, now: nat, es: seq<Timed>)
    requires Documents(h) && h == Loaded(h.device, h.order, h.store, h.shut, h.free)
    ensures var g := Run(Booted(h, h.order, now), es);
            Good(g) && Conserving(g) && PoolSize(g) == h.free && (Exclusive(h) ==> Exclusive(g))
  {
    BootIsGood(h, now);
    EveryRunIsGood(Booted(h, h.order, now), es);
  }
}
