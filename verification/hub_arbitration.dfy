/** What the thermostat hub keeps true of its claims, its waiters and its pool
    (components/climate_hub/climate_hub.cpp). Each operation's effect is stated once as a relation
    between the states around it; the invariants are proved from those relations alone. */
module HubArbitration {
  import opened Options
  import opened HubState
  import RelayClaims

  // --- Effects ---

  ghost predicate SameDocuments(h: Hub, g: Hub) {
    g.device == h.device && g.order == h.order && g.store == h.store
  }

  /** Relays go from `id` to nobody, each noted as freed and left open; no other changes hands. */
  ghost predicate LetsGo(h: Hub, g: Hub, rs: set<nat>) {
    && SameDocuments(h, g)
    && g.waiting == h.waiting && g.running == h.running
    && g.free == h.free && g.entityFreed == h.entityFreed
    && (forall r :: OwnerOf(g, r) == if r in rs then None else OwnerOf(h, r))
    && g.freed == h.freed + rs
    && g.shut == h.shut - rs
  }

  lemma LetGoDoes(h: Hub, rs: set<nat>, now: nat)
    requires rs <= h.claims.Keys
    ensures LetsGo(h, RelaysLetGo(h, rs, now), rs)
  {}

  lemma LetGoNothing(h: Hub, now: nat)
    ensures RelaysLetGo(h, {}, now) == h
  {
    var g := RelaysLetGo(h, {}, now);
    assert g.claims == h.claims && g.shut == h.shut && g.history == h.history && g.freed == h.freed;
  }

  /** The loop of `id` points at claims `id` holds. */
  ghost predicate PointsHome(h: Hub, id: nat)
    requires id in h.running
  {
    && (h.running[id].heat.Some? ==> OwnerOf(h, h.running[id].heat.value) == Some(id))
    && (h.running[id].cool.Some? ==> OwnerOf(h, h.running[id].cool.value) == Some(id))
  }

  ghost predicate Stops(h: Hub, g: Hub, id: nat) {
    && SameDocuments(h, g)
    && g.waiting == h.waiting && g.running == h.running - {id}
    && g.free == h.free + 1 && g.entityFreed
    && (forall r :: OwnerOf(g, r) == if OwnerOf(h, r) == Some(id) then None else OwnerOf(h, r))
    && g.freed == h.freed + Owned(h, id)
    && g.shut == h.shut - Owned(h, id)
  }

  lemma OwnedSame(h: Hub, g: Hub, id: nat)
    requires forall r :: OwnerOf(g, r) == OwnerOf(h, r)
    ensures Owned(g, id) == Owned(h, id)
  {
    assert forall r :: r in Owned(g, id) <==> OwnerOf(g, r) == Some(id);
    assert forall r :: r in Owned(h, id) <==> OwnerOf(h, r) == Some(id);
  }

  /** Opening a relay of a claim moves that relay and nothing else. */
  lemma OpenedFrame(h: Hub, relay: Option<nat>, now: nat)
    ensures var g := OpenedAt(h, relay, now);
            && g == h.(claims := g.claims, shut := g.shut)
            && g.shut == (if relay.Some? && relay.value in h.claims then h.shut - {relay.value} else h.shut)
  {
    hide RelayClaims.ForcedOff;
  }

  lemma OpenedOwned(h: Hub, relay: Option<nat>, id: nat)
    requires relay.Some? ==> OwnerOf(h, relay.value) == Some(id)
    ensures relay.Some? ==> relay.value in Owned(h, id)
  {}

  /** Both relays of `id` open, its claims still its own. */
  lemma BothOpened(h: Hub, id: nat, now: nat) returns (open: Hub)
    requires id in h.running && PointsHome(h, id)
    ensures open == OpenedAt(OpenedAt(h, h.running[id].heat, now), h.running[id].cool, now)
    ensures open == h.(claims := open.claims, shut := open.shut)
    ensures forall r :: OwnerOf(open, r) == OwnerOf(h, r)
    ensures open.shut - Owned(h, id) == h.shut - Owned(h, id)
  {
    hide OpenedAt;
    var heat := OpenedAt(h, h.running[id].heat, now);
    open := OpenedAt(heat, h.running[id].cool, now);
    OpenedOwners(h, h.running[id].heat, now);
    OpenedOwners(heat, h.running[id].cool, now);
    OpenedFrame(h, h.running[id].heat, now);
    OpenedFrame(heat, h.running[id].cool, now);
    OpenedOwned(h, h.running[id].heat, id);
    OpenedOwned(h, h.running[id].cool, id);
    hide Owned, OwnerOf;
  }

  lemma StoppedDoes(h: Hub, id: nat, now: nat)
    requires id in h.running && PointsHome(h, id)
    ensures Stops(h, Stopped(h, id, now), id)
  {
    var open := BothOpened(h, id, now);
    OwnedSame(h, open, id);
    StoppedOwners(h, id, now);
    LetGoDoes(open, Owned(open, id), now);
    hide OpenedAt, OwnerOf, Owned, RelaysLetGo, PointsHome;
  }

  ghost predicate MayClaim(h: Hub, c: Config) {
    forall r :: r in Named(c) ==>
      if OwnerOf(h, r).Some? then OwnerOf(h, r) == Some(c.id) else r in h.device.switches
  }

  /** Claims are refused exactly when another thermostat holds a relay or one is not there. */
  lemma RefusalMeans(h: Hub, c: Config)
    ensures Refusal(h, c).None? <==> MayClaim(h, c)
    ensures Refusal(h, c).Some? ==> Refusal(h, c) != Some(NoFreeEntity)
  {
    assert c.heat.relay.Some? ==> c.heat.relay.value in Named(c);
    assert c.cool.relay.Some? ==> c.cool.relay.value in Named(c);
  }

  ghost predicate Starts(h: Hub, g: Hub, c: Config) {
    && SameDocuments(h, g)
    && g.waiting == h.waiting - {c.id}
    && g.running == h.running[c.id := Runtime(c.heat.relay, c.cool.relay)]
    && g.free + 1 == h.free && g.entityFreed == h.entityFreed
    && (forall r :: OwnerOf(g, r) == if r in Named(c) then Some(c.id) else OwnerOf(h, r))
    && g.freed == h.freed && g.shut == h.shut
  }

  lemma ClaimedOutputDoes(h: Hub, id: nat, out: Output)
    ensures var g := ClaimedOutput(h, id, out);
            && g == h.(claims := g.claims)
            && forall r: nat ::
                 OwnerOf(g, r) == if out.relay == Some(r) && OwnerOf(h, r).None? then Some(id) else OwnerOf(h, r)
  {}

  lemma ClaimingDoes(h: Hub, c: Config)
    requires MayClaim(h, c)
    ensures var g := Claiming(h, c);
            && g == h.(claims := g.claims)
            && forall r :: OwnerOf(g, r) == if r in Named(c) then Some(c.id) else OwnerOf(h, r)
  {
    ClaimedOutputDoes(h, c.id, c.heat);
    ClaimedOutputDoes(ClaimedOutput(h, c.id, c.heat), c.id, c.cool);
  }

  lemma DwelledDoes(h: Hub, c: Config)
    ensures var g := Dwelled(h, c);
            && g == h.(claims := g.claims)
            && forall r :: OwnerOf(g, r) == OwnerOf(h, r)
  {
    hide DwelledOutput;
    DwelledOutputDoes(h, c.heat);
    DwelledOutputDoes(DwelledOutput(h, c.heat), c.cool);
  }

  lemma DwelledOutputDoes(h: Hub, out: Output)
    ensures var g := DwelledOutput(h, out);
            && g == h.(claims := g.claims)
            && forall r :: OwnerOf(g, r) == OwnerOf(h, r)
  {}

  lemma StartedDoes(h: Hub, c: Config)
    requires h.free > 0 && MayClaim(h, c)
    ensures Starts(h, Started(h, c), c)
  {
    ClaimingDoes(h, c);
    DwelledDoes(Claiming(h, c), c);
    assert forall r :: OwnerOf(Started(h, c), r) == OwnerOf(Dwelled(Claiming(h, c), c), r);
  }

  /** A Save of a running thermostat: what it names it holds, what it no longer names it lets go. */
  ghost predicate Restarts(h: Hub, g: Hub, c: Config) {
    && SameDocuments(h, g)
    && g.waiting == h.waiting
    && g.running == h.running[c.id := Runtime(c.heat.relay, c.cool.relay)]
    && g.free == h.free && g.entityFreed == h.entityFreed
    && (forall r :: OwnerOf(g, r) == if r in Named(c) then Some(c.id)
                                     else if OwnerOf(h, r) == Some(c.id) then None else OwnerOf(h, r))
    && g.freed == h.freed + (Owned(h, c.id) - Named(c))
    && g.shut == h.shut - (Owned(h, c.id) - Named(c))
  }

  lemma DropSame(h: Hub, claimed: Hub, c: Config)
    requires forall r :: OwnerOf(claimed, r) == if r in Named(c) then Some(c.id) else OwnerOf(h, r)
    ensures Owned(claimed, c.id) - Named(c) == Owned(h, c.id) - Named(c)
    ensures Owned(claimed, c.id) <= claimed.claims.Keys
  {
    assert forall r :: r in Owned(claimed, c.id) <==> OwnerOf(claimed, r) == Some(c.id);
    assert forall r :: r in Owned(h, c.id) <==> OwnerOf(h, r) == Some(c.id);
  }

  lemma RestartedDoes(h: Hub, c: Config, now: nat)
    requires c.id in h.running && Input(h.device, c.sensor).None? && MayClaim(h, c)
    ensures Restarting(h, c, now).why.None? && Restarts(h, Restarting(h, c, now).hub, c)
  {
    RefusalMeans(h, c);
    var claimed := Claiming(h, c);
    ClaimingDoes(h, c);
    var drop := Owned(claimed, c.id) - Named(c);
    DropSame(h, claimed, c);
    hide Owned, Claiming, Dwelled, RelaysLetGo, Refusal;
    var kept := RelaysLetGo(claimed, drop, now);
    LetGoDoes(claimed, drop, now);
    DwelledDoes(kept, c);
    var g := Restarting(h, c, now).hub;
    assert g == Running(Dwelled(kept, c), c);
    RestartIs(h, claimed, kept, g, c, drop);
  }

  lemma RestartIs(h: Hub, claimed: Hub, kept: Hub, g: Hub, c: Config, drop: set<nat>)
    requires c.id in h.running && drop == Owned(h, c.id) - Named(c)
    requires claimed == h.(claims := claimed.claims) && LetsGo(claimed, kept, drop)
    requires forall r :: OwnerOf(claimed, r) == if r in Named(c) then Some(c.id) else OwnerOf(h, r)
    requires g == kept.(claims := g.claims, running := h.running[c.id := Runtime(c.heat.relay, c.cool.relay)])
    requires forall r :: OwnerOf(g, r) == OwnerOf(kept, r)
    ensures Restarts(h, g, c)
  {
    forall r ensures r in drop <==> r !in Named(c) && OwnerOf(h, r) == Some(c.id) {}
    hide Owned, OwnerOf, Named;
  }

  // --- The books: claims, running thermostats and the pool ---

  ghost predicate Documents(h: Hub) {
    && (forall id :: id in h.store ==> h.store[id].id == id && Wired(h.store[id]))
    && Ascending(h.order) && (forall id :: id in h.order <==> id in h.store)
  }

  /** A running thermostat has its sensor, holds exactly what it names, and its loop points there. */
  ghost predicate RunsRight(h: Hub, id: nat)
    requires id in h.running
  {
    && id in h.store && Input(h.device, h.store[id].sensor).None?
    && h.running[id] == Runtime(h.store[id].heat.relay, h.store[id].cool.relay)
    && (forall r :: r in Named(h.store[id]) ==> OwnerOf(h, r) == Some(id))
  }

  /** A claim is on a switch of the device, and its owner runs and names it. */
  ghost predicate Rightful(h: Hub, r: nat, odd: set<nat>) {
    OwnerOf(h, r).Some? ==>
      var id := OwnerOf(h, r).value;
      && r in h.device.switches
      && (id in odd || (id in h.running && id in h.store && r in Named(h.store[id])))
  }

  /** The books are right but for what concerns the thermostats in `odd`. */
  ghost predicate BooksBut(h: Hub, odd: set<nat>) {
    && Documents(h)
    && (forall r :: Rightful(h, r, odd))
    && (forall id :: id in h.running && id !in odd ==> RunsRight(h, id))
  }

  ghost predicate Books(h: Hub) {
    BooksBut(h, {})
  }

  lemma StopKeepsBooks(h: Hub, g: Hub, id: nat, odd: set<nat>)
    requires BooksBut(h, odd) && Stops(h, g, id)
    ensures BooksBut(g, odd - {id})
  {
    forall r ensures Rightful(g, r, odd - {id}) {
      assert Rightful(h, r, odd);
    }
    forall x | x in g.running && x !in odd - {id} ensures RunsRight(g, x) {
      assert RunsRight(h, x);
    }
  }

  /** What `c` holds before it starts it must name: then the start leaves its books right. */
  lemma StartKeepsBooks(h: Hub, g: Hub, c: Config, odd: set<nat>)
    requires BooksBut(h, odd) && Starts(h, g, c) && MayClaim(h, c)
    requires c.id !in h.running && c.id in h.store && h.store[c.id] == c
    requires Input(h.device, c.sensor).None?
    requires forall r :: OwnerOf(h, r) == Some(c.id) ==> r in Named(c)
    ensures BooksBut(g, odd - {c.id})
  {
    forall r ensures Rightful(g, r, odd - {c.id}) {
      assert Rightful(h, r, odd);
    }
    forall x | x in g.running && x !in odd - {c.id} ensures RunsRight(g, x) {
      if x != c.id {
        assert RunsRight(h, x);
      }
    }
  }

  lemma RestartKeepsBooks(h: Hub, g: Hub, c: Config, odd: set<nat>)
    requires BooksBut(h, odd) && Restarts(h, g, c) && MayClaim(h, c)
    requires c.id in h.store && h.store[c.id] == c && Input(h.device, c.sensor).None?
    ensures BooksBut(g, odd - {c.id})
  {
    forall r ensures Rightful(g, r, odd - {c.id}) {
      assert Rightful(h, r, odd);
    }
    forall x | x in g.running && x !in odd - {c.id} ensures RunsRight(g, x) {
      if x != c.id {
        assert RunsRight(h, x);
      }
    }
  }

  // --- Who still waits, and why ---

  /** Why `id` could not start now. */
  ghost predicate Blocked(h: Hub, id: nat)
    requires id in h.store
  {
    var c := h.store[id];
    || Input(h.device, c.sensor).Some?
    || (exists r :: r in Named(c) && r !in h.device.switches)
    || (exists r :: r in Named(c) && OwnerOf(h, r).Some? && OwnerOf(h, r) != Some(id))
    || h.free == 0
  }

  /** Blocked, and if only for want of a climate entity, noted as such. */
  ghost predicate Excused(h: Hub, id: nat)
    requires id in h.store
  {
    var c := h.store[id];
    || Input(h.device, c.sensor).Some?
    || (exists r :: r in Named(c) && r !in h.device.switches)
    || (exists r :: r in Named(c) && OwnerOf(h, r).Some? && OwnerOf(h, r) != Some(id))
    || (h.free == 0 && WaitsForEntity(h, id))
  }

  /** A start succeeds exactly when nothing blocks it. */
  lemma StartsUnlessBlocked(h: Hub, c: Config, now: nat)
    requires c.id in h.store && h.store[c.id] == c
    requires forall r :: r in h.claims ==> r in h.device.switches
    ensures Starting(h, c, now).why.None? <==> !Blocked(h, c.id)
  {
    RefusalMeans(h, c);
    if Blocked(h, c.id) && Input(h.device, c.sensor).None? && h.free > 0 {
      assert !MayClaim(h, c);
    }
  }

  /** Excused, or about to be tried again: it names a freed relay, or it waits for an entity and
      one came free. */
  ghost predicate Due(h: Hub, id: nat, entity: bool)
    requires id in h.store
  {
    Excused(h, id) || Touched(h, id) || (entity && WaitsForEntity(h, id))
  }

  /** No waiter but those in `exempt` is forgotten. */
  ghost predicate NoneForgotten(h: Hub, exempt: set<nat>) {
    forall id :: id in h.store && Waits(h, id) && id !in exempt ==> Due(h, id, h.entityFreed)
  }

  lemma StopForgetsNone(h: Hub, g: Hub, id: nat, exempt: set<nat>)
    requires NoneForgotten(h, exempt) && Stops(h, g, id) && id in exempt
    ensures NoneForgotten(g, exempt)
  {
    forall x | x in g.store && Waits(g, x) && x !in exempt ensures Due(g, x, g.entityFreed) {
      assert Due(h, x, h.entityFreed);
      if r :| r in Named(h.store[x]) && OwnerOf(h, r).Some? && OwnerOf(h, r) != Some(x) {
        if OwnerOf(h, r) == Some(id) {
          assert r in g.freed;
        }
      }
    }
  }

  lemma RestartForgetsNone(h: Hub, g: Hub, c: Config, exempt: set<nat>)
    requires NoneForgotten(h, exempt) && Restarts(h, g, c) && c.id in exempt && MayClaim(h, c)
    ensures NoneForgotten(g, exempt)
  {
    forall x | x in g.store && Waits(g, x) && x !in exempt ensures Due(g, x, g.entityFreed) {
      assert Due(h, x, h.entityFreed);
      if r :| r in Named(h.store[x]) && OwnerOf(h, r).Some? && OwnerOf(h, r) != Some(x) {
        if OwnerOf(h, r) == Some(c.id) && r !in Named(c) {
          assert r in g.freed;
        }
      }
    }
  }

  /** A start takes from no one: what excused another waiter still does. */
  lemma StartExcuses(h: Hub, g: Hub, c: Config, x: nat)
    requires Starts(h, g, c) && MayClaim(h, c)
    requires x in h.store && x != c.id && Excused(h, x)
    ensures Excused(g, x)
  {
    if r :| r in Named(h.store[x]) && OwnerOf(h, r).Some? && OwnerOf(h, r) != Some(x) {
      assert OwnerOf(g, r).Some? && OwnerOf(g, r) != Some(x);
    }
  }

  lemma StartExcusesAll(h: Hub, g: Hub, c: Config, odd: set<nat>)
    requires Starts(h, g, c) && MayClaim(h, c) && AllExcused(h, odd)
    ensures AllExcused(g, odd - {c.id})
  {
    forall x | x in g.store && Waits(g, x) && x !in odd - {c.id} ensures Excused(g, x) {
      StartExcuses(h, g, c, x);
    }
  }

  // --- Enabled, running, waiting ---

  /** A running thermostat is enabled, and exactly the enabled ones that do not run have a noted
      reason: `odd` aside. */
  ghost predicate LinkedBut(h: Hub, odd: set<nat>) {
    && (forall id :: id in h.running && id in h.store && id !in odd ==> h.store[id].enabled)
    && (forall id :: id !in odd ==> (id in h.waiting <==> Waits(h, id)))
  }

  function PoolSize(h: Hub): nat {
    |h.running| + h.free
  }

  /** Everyone who waits, `odd` aside, has an excuse. */
  ghost predicate AllExcused(h: Hub, odd: set<nat>) {
    forall id :: id in h.store && Waits(h, id) && id !in odd ==> Excused(h, id)
  }

  /** What holds between mutators. */
  ghost predicate Good(h: Hub) {
    Books(h) && LinkedBut(h, {}) && AllExcused(h, {}) && h.freed == {} && !h.entityFreed
  }

  lemma StartPool(h: Hub, g: Hub, c: Config)
    requires Starts(h, g, c) && c.id !in h.running
    ensures PoolSize(g) == PoolSize(h)
  {}

  lemma StopPool(h: Hub, g: Hub, id: nat)
    requires Stops(h, g, id) && id in h.running
    ensures PoolSize(g) == PoolSize(h)
  {
    assert g.running.Keys == h.running.Keys - {id};
    assert |g.running.Keys| == |h.running.Keys| - 1;
  }

  // --- Trying the waiters ---

  /** A waiter that is tried either starts, or stays as it was with a reason that holds. */
  ghost predicate Tries(h: Hub, g: Hub, id: nat)
    requires id in h.store
  {
    if g.running != h.running then
      Starts(h, g, h.store[id]) && MayClaim(h, h.store[id]) && Input(h.device, h.store[id].sensor).None?
    else
      id in g.waiting && g == h.(waiting := h.waiting[id := g.waiting[id]]) && Excused(g, id)
  }

  /** A start of a thermostat without claims that fails changes nothing. */
  lemma FailedStart(h: Hub, c: Config, now: nat)
    requires c.id in h.store && h.store[c.id] == c && Owned(h, c.id) == {}
    ensures var a := Starting(h, c, now);
            if a.why.Some? then a.hub == h && Excused(Noted(a, c.id), c.id)
            else Starts(h, a.hub, c) && MayClaim(h, c) && Input(h.device, c.sensor).None?
  {
    LetGoNothing(h, now);
    RefusalMeans(h, c);
    if MayClaim(h, c) && h.free > 0 {
      StartedDoes(h, c);
    }
  }

  lemma WaitersOwnNothing(h: Hub, id: nat)
    requires Books(h) && id !in h.running
    ensures Owned(h, id) == {}
  {
    forall r ensures r !in Owned(h, id) {
      assert Rightful(h, r, {}) && (r in Owned(h, id) <==> OwnerOf(h, r) == Some(id));
    }
  }

  lemma TriedDoes(s: Sweep, id: nat, now: nat)
    requires Books(s.hub) && id in s.hub.store && Waits(s.hub, id)
    ensures Tries(s.hub, Tried(s, id, now).hub, id)
    ensures Tried(s, id, now).started == if id in Tried(s, id, now).hub.running then s.started + [id] else s.started
  {
    WaitersOwnNothing(s.hub, id);
    FailedStart(s.hub, s.hub.store[id], now);
  }

  lemma NoteKeeps(h: Hub, g: Hub, id: nat, odd: set<nat>)
    requires Books(h) && LinkedBut(h, odd) && id in h.store && Waits(h, id)
    requires id in g.waiting && g == h.(waiting := h.waiting[id := g.waiting[id]])
    ensures Books(g) && LinkedBut(g, odd - {id})
  {
    forall r ensures Rightful(g, r, {}) {
      assert Rightful(h, r, {});
    }
    forall x | x in g.running ensures RunsRight(g, x) {
      assert RunsRight(h, x);
    }
  }

  lemma StartLinks(h: Hub, g: Hub, c: Config, odd: set<nat>)
    requires LinkedBut(h, odd) && Starts(h, g, c) && c.id in h.store && h.store[c.id] == c && c.enabled
    ensures LinkedBut(g, odd - {c.id})
  {}

  lemma TryKeeps(h: Hub, g: Hub, id: nat)
    requires Books(h) && LinkedBut(h, {}) && id in h.store && Waits(h, id) && Tries(h, g, id)
    ensures Books(g) && LinkedBut(g, {}) && PoolSize(g) == PoolSize(h)
  {
    if g.running != h.running {
      var c := h.store[id];
      WaitersOwnNothing(h, id);
      assert forall r :: OwnerOf(h, r) == Some(id) ==> r in Owned(h, id);
      assert {} - {id} == {};
      StartKeepsBooks(h, g, c, {});
      StartLinks(h, g, c, {});
      StartPool(h, g, c);
    } else {
      NoteKeeps(h, g, id, {});
    }
  }

  /** Trying one waiter leaves every other waiter's standing as it was, or better excused. */
  lemma TryExcuses(h: Hub, g: Hub, id: nat, x: nat)
    requires id in h.store && Tries(h, g, id) && x in h.store && x != id && Waits(g, x)
    ensures Waits(h, x)
    ensures Excused(h, x) ==> Excused(g, x)
    ensures Touched(g, x) == Touched(h, x) && WaitsForEntity(g, x) == WaitsForEntity(h, x)
  {
    if g.running != h.running && Excused(h, x) {
      StartExcuses(h, g, h.store[id], x);
    }
  }

  /** Everyone who waits is excused, or still to be tried. */
  ghost predicate ToSweep(h: Hub, relays: seq<nat>, entities: seq<nat>, skip: Option<nat>) {
    forall x :: x in h.store && Waits(h, x) ==>
      || Excused(h, x)
      || (Some(x) != skip && x in relays && Touched(h, x))
      || (Some(x) != skip && x in entities && WaitsForEntity(h, x))
  }

  ghost predicate Swept(h: Hub, g: Hub) {
    && SameDocuments(h, g) && g.shut == h.shut && g.freed == h.freed && g.entityFreed == h.entityFreed
    && PoolSize(g) == PoolSize(h) && g.free <= h.free
    && (forall id :: id in h.running ==> id in g.running)
    && (forall r :: OwnerOf(h, r).Some? ==> OwnerOf(g, r) == OwnerOf(h, r))
  }

  lemma TryKeepsToSweep(h: Hub, g: Hub, id: nat, relays: seq<nat>, entities: seq<nat>, skip: Option<nat>)
    requires id in h.store && h.store[id].id == id && Waits(h, id) && Tries(h, g, id)
    requires ToSweep(h, [id] + relays, entities, skip) || ToSweep(h, relays, [id] + entities, skip)
    ensures ToSweep(g, relays, entities, skip) && Swept(h, g)
  {
    forall x | x in g.store && Waits(g, x)
      ensures Excused(g, x) || (Some(x) != skip && x in relays && Touched(g, x))
           || (Some(x) != skip && x in entities && WaitsForEntity(g, x))
    {
      if x != id {
        TryExcuses(h, g, id, x);
      }
    }
    if g.running != h.running {
      StartPool(h, g, h.store[id]);
    }
  }

  lemma SkipKeepsToSweep(h: Hub, id: nat, relays: seq<nat>, entities: seq<nat>, skip: Option<nat>)
    requires id in h.store && ToSweep(h, [id] + relays, entities, skip)
    requires !(Waits(h, id) && Some(id) != skip && Touched(h, id))
    ensures ToSweep(h, relays, entities, skip)
  {
    forall x | x in h.store && Waits(h, x)
      ensures Excused(h, x) || (Some(x) != skip && x in relays && Touched(h, x))
           || (Some(x) != skip && x in entities && WaitsForEntity(h, x)) {
    }
  }

  lemma SkipKeepsToSweepEntities(h: Hub, id: nat, entities: seq<nat>, skip: Option<nat>)
    requires ToSweep(h, [], [id] + entities, skip)
    requires !(Waits(h, id) && Some(id) != skip && WaitsForEntity(h, id))
    ensures ToSweep(h, [], entities, skip)
  {}

  lemma SweptTwice(h: Hub, g: Hub, k: Hub)
    requires Swept(h, g) && Swept(g, k)
    ensures Swept(h, k)
  {}

  lemma {:induction false} SweepRelaysKeeps(s: Sweep, ids: seq<nat>, entities: seq<nat>, skip: Option<nat>, now: nat)
    requires Books(s.hub) && LinkedBut(s.hub, {}) && ToSweep(s.hub, ids, entities, skip)
    requires forall x :: x in ids ==> x in s.hub.store
    ensures var g := SweepRelays(s, ids, skip, now).hub;
            Books(g) && LinkedBut(g, {}) && ToSweep(g, [], entities, skip) && Swept(s.hub, g)
    decreases |ids|
  {
    if ids != [] {
      var id := ids[0];
      var h := s.hub;
      assert ids == [id] + ids[1..];
      if Waits(h, id) && Some(id) != skip && Touched(h, id) {
        var tried := Tried(s, id, now);
        TriedDoes(s, id, now);
        TryKeeps(h, tried.hub, id);
        TryKeepsToSweep(h, tried.hub, id, ids[1..], entities, skip);
        hide BooksBut, LinkedBut, ToSweep, Tries, Waits, Touched, Tried;
        SweepRelaysKeeps(tried, ids[1..], entities, skip, now);
        SweptTwice(h, tried.hub, SweepRelays(tried, ids[1..], skip, now).hub);
      } else {
        SkipKeepsToSweep(h, id, ids[1..], entities, skip);
        SweepRelaysKeeps(s, ids[1..], entities, skip, now);
      }
    }
  }

  lemma {:induction false} SweepEntitiesKeeps(s: Sweep, ids: seq<nat>, skip: Option<nat>, now: nat)
    requires Books(s.hub) && LinkedBut(s.hub, {}) && ToSweep(s.hub, [], ids, skip)
    ensures var g := SweepEntities(s, ids, skip, now).hub;
            Books(g) && LinkedBut(g, {}) && ToSweep(g, [], [], skip) && Swept(s.hub, g)
    decreases |ids|
  {
    if ids != [] && s.hub.free != 0 {
      var id := ids[0];
      var h := s.hub;
      assert ids == [id] + ids[1..];
      if Waits(h, id) && Some(id) != skip && WaitsForEntity(h, id) {
        var tried := Tried(s, id, now);
        TriedDoes(s, id, now);
        TryKeeps(h, tried.hub, id);
        TryKeepsToSweep(h, tried.hub, id, [], ids[1..], skip);
        hide BooksBut, LinkedBut, ToSweep, Tries, Waits, WaitsForEntity, Tried;
        SweepEntitiesKeeps(tried, ids[1..], skip, now);
        SweptTwice(h, tried.hub, SweepEntities(tried, ids[1..], skip, now).hub);
      } else {
        SkipKeepsToSweepEntities(h, id, ids[1..], skip);
        SweepEntitiesKeeps(s, ids[1..], skip, now);
      }
    }
  }

  /** What the body of a mutator must leave for its end to settle. */
  ghost predicate Closable(h: Hub, skip: Option<nat>) {
    && Books(h) && LinkedBut(h, {})
    && (forall x :: x in h.store && Waits(h, x) ==>
          if Some(x) == skip then Excused(h, x) else Due(h, x, h.entityFreed))
  }

  ghost predicate SameButFlags(h: Hub, g: Hub) {
    g == h.(freed := g.freed, entityFreed := g.entityFreed)
  }

  lemma ClosingBegins(h: Hub, g: Hub, skip: Option<nat>)
    requires Closable(h, skip) && SameButFlags(h, g) && g.freed == h.freed
    ensures ToSweep(g, h.order, if h.entityFreed then h.order else [], skip)
    ensures h.freed == {} ==> ToSweep(g, [], if h.entityFreed then h.order else [], skip)
  {
    forall x | x in g.store && Waits(g, x)
      ensures Excused(g, x) || (Some(x) != skip && x in h.order && Touched(g, x))
           || (Some(x) != skip && x in h.order && h.entityFreed && WaitsForEntity(g, x))
    {
      assert Waits(h, x) && (Excused(h, x) ==> Excused(g, x));
    }
  }

  lemma ClosingEnds(h: Hub, g: Hub, skip: Option<nat>)
    requires Books(h) && LinkedBut(h, {}) && ToSweep(h, [], [], skip)
    requires SameButFlags(h, g) && g.freed == {} && !g.entityFreed
    ensures Good(g)
  {
    BooksIgnoreFlags(h, g);
    forall x | x in g.store && Waits(g, x) ensures Excused(g, x) {
      assert Waits(h, x) && Excused(h, x);
    }
  }

  lemma RelaysSweptKeeps(h: Hub, skip: Option<nat>, now: nat)
    requires Closable(h, skip)
    ensures var g := RelaysSwept(h, skip, now).hub;
            && Books(g) && LinkedBut(g, {}) && ToSweep(g, [], if h.entityFreed then h.order else [], skip)
            && Swept(h.(entityFreed := false), g) && (forall x :: x in h.order ==> x in g.store)
  {
    var begin := Sweep(h.(entityFreed := false), []);
    BooksIgnoreFlags(h, begin.hub);
    ClosingBegins(h, begin.hub, skip);
    if h.freed != {} {
      SweepRelaysKeeps(begin, h.order, if h.entityFreed then h.order else [], skip, now);
    }
    hide SweepRelays, Rightful, RunsRight, ToSweep;
  }

  lemma WaitersStartedKeeps(h: Hub, skip: Option<nat>, now: nat)
    requires Closable(h, skip)
    ensures var g := WaitersStarted(h, skip, now).hub;
            && Books(g) && LinkedBut(g, {}) && ToSweep(g, [], [], skip)
            && Swept(h.(entityFreed := false), g)
  {
    hide Books, LinkedBut, ToSweep, SweepEntities, RelaysSwept;
    RelaysSweptKeeps(h, skip, now);
    var relays := RelaysSwept(h, skip, now);
    if h.entityFreed {
      SweepEntitiesKeeps(relays, h.order, skip, now);
      SweptTwice(h.(entityFreed := false), relays.hub, SweepEntities(relays, h.order, skip, now).hub);
    }
    hide Swept;
  }

  /** The end of a mutator leaves nobody waiting that could start, and takes from no one. */
  lemma ClosingSettles(h: Hub, skip: Option<nat>, now: nat)
    requires Closable(h, skip)
    ensures var g := Closing(h, skip, now).hub;
            && Good(g) && SameDocuments(h, g) && g.shut == h.shut && PoolSize(g) == PoolSize(h)
            && (forall id :: id in h.running ==> id in g.running)
            && (forall r :: OwnerOf(h, r).Some? ==> OwnerOf(g, r) == OwnerOf(h, r))
  {
    WaitersStartedKeeps(h, skip, now);
    var last := WaitersStarted(h, skip, now).hub;
    var g := Closing(h, skip, now).hub;
    ClosingEnds(last, g, skip);
    assert forall r :: OwnerOf(g, r) == OwnerOf(last, r) && OwnerOf(h.(entityFreed := false), r) == OwnerOf(h, r);
  }

  lemma BooksIgnoreFlags(h: Hub, g: Hub)
    requires BooksBut(h, {}) && SameButFlags(h, g)
    ensures BooksBut(g, {})
  {
    forall r ensures Rightful(g, r, {}) {
      assert Rightful(h, r, {});
    }
    forall x | x in g.running ensures RunsRight(g, x) {
      assert RunsRight(h, x);
    }
  }
}
