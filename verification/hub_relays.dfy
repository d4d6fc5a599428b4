/** What some operations of the hub are in the life of one relay: letting go, claiming, keeping, and the
    take-over, which is a single step of it (components/climate_hub/climate_hub.cpp:1086-1205). `HubLives`
    goes on to whole runs. */
module HubRelays {
  import opened Options
  import R = RelayClaims
  import opened HubState
  import opened HubArbitration
  import opened HubTakeOver

  function LifeOf(h: Hub, r: nat): R.Life {
    R.Life(if r in h.claims then Some(h.claims[r].claim) else None,
           if r in h.history then Some(h.history[r]) else None,
           r in h.shut)
  }

  /** The output of `c` that drives `r`. */
  function OutputFor(c: Config, r: nat): Output
    requires r in Named(c)
  {
    if c.heat.relay == Some(r) then c.heat else c.cool
  }

  /** Letting go opens the relay and keeps its last switching for the next claim. */
  lemma LetGoIsLife(h: Hub, rs: set<nat>, now: nat, r: nat)
    requires rs <= h.claims.Keys && r in rs && h.claims[r].claim.initialized
    ensures LifeOf(RelaysLetGo(h, rs, now), r) == R.Drive(LifeOf(h, r), R.At(now, R.LetGo))
  {}

  function HistoryOf(h: Hub, r: nat): Option<R.RelaySwitching> {
    if r in h.history then Some(h.history[r]) else None
  }

  lemma ClaimedOutputAt(h: Hub, id: nat, out: Output, r: nat)
    ensures var g := ClaimedOutput(h, id, out);
            && g == h.(claims := g.claims)
            && (r in g.claims <==> r in h.claims || out.relay == Some(r))
            && (r in h.claims ==> g.claims[r] == h.claims[r])
            && (r !in h.claims && out.relay == Some(r) ==> g.claims[r] == Held(id, R.FreshClaim(HistoryOf(h, r))))
  {}

  lemma DwelledOutputAt(h: Hub, out: Output, r: nat)
    requires r in h.claims
    ensures var g := DwelledOutput(h, out);
            && g == h.(claims := g.claims) && r in g.claims
            && g.claims[r] == if out.relay == Some(r)
                              then h.claims[r].(claim := R.WithDwell(h.claims[r].claim, out.minOn, out.minOff))
                              else h.claims[r]
  {}

  lemma ClaimingAt(h: Hub, c: Config, r: nat)
    ensures var g := Claiming(h, c);
            && g == h.(claims := g.claims)
            && (r in h.claims ==> r in g.claims && g.claims[r] == h.claims[r])
            && (r !in h.claims && r in Named(c) ==>
                  r in g.claims && g.claims[r] == Held(c.id, R.FreshClaim(HistoryOf(h, r))))
  {
    ClaimedOutputAt(h, c.id, c.heat, r);
    ClaimedOutputAt(ClaimedOutput(h, c.id, c.heat), c.id, c.cool, r);
  }

  lemma DwelledAt(h: Hub, c: Config, r: nat)
    requires r in h.claims && Wired(c)
    ensures var g := Dwelled(h, c);
            && g == h.(claims := g.claims) && r in g.claims
            && g.claims[r] == if r in Named(c)
                              then h.claims[r].(claim := R.WithDwell(h.claims[r].claim, OutputFor(c, r).minOn,
                                                                     OutputFor(c, r).minOff))
                              else h.claims[r]
  {
    DwelledOutputAt(h, c.heat, r);
    DwelledOutputAt(DwelledOutput(h, c.heat), c.cool, r);
  }

  /** A new claim carries on from the relay's history. */
  lemma ClaimingIsLife(h: Hub, c: Config, now: nat, r: nat)
    requires r in Named(c) && r !in h.claims && Wired(c)
    ensures var out := OutputFor(c, r);
            LifeOf(Dwelled(Claiming(h, c), c), r) == R.Drive(LifeOf(h, r), R.At(now, R.Claimed(out.minOn, out.minOff)))
  {
    ClaimingAt(h, c, r);
    DwelledAt(Claiming(h, c), c, r);
  }

  /** A Save leaves a relay it keeps where it is, with the new dwell. */
  lemma KeepingIsLife(h: Hub, c: Config, now: nat, r: nat)
    requires r in Named(c) && r in h.claims && Wired(c)
    ensures var out := OutputFor(c, r);
            LifeOf(Dwelled(Claiming(h, c), c), r) == R.Drive(LifeOf(h, r), R.At(now, R.Saved(out.minOn, out.minOff)))
  {
    ClaimingAt(h, c, r);
    DwelledAt(Claiming(h, c), c, r);
  }

  // --- A take-over, relay by relay ---

  lemma OpenedElsewhere(h: Hub, relay: Option<nat>, now: nat, r: nat)
    requires r in h.claims && relay != Some(r)
    ensures r in OpenedAt(h, relay, now).claims && OpenedAt(h, relay, now).claims[r] == h.claims[r]
  {}

  lemma StoppedElsewhere(h: Hub, id: nat, now: nat, r: nat)
    requires id in h.running && PointsHome(h, id) && r in h.claims && h.claims[r].owner != id
    ensures var g := Stopped(h, id, now);
            r in g.claims && g.claims[r] == h.claims[r]
  {
    var heat := OpenedAt(h, h.running[id].heat, now);
    var open := OpenedAt(heat, h.running[id].cool, now);
    OpenedElsewhere(h, h.running[id].heat, now, r);
    OpenedElsewhere(heat, h.running[id].cool, now, r);
    assert r !in Owned(open, id);
  }

  function HandedTo(held: Held, id: nat): Held {
    Held(id, R.HandedOver(held.claim))
  }

  lemma HandedOutputAt(h: Hub, from: nat, c: Config, out: Output, r: nat)
    requires r in h.claims
    ensures var g := HandedOutput(h, from, c, out);
            && r in g.claims
            && g.claims[r] == if out.relay == Some(r) && h.claims[r].owner == from then HandedTo(h.claims[r], c.id)
                              else h.claims[r]
  {}

  lemma HandOverClaims(h: Hub, from: nat, c: Config, r: nat)
    requires r in h.claims && r in Named(c) && from != c.id
    ensures var g := HandOver(h, from, c);
            && r in g.claims
            && g.claims[r] == if h.claims[r].owner == from then HandedTo(h.claims[r], c.id) else h.claims[r]
  {
    HandedOutputAt(h, from, c, c.heat, r);
    HandedOutputAt(HandedOutput(h, from, c, c.heat), from, c, c.cool, r);
  }

  lemma HolderTakenClaims(h: Hub, from: nat, c: Config, now: nat, r: nat)
    requires from in h.running && from in h.store && RunsRight(h, from) && from != c.id
    requires r in h.claims && r in Named(c)
    ensures var g := HolderTaken(h, from, c, now);
            r in g.claims
            && g.claims[r] == if h.claims[r].owner == from then HandedTo(h.claims[r], c.id) else h.claims[r]
  {
    var off := Disabled(h, from);
    assert Named(off.store[from]) == Named(h.store[from]);
    assert forall x :: OwnerOf(off, x) == OwnerOf(h, x);
    HandOverDoes(off, from, c);
    HandOverClaims(off, from, c, r);
    StoppedElsewhere(HandOver(off, from, c), from, now, r);
  }

  lemma {:induction false} HoldersTakenClaims(h: Hub, c: Config, now: nat, r: nat)
    requires Taking(h, c) && r in Named(c) && r in h.claims
    ensures var g := HoldersTaken(h, c, now).hub;
            r in g.claims
            && g.claims[r] == if h.claims[r].owner != c.id then HandedTo(h.claims[r], c.id) else h.claims[r]
    decreases HeldElsewhere(h, c)
  {
    var holder := HolderOf(h, c);
    HolderMeans(h, c);
    if holder.None? {
      assert OwnerOf(h, r) == Some(c.id);
    } else {
      var from := holder.value;
      HolderRuns(h, c);
      HolderTakenDoes(h, from, c, now);
      HolderTakenClaims(h, from, c, now, r);
      var taken := HolderTaken(h, from, c, now);
      TakesKeepsTaking(h, taken, from, c);
      FewerHeldElsewhere(h, taken, from, c);
      HoldersTakenClaims(taken, c, now, r);
    }
  }

  lemma TriedElsewhere(s: Sweep, id: nat, now: nat, r: nat, owner: nat)
    requires Books(s.hub) && id in s.hub.store && Waits(s.hub, id)
    requires OwnerOf(s.hub, r) == Some(owner) && owner in s.hub.running
    ensures var g := Tried(s, id, now).hub;
            r in g.claims && g.claims[r] == s.hub.claims[r]
  {
    var h := s.hub;
    var c := h.store[id];
    WaitersOwnNothing(h, id);
    FailedStart(h, c, now);
    if Starting(h, c, now).why.None? {
      assert r !in Named(c);
      ClaimingAt(h, c, r);
      DwelledAt(Claiming(h, c), c, r);
    }
  }

  lemma {:induction false} SweepRelaysElsewhere(
      s: Sweep, ids: seq<nat>, skip: Option<nat>, now: nat, r: nat, owner: nat)
    requires Books(s.hub) && LinkedBut(s.hub, {}) && OwnerOf(s.hub, r) == Some(owner) && owner in s.hub.running
    ensures var g := SweepRelays(s, ids, skip, now).hub;
            && Books(g) && LinkedBut(g, {}) && r in g.claims && g.claims[r] == s.hub.claims[r] && owner in g.running
    decreases |ids|
  {
    if ids != [] {
      var id := ids[0];
      if Waits(s.hub, id) && Some(id) != skip && Touched(s.hub, id) {
        TriedDoes(s, id, now);
        TryKeeps(s.hub, Tried(s, id, now).hub, id);
        TriedElsewhere(s, id, now, r, owner);
        SweepRelaysElsewhere(Tried(s, id, now), ids[1..], skip, now, r, owner);
      } else {
        SweepRelaysElsewhere(s, ids[1..], skip, now, r, owner);
      }
    }
  }

  lemma {:induction false} SweepEntitiesElsewhere(
      s: Sweep, ids: seq<nat>, skip: Option<nat>, now: nat, r: nat, owner: nat)
    requires Books(s.hub) && LinkedBut(s.hub, {}) && OwnerOf(s.hub, r) == Some(owner) && owner in s.hub.running
    ensures var g := SweepEntities(s, ids, skip, now).hub;
            r in g.claims && g.claims[r] == s.hub.claims[r]
    decreases |ids|
  {
    if ids != [] && s.hub.free != 0 {
      var id := ids[0];
      if Waits(s.hub, id) && Some(id) != skip && WaitsForEntity(s.hub, id) {
        TriedDoes(s, id, now);
        TryKeeps(s.hub, Tried(s, id, now).hub, id);
        TriedElsewhere(s, id, now, r, owner);
        SweepEntitiesElsewhere(Tried(s, id, now), ids[1..], skip, now, r, owner);
      } else {
        SweepEntitiesElsewhere(s, ids[1..], skip, now, r, owner);
      }
    }
  }

  lemma ClosingElsewhere(h: Hub, skip: Option<nat>, now: nat, r: nat, owner: nat)
    requires Closable(h, skip) && OwnerOf(h, r) == Some(owner) && owner in h.running
    ensures var g := Closing(h, skip, now).hub;
            r in g.claims && g.claims[r] == h.claims[r]
  {
    var begin := Sweep(h.(entityFreed := false), []);
    BooksIgnoreFlags(h, begin.hub);
    var relays := if h.freed == {} then begin else SweepRelays(begin, h.order, skip, now);
    if h.freed != {} {
      SweepRelaysElsewhere(begin, h.order, skip, now, r, owner);
    }
    if h.entityFreed {
      SweepEntitiesElsewhere(relays, h.order, skip, now, r, owner);
    }
  }

  lemma StartedAt(h: Hub, c: Config, r: nat)
    requires h.free > 0 && r in h.claims && r in Named(c) && Wired(c)
    ensures var g := Started(h, c);
            var out := OutputFor(c, r);
            r in g.claims && g.claims[r].claim == R.WithDwell(h.claims[r].claim, out.minOn, out.minOff)
  {
    ClaimingAt(h, c, r);
    DwelledAt(Claiming(h, c), c, r);
  }

  lemma SuccessStarts(h: Hub, c: Config, now: nat)
    requires Starting(h, c, now).why.None?
    ensures h.free > 0 && Starting(h, c, now).hub == Started(h, c)
  {}

  lemma SwitchedOnDocument(h: Hub, c: Config, r: nat)
    requires c.id in h.store && h.store[c.id] == c && r in Named(c) && Wired(c)
    ensures var on := SwitchedOn(h, c.id);
            var d := on.store[c.id];
            && on.claims == h.claims && d.id == c.id && Wired(d) && r in Named(d) && OutputFor(d, r) == OutputFor(c, r)
  {}

  /** The taker's own start, before the waiters' turn. */
  lemma TakerClaims(h: Hub, c: Config, now: nat, r: nat)
    requires c.id in h.store && h.store[c.id] == c && r in Named(c) && r in h.claims && Wired(c)
    requires Starting(SwitchedOn(h, c.id), SwitchedOn(h, c.id).store[c.id], now).why.None?
    ensures var g := Starting(SwitchedOn(h, c.id), SwitchedOn(h, c.id).store[c.id], now).hub;
            var out := OutputFor(c, r);
            r in g.claims && g.claims[r].claim == R.WithDwell(h.claims[r].claim, out.minOn, out.minOff)
  {
    SwitchedOnDocument(h, c, r);
    var on := SwitchedOn(h, c.id);
    SuccessStarts(on, on.store[c.id], now);
    hide Starting, Started;
    StartedAt(on, on.store[c.id], r);
  }

  lemma StartedClaims(h: Hub, c: Config, stopped: seq<nat>, now: nat, r: nat)
    requires Taking(h, c) && HolderOf(h, c).None? && Present(h.device, c) && h.free > 0
    requires r in Named(c) && r in h.claims && Wired(c)
    ensures var g := Enabled(h, c.id, stopped, now).hub;
            var out := OutputFor(c, r);
            r in g.claims && g.claims[r].claim == R.WithDwell(h.claims[r].claim, out.minOn, out.minOff)
  {
    assert c.id in h.store && h.store[c.id] == c;
    hide Taking, Closable, HolderOf, PoolSize, Starting, Closing, Enabled;
    TakerStarts(h, c);
    TakerClaims(h, c, now, r);
    EnabledEnds(h, c.id, stopped, now);
    SwitchedOnDocument(h, c, r);
    var on := SwitchedOn(h, c.id);
    EndKeepsClaim(Starting(on, on.store[c.id], now).hub, c.id, now, r);
  }

  lemma EndKeepsClaim(h: Hub, id: nat, now: nat, r: nat)
    requires Closable(h, Some(id)) && id in h.running && id in h.store && r in Named(h.store[id])
    ensures var g := Closing(h, Some(id), now).hub;
            r in h.claims && r in g.claims && g.claims[r] == h.claims[r]
  {
    RunnersHold(h, id, r);
    ClosingElsewhere(h, Some(id), now, r, id);
  }

  lemma TakeOverClaims(h: Hub, id: nat, now: nat, r: nat)
    requires Good(h) && id in h.store && id !in h.running && TakingOver(h, id, now).report.refused.None?
    requires r in Named(h.store[id]) && r in h.claims
    ensures var out := OutputFor(h.store[id], r);
            var g := TakingOver(h, id, now).hub;
            && r in g.claims
            && g.claims[r].claim == R.WithDwell(R.HandedOver(h.claims[r].claim), out.minOn, out.minOff)
  {
    var c, dropped, taken := TakeOverSteps(h, id, now);
    WaitersOwnNothing(h, id);
    assert r !in Owned(h, id) && Wired(c);
    var stopped :| TakingOver(h, id, now) == Enabled(taken, id, stopped, now);
    hide Taking, Good, PoolSize, Enabled, HoldersTaken, ReserversDisabled, Gives, TakingOver, RunsAfter, ReserverOf,
         HolderOf;
    HoldersTakenClaims(dropped, c, now, r);
    StartedClaims(taken, c, stopped, now, r);
  }

  /** A relay both thermostats name changes hands exactly as it is: in its life the take-over is the
      one step `TakenOver`, so it is neither switched nor relieved of its dwell. */
  lemma TakeOverIsLife(h: Hub, id: nat, now: nat, r: nat)
    requires Good(h) && id in h.store && id !in h.running && TakingOver(h, id, now).report.refused.None?
    requires r in Named(h.store[id]) && r in h.claims
    ensures var out := OutputFor(h.store[id], r);
            var g := TakingOver(h, id, now).hub;
            && LifeOf(g, r).claim == R.Drive(LifeOf(h, r), R.At(now, R.TakenOver(out.minOn, out.minOff))).claim
            && LifeOf(g, r).relay == LifeOf(h, r).relay
  {
    TakeOverClaims(h, id, now, r);
    TakeOverRuns(h, id, now);
  }

  lemma RunnersHold(h: Hub, id: nat, r: nat)
    requires Books(h) && id in h.running && id in h.store && r in Named(h.store[id])
    ensures OwnerOf(h, r) == Some(id)
  {
    assert RunsRight(h, id);
  }
}
