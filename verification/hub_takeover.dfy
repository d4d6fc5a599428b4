/** Enabling a thermostat, alone or by taking its relays over, and the rule that no two enabled
    thermostats name one relay (components/climate_hub/climate_hub.cpp:709-787). */
module HubTakeOver {
  import opened Options
  import opened HubState
  import opened HubArbitration
  import opened HubMutators

  // --- No two enabled thermostats name one relay ---

  ghost predicate Exclusive(h: Hub) {
    forall a, b :: a in h.store && b in h.store && a != b && h.store[a].enabled && h.store[b].enabled ==>
      Named(h.store[a]) !! Named(h.store[b])
  }

  /** No enabled thermostat but `c` itself names a relay of `c`. */
  ghost predicate ClearOf(h: Hub, c: Config) {
    forall b :: b in h.store && b != c.id && h.store[b].enabled ==> Named(c) !! Named(h.store[b])
  }

  lemma HolderMeans(h: Hub, c: Config)
    ensures HolderOf(h, c).None? <==> forall r :: r in Named(c) && OwnerOf(h, r).Some? ==> OwnerOf(h, r) == Some(c.id)
    ensures HolderOf(h, c).Some? ==> exists r :: r in Named(c) && OwnerOf(h, r) == HolderOf(h, c)
  {
    assert c.heat.relay.Some? ==> c.heat.relay.value in Named(c);
    assert c.cool.relay.Some? ==> c.cool.relay.value in Named(c);
    if OutputHolder(h, c.id, c.heat).Some? {
      assert OwnerOf(h, c.heat.relay.value) == HolderOf(h, c);
    } else if OutputHolder(h, c.id, c.cool).Some? {
      assert OwnerOf(h, c.cool.relay.value) == HolderOf(h, c);
    }
  }

  /** What the check before a Save or an enable lets through shares no relay with an enabled
      thermostat. */
  lemma SavableIsClear(h: Hub, c: Config)
    requires Good(h) && Exclusive(h) && SavableRefusal(h, c).None?
    ensures ClearOf(h, c)
  {
    HolderMeans(h, c);
    forall b, r | b in h.store && b != c.id && h.store[b].enabled && r in Named(c) && r in Named(h.store[b])
      ensures false
    {
      NeverShared(h, c, b, r);
    }
  }

  lemma NeverShared(h: Hub, c: Config, b: nat, r: nat)
    requires Good(h) && Exclusive(h) && ReserverOf(h, c).None? && HolderOf(h, c).None?
    requires b in h.store && b != c.id && h.store[b].enabled && r in Named(c)
    ensures r !in Named(h.store[b])
  {
    HolderMeans(h, c);
    if b in h.running {
      assert RunsRight(h, b);
    } else {
      assert b in h.order && Waits(h, b) && !Reserves(h, c, h.store[b]);
      assert Rightful(h, r, {});
    }
  }

  lemma StoredStaysExclusive(h: Hub, g: Hub, doc: Config)
    requires Exclusive(h) && g.store == h.store[doc.id := doc] && (doc.enabled ==> ClearOf(h, doc))
    ensures Exclusive(g)
  {}

  // --- The take-over ---

  /** Some waiters that share a relay with `c` are disabled. */
  ghost predicate Drops(h: Hub, g: Hub, c: Config) {
    && g == h.(store := g.store, waiting := g.waiting) && g.store.Keys == h.store.Keys
    && c.id in g.store && g.store[c.id] == c
    && (forall x :: x in g.store ==> g.store[x] == h.store[x] || g.store[x] == h.store[x].(enabled := false))
  }

  lemma DropsFirst(h: Hub, w: nat, g: Hub, c: Config)
    requires w in h.store && w != c.id && Drops(Disabled(h, w), g, c)
    ensures Drops(h, g, c)
  {}

  lemma FewerEnabled(h: Hub, g: Hub, w: nat)
    requires w in h.store && h.store[w].enabled && g.store == h.store[w := h.store[w].(enabled := false)]
    ensures (set id | id in g.store && g.store[id].enabled) < (set id | id in h.store && h.store[id].enabled)
  {
    assert (set id | id in g.store && g.store[id].enabled) == (set id | id in h.store && h.store[id].enabled) - {w};
  }

  lemma {:induction false} DroppedKeeps(h: Hub, c: Config)
    requires Good(h) && c.id in h.store && h.store[c.id] == c && c.id !in h.running
    ensures var g := ReserversDisabled(h, c).hub;
            Good(g) && Drops(h, g, c) && ReserverOf(g, c).None?
    decreases set id | id in h.store && h.store[id].enabled
  {
    var waiter := ReserverOf(h, c);
    if waiter.Some? {
      var w := waiter.value;
      var off := Disabled(h, w);
      DisabledKeeps(h, w);
      FewerEnabled(h, off, w);
      assert off.store[c.id] == c;
      DroppedKeeps(off, c);
      assert ReserversDisabled(h, c).hub == ReserversDisabled(off, c).hub;
      DropsFirst(h, w, ReserversDisabled(off, c).hub, c);
    }
  }

  /** A running thermostat disabled, its relays that `to` names handed over, the rest let go. */
  ghost predicate Takes(h: Hub, g: Hub, from: nat, to: Config)
    requires from in h.store
  {
    && g.device == h.device && g.order == h.order
    && g.store == h.store[from := h.store[from].(enabled := false)]
    && g.waiting == h.waiting - {from} && g.running == h.running - {from}
    && g.free == h.free + 1 && g.entityFreed
    && TakenFrom(h, g, from, to)
    && g.freed == h.freed + (Owned(h, from) - Named(to))
    && g.shut == h.shut - (Owned(h, from) - Named(to))
  }

  lemma HandOverDoes(h: Hub, from: nat, to: Config)
    requires from in h.running && from in h.store && RunsRight(h, from) && from != to.id
    ensures var g := HandOver(h, from, to);
            && g == h.(claims := g.claims, running := g.running)
            && g.running - {from} == h.running - {from}
            && from in g.running && PointsHome(g, from)
            && Owned(g, from) == Owned(h, from) - Named(to)
  {
    var g := HandOver(h, from, to);
    HandOverOwners(h, from, to);
    assert forall r :: r in Owned(g, from) <==> OwnerOf(g, r) == Some(from);
    assert forall r :: r in Owned(h, from) <==> OwnerOf(h, r) == Some(from);
    HandOverPointers(h, from, to);
  }

  lemma HandedOutputPointers(h: Hub, from: nat, to: Config, out: Output)
    requires from in h.running && PointsHome(h, from) && from != to.id
    ensures var g := HandedOutput(h, from, to, out);
            from in g.running && PointsHome(g, from) && g.running - {from} == h.running - {from}
  {}

  lemma HandOverPointers(h: Hub, from: nat, to: Config)
    requires from in h.running && from in h.store && RunsRight(h, from) && from != to.id
    ensures var g := HandOver(h, from, to);
            && from in g.running && PointsHome(g, from) && g.running - {from} == h.running - {from}
  {
    assert PointsHome(h, from);
    HandedOutputPointers(h, from, to, to.heat);
    HandedOutputPointers(HandedOutput(h, from, to, to.heat), from, to, to.cool);
  }

  lemma HolderTakenDoes(h: Hub, from: nat, to: Config, now: nat)
    requires from in h.running && from in h.store && RunsRight(h, from) && from != to.id
    ensures Takes(h, HolderTaken(h, from, to, now), from, to)
  {
    var off := Disabled(h, from);
    assert RunsRight(off, from) by {
      assert Named(off.store[from]) == Named(h.store[from]);
      assert forall r :: OwnerOf(off, r) == OwnerOf(h, r);
    }
    HandOverDoes(off, from, to);
    HolderTakenOwners(h, from, to, now);
    var handed := HandOver(off, from, to);
    StoppedDoes(handed, from, now);
    assert Owned(off, from) == Owned(h, from);
  }

  /** Between the steps of a take-over by `c`. */
  ghost predicate Taking(h: Hub, c: Config) {
    && BooksBut(h, {c.id}) && LinkedBut(h, {}) && NoneForgotten(h, {c.id})
    && c.id in h.store && h.store[c.id] == c && c.id !in h.running
    && (forall r :: OwnerOf(h, r) == Some(c.id) ==> r in Named(c))
  }

  lemma TakesKeepsBooks(h: Hub, g: Hub, from: nat, c: Config)
    requires BooksBut(h, {c.id}) && from in h.store && Takes(h, g, from, c) && from != c.id
    ensures BooksBut(g, {c.id})
  {
    forall r ensures Rightful(g, r, {c.id}) {
      assert Rightful(h, r, {c.id});
    }
    forall x | x in g.running && x !in {c.id} ensures RunsRight(g, x) {
      assert RunsRight(h, x);
    }
  }

  lemma TakesForgetsNone(h: Hub, g: Hub, from: nat, c: Config)
    requires NoneForgotten(h, {c.id}) && from in h.store && Takes(h, g, from, c) && from != c.id
    ensures NoneForgotten(g, {c.id})
  {
    forall x | x in g.store && Waits(g, x) && x !in {c.id} ensures Due(g, x, g.entityFreed) {
      assert Due(h, x, h.entityFreed);
      if r :| r in Named(h.store[x]) && OwnerOf(h, r).Some? && OwnerOf(h, r) != Some(x) {
        if OwnerOf(h, r) == Some(from) && r !in Named(c) {
          assert r in g.freed;
        } else {
          assert OwnerOf(g, r).Some? && OwnerOf(g, r) != Some(x);
        }
      }
    }
  }

  lemma TakesPool(h: Hub, g: Hub, from: nat, c: Config)
    requires from in h.store && Takes(h, g, from, c) && from in h.running
    ensures PoolSize(g) == PoolSize(h)
  {
    assert g.running.Keys == h.running.Keys - {from};
    assert |g.running.Keys| == |h.running.Keys| - 1;
  }

  lemma TakesLinks(h: Hub, g: Hub, from: nat, c: Config)
    requires LinkedBut(h, {}) && from in h.store && Takes(h, g, from, c)
    ensures LinkedBut(g, {})
  {}

  lemma TakesKeepsTaking(h: Hub, g: Hub, from: nat, c: Config)
    requires Taking(h, c) && from in h.store && Takes(h, g, from, c) && from != c.id && from in h.running
    ensures Taking(g, c) && PoolSize(g) == PoolSize(h)
  {
    TakesKeepsBooks(h, g, from, c);
    TakesForgetsNone(h, g, from, c);
    TakesLinks(h, g, from, c);
    TakesPool(h, g, from, c);
  }

  lemma HolderRuns(h: Hub, c: Config)
    requires Taking(h, c) && HolderOf(h, c).Some?
    ensures var from := HolderOf(h, c).value;
            from != c.id && from in h.running && from in h.store && RunsRight(h, from)
  {
    HolderMeans(h, c);
    var r :| r in Named(c) && OwnerOf(h, r) == HolderOf(h, c);
    assert Rightful(h, r, {c.id});
  }

  /** What taking `c`'s holders down leaves as it was. */
  ghost predicate Gives(h: Hub, g: Hub, c: Config) {
    && g.device == h.device && g.order == h.order && g.store.Keys == h.store.Keys
    && (forall x :: x in h.store ==>
          || g.store[x] == h.store[x]
          || (x in h.running && x !in g.running && g.store[x] == h.store[x].(enabled := false)))
    && (forall x :: x in g.running ==> x in h.running)
    && (forall x :: x in h.store && x in h.running && x !in g.running ==> !g.store[x].enabled)
    && g.free >= h.free && g.shut <= h.shut
    && (forall r :: r in Named(c) ==> (r in g.shut <==> r in h.shut))
  }

  lemma TakesGives(h: Hub, g: Hub, from: nat, c: Config)
    requires from in h.store && from in h.running && Takes(h, g, from, c)
    ensures Gives(h, g, c)
  {}

  lemma GivesOn(h: Hub, g: Hub, k: Hub, c: Config)
    requires Gives(h, g, c) && Gives(g, k, c)
    ensures Gives(h, k, c)
  {}

  lemma {:induction false} HoldersTakenKeeps(h: Hub, c: Config, now: nat)
    requires Taking(h, c)
    ensures var g := HoldersTaken(h, c, now).hub;
            && Taking(g, c) && HolderOf(g, c).None? && Gives(h, g, c) && PoolSize(g) == PoolSize(h)
            && (HolderOf(h, c).Some? ==> g.free > 0)
    decreases HeldElsewhere(h, c)
  {
    var holder := HolderOf(h, c);
    if holder.Some? {
      var from := holder.value;
      HolderRuns(h, c);
      HolderTakenDoes(h, from, c, now);
      var taken := HolderTaken(h, from, c, now);
      TakesKeepsTaking(h, taken, from, c);
      TakesGives(h, taken, from, c);
      FewerHeldElsewhere(h, taken, from, c);
      HoldersTakenKeeps(taken, c, now);
      GivesOn(h, taken, HoldersTaken(taken, c, now).hub, c);
    }
  }

  // --- The start that ends it ---

  lemma StartForgetsNone(h: Hub, g: Hub, c: Config)
    requires NoneForgotten(h, {c.id}) && Starts(h, g, c) && MayClaim(h, c)
    ensures forall x :: x in g.store && Waits(g, x) ==> Due(g, x, g.entityFreed)
  {
    forall x | x in g.store && Waits(g, x) ensures Due(g, x, g.entityFreed) {
      assert Due(h, x, h.entityFreed);
      if Excused(h, x) {
        StartExcuses(h, g, c, x);
      }
    }
  }

  function SwitchedOn(h: Hub, id: nat): Hub
    requires id in h.store
  {
    h.(store := h.store[id := h.store[id].(enabled := true)])
  }

  lemma SwitchedOnTakes(h: Hub, c: Config)
    requires Taking(h, c) && HolderOf(h, c).None? && Present(h.device, c)
    ensures var on := SwitchedOn(h, c.id);
            var d := on.store[c.id];
            && Named(d) == Named(c) && BooksBut(on, {c.id}) && LinkedBut(on, {c.id}) && NoneForgotten(on, {c.id})
            && MayClaim(on, d)
  {
    var on := SwitchedOn(h, c.id);
    SwitchedOnKeepsBooks(h, c.id);
    SwitchedOnMayClaim(h, c);
    SwitchedOnForgetsNone(h, c.id);
    hide Books, BooksBut, MayClaim, NoneForgotten, Present;
  }

  lemma SwitchedOnKeepsBooks(h: Hub, id: nat)
    requires BooksBut(h, {id}) && id in h.store
    ensures BooksBut(SwitchedOn(h, id), {id})
  {
    var on := SwitchedOn(h, id);
    forall r ensures Rightful(on, r, {id}) {
      assert Rightful(h, r, {id});
    }
    forall x | x in on.running && x !in {id} ensures RunsRight(on, x) {
      assert RunsRight(h, x);
    }
  }

  lemma SwitchedOnMayClaim(h: Hub, c: Config)
    requires c.id in h.store && h.store[c.id] == c && HolderOf(h, c).None? && Present(h.device, c)
    ensures Named(SwitchedOn(h, c.id).store[c.id]) == Named(c)
    ensures MayClaim(SwitchedOn(h, c.id), SwitchedOn(h, c.id).store[c.id])
  {
    HolderMeans(h, c);
    var on := SwitchedOn(h, c.id);
    hide HolderOf;
    forall r | r in Named(on.store[c.id])
      ensures if OwnerOf(on, r).Some? then OwnerOf(on, r) == Some(c.id) else r in on.device.switches {
      assert OwnerOf(on, r) == OwnerOf(h, r);
    }
  }

  lemma SwitchedOnForgetsNone(h: Hub, id: nat)
    requires NoneForgotten(h, {id}) && id in h.store
    ensures NoneForgotten(SwitchedOn(h, id), {id})
  {
    var on := SwitchedOn(h, id);
    forall x | x in on.store && Waits(on, x) && x !in {id} ensures Due(on, x, on.entityFreed) {
      assert Due(h, x, h.entityFreed);
      if Excused(h, x) {
        StoredExcuses(h, on, id, x);
      }
    }
  }

  /** A start nothing stands in the way of is the same at any time. */
  lemma StartsNow(h: Hub, c: Config)
    requires Input(h.device, c.sensor).None? && h.free > 0 && MayClaim(h, c)
    ensures Starts(h, Started(h, c), c)
    ensures forall now :: Starting(h, c, now) == Attempt(Started(h, c), None)
  {
    RefusalMeans(h, c);
    StartedDoes(h, c);
    hide Refusal, Started, MayClaim;
  }

  lemma StartedCloses(h: Hub, g: Hub, c: Config)
    requires BooksBut(h, {c.id}) && LinkedBut(h, {c.id}) && NoneForgotten(h, {c.id})
    requires Starts(h, g, c) && MayClaim(h, c)
    requires c.id !in h.running && c.id in h.store && h.store[c.id] == c && c.enabled
    requires Input(h.device, c.sensor).None? && forall r :: OwnerOf(h, r) == Some(c.id) ==> r in Named(c)
    ensures Closable(g, Some(c.id)) && PoolSize(g) == PoolSize(h) && c.id in g.running
    ensures forall id :: id in h.running ==> id in g.running
  {
    assert {c.id} - {c.id} == {};
    StartKeepsBooks(h, g, c, {c.id});
    StartLinks(h, g, c, {c.id});
    StartPool(h, g, c);
    StartForgetsNone(h, g, c);
    hide BooksBut, LinkedBut, NoneForgotten, MayClaim, Due, OwnerOf, Named, PoolSize;
  }

  lemma TakerStarts(h: Hub, c: Config)
    requires Taking(h, c) && HolderOf(h, c).None? && Present(h.device, c) && h.free > 0
    ensures var on := SwitchedOn(h, c.id);
            var a := Starting(on, on.store[c.id], 0);
            && a.why.None? && Closable(a.hub, Some(c.id)) && c.id in a.hub.running
            && (forall id :: id in h.running ==> id in a.hub.running)
            && PoolSize(a.hub) == PoolSize(h) && SameDocuments(on, a.hub) && a.hub.shut == h.shut
            && forall now :: Starting(on, on.store[c.id], now) == a
  {
    var on := SwitchedOn(h, c.id);
    var d := on.store[c.id];
    SwitchedOnTakes(h, c);
    assert forall r :: OwnerOf(on, r) == OwnerOf(h, r);
    hide BooksBut, LinkedBut, NoneForgotten, MayClaim, Closable, HolderOf, OwnerOf, Named, Starting, Started, Input;
    assert Input(on.device, d.sensor).None?;
    StartsNow(on, d);
    StartedCloses(on, Started(on, d), d);
  }

  /** What an enable that starts leaves of a hub ready for it. */
  ghost predicate RunsAfter(h: Hub, a: Answer, c: Config) {
    && Good(a.hub) && PoolSize(a.hub) == PoolSize(h)
    && a.hub.device == h.device && a.hub.shut == h.shut
    && c.id in a.hub.running && a.report.warning.None? && a.report.refused.None?
    && (forall x :: x in h.running ==> x in a.hub.running)
    && a.hub.store.Keys == h.store.Keys
    && (forall x :: x in h.store ==>
          a.hub.store[x] == if x == c.id then h.store[x].(enabled := true) else h.store[x])
  }

  lemma EnabledEnds(h: Hub, id: nat, stopped: seq<nat>, now: nat)
    requires id in h.store
    ensures var a := Starting(SwitchedOn(h, id), SwitchedOn(h, id).store[id], now);
            var end := Closing(Noted(a, id), Some(id), now);
            Enabled(h, id, stopped, now) == Answer(end.hub, Report(None, a.why, stopped, end.started))
  {}

  lemma EndRunsAfter(h: Hub, on: Hub, started: Hub, g: Hub, report: Report, c: Config)
    requires c.id in h.store && on == SwitchedOn(h, c.id) && SameDocuments(on, started) && SameDocuments(started, g)
    requires Good(g) && PoolSize(g) == PoolSize(started) == PoolSize(h) && g.shut == started.shut == h.shut
    requires c.id in started.running && (forall id :: id in started.running ==> id in g.running)
    requires forall id :: id in h.running ==> id in started.running
    requires report.warning.None? && report.refused.None?
    ensures RunsAfter(h, Answer(g, report), c)
  {}

  lemma EnabledRuns(h: Hub, c: Config, stopped: seq<nat>, now: nat)
    requires Taking(h, c) && HolderOf(h, c).None? && Present(h.device, c) && h.free > 0
    ensures RunsAfter(h, Enabled(h, c.id, stopped, now), c)
  {
    TakerStarts(h, c);
    var on := SwitchedOn(h, c.id);
    var a := Starting(on, on.store[c.id], now);
    ClosingSettles(a.hub, Some(c.id), now);
    EnabledEnds(h, c.id, stopped, now);
    var e := Enabled(h, c.id, stopped, now);
    EndRunsAfter(h, on, a.hub, e.hub, e.report, c);
  }

  /** What a take-over leaves of `h`: the thermostat runs and holds every relay it names, each as it
      was; whoever is not enabled any more was in its way. */
  ghost predicate TookOver(h: Hub, a: Answer, c: Config) {
    && Good(a.hub) && PoolSize(a.hub) == PoolSize(h) && a.hub.device == h.device
    && c.id in a.hub.running && a.report.warning.None?
    && a.hub.shut <= h.shut && (forall r :: r in Named(c) ==> (r in a.hub.shut <==> r in h.shut))
    && a.hub.store.Keys == h.store.Keys
    && (forall x :: x in h.store ==>
          || a.hub.store[x] == h.store[x]
          || a.hub.store[x] == h.store[x].(enabled := x == c.id))
  }

  lemma TookOverFrom(h: Hub, dropped: Hub, taken: Hub, a: Answer, c: Config)
    requires c.id in h.store && h.store[c.id] == c
    requires Drops(h, dropped, c) && Gives(dropped, taken, c) && RunsAfter(taken, a, c)
    requires taken.store[c.id] == c && PoolSize(taken) == PoolSize(dropped)
    ensures TookOver(h, a, c)
  {
    hide Good, Named;
    forall x | x in h.store
      ensures a.hub.store[x] == h.store[x] || a.hub.store[x] == h.store[x].(enabled := x == c.id)
    {
      SameOrSwitched(h.store, dropped.store, taken.store, a.hub.store, c, x);
    }
    assert PoolSize(dropped) == PoolSize(h);
  }

  /** A document through the three steps of a take-over: switched off, or on where it is the taker's. */
  lemma SameOrSwitched(
      first: map<nat, Config>, dropped: map<nat, Config>, taken: map<nat, Config>, last: map<nat, Config>,
      c: Config, x: nat)
    requires x in first && x in dropped && x in taken && x in last
    requires dropped[x] == first[x] || dropped[x] == first[x].(enabled := false)
    requires taken[x] == dropped[x] || taken[x] == dropped[x].(enabled := false)
    requires x == c.id ==> first[x] == c && taken[x] == c
    requires last[x] == if x == c.id then taken[x].(enabled := true) else taken[x]
    ensures last[x] == first[x] || last[x] == first[x].(enabled := x == c.id)
  {}

  lemma NotRefused(h: Hub, id: nat, now: nat)
    requires id in h.store && TakingOver(h, id, now).report.refused.None?
    ensures Present(h.device, h.store[id]) && (h.free > 0 || HolderOf(h, h.store[id]).Some?)
    ensures var dropped := ReserversDisabled(h, h.store[id]);
            var taken := HoldersTaken(dropped.hub, h.store[id], now);
            TakingOver(h, id, now) == Enabled(taken.hub, id, taken.ids + dropped.ids, now)
  {}

  /** A take-over that is not refused always ends with the thermostat running, nobody waiting that
      could start, and every relay it names closed or open as the holder left it. */
  lemma TakeOverRuns(h: Hub, id: nat, now: nat)
    requires Good(h) && id in h.store && id !in h.running && TakingOver(h, id, now).report.refused.None?
    ensures TookOver(h, TakingOver(h, id, now), h.store[id])
  {
    var c, dropped, taken := TakeOverSteps(h, id, now);
    hide Good, PoolSize, TakingOver, Taking, ReserverOf;
    TookOverFrom(h, dropped, taken, TakingOver(h, id, now), c);
  }

  /** The states a take-over that is not refused goes through. */
  lemma TakeOverSteps(h: Hub, id: nat, now: nat) returns (c: Config, dropped: Hub, taken: Hub)
    requires Good(h) && id in h.store && id !in h.running && TakingOver(h, id, now).report.refused.None?
    ensures c == h.store[id] && c.id == id
    ensures dropped == ReserversDisabled(h, c).hub && taken == HoldersTaken(dropped, c, now).hub
    ensures Good(dropped) && Drops(h, dropped, c) && ReserverOf(dropped, c).None? && Taking(dropped, c)
    ensures Taking(taken, c) && HolderOf(taken, c).None? && Gives(dropped, taken, c) && taken.free > 0
    ensures PoolSize(taken) == PoolSize(dropped) && Present(taken.device, c) && taken.store[c.id] == c
    ensures RunsAfter(taken, TakingOver(h, id, now), c)
    ensures exists stopped :: TakingOver(h, id, now) == Enabled(taken, id, stopped, now)
  {
    c := h.store[id];
    assert c.id == id;
    NotRefused(h, id, now);
    hide Good, PoolSize, TakingOver, Enabled, RunsAfter, ReserverOf, Taking, Gives, HoldersTaken, ReserversDisabled,
         Present;
    DroppedKeeps(h, c);
    dropped := ReserversDisabled(h, c).hub;
    DroppedIsTaking(dropped, c);
    HoldersTakenKeeps(dropped, c, now);
    taken := HoldersTaken(dropped, c, now).hub;
    assert HolderOf(dropped, c) == HolderOf(h, c);
    EnabledRuns(taken, c, HoldersTaken(dropped, c, now).ids + ReserversDisabled(h, c).ids, now);
  }

  lemma DroppedIsTaking(h: Hub, c: Config)
    requires Good(h) && c.id in h.store && h.store[c.id] == c && c.id !in h.running
    ensures Taking(h, c)
  {
    ForgottenFromGood(h, c.id);
    WaitersOwnNothing(h, c.id);
    forall r ensures OwnerOf(h, r) != Some(c.id) && Rightful(h, r, {c.id}) {
      assert Rightful(h, r, {}) && (r in Owned(h, c.id) <==> OwnerOf(h, r) == Some(c.id));
    }
    forall x | x in h.running && x !in {c.id} ensures RunsRight(h, x) {
      assert RunsRight(h, x);
    }
  }

  /** After a take-over no other enabled thermostat names one of its relays. */
  lemma TakeOverClears(h: Hub, taken: Hub, a: Answer, c: Config)
    requires Good(h) && c.id in h.store && h.store[c.id] == c && c.id !in h.running && ReserverOf(h, c).None?
    requires Gives(h, taken, c) && RunsAfter(taken, a, c) && taken.store[c.id] == c
    ensures ClearOf(a.hub, c)
  {
    forall b, r | b in a.hub.store && b != c.id && a.hub.store[b].enabled && r in Named(c)
      ensures r !in Named(a.hub.store[b])
    {
      if b in a.hub.running {
        RunnersShareNone(a.hub, c.id, b, r);
      } else {
        WaitersShareNone(h, c, b, r);
      }
    }
  }

  lemma RunnersShareNone(h: Hub, a: nat, b: nat, r: nat)
    requires Books(h) && a in h.running && b in h.running && a != b && a in h.store && b in h.store
    requires r in Named(h.store[a])
    ensures r !in Named(h.store[b])
  {
    assert RunsRight(h, a) && RunsRight(h, b);
  }

  lemma WaitersShareNone(h: Hub, c: Config, b: nat, r: nat)
    requires Books(h) && c.id !in h.running && ReserverOf(h, c).None?
    requires b in h.store && b != c.id && Waits(h, b) && r in Named(c)
    ensures r !in Named(h.store[b])
  {
    WaitersOwnNothing(h, c.id);
    assert b in h.order && !Reserves(h, c, h.store[b]);
    assert r !in Owned(h, c.id);
  }

  lemma TakeOverClear(h: Hub, id: nat, now: nat)
    requires Good(h) && id in h.store && id !in h.running && TakingOver(h, id, now).report.refused.None?
    ensures ClearOf(TakingOver(h, id, now).hub, h.store[id])
  {
    var c, dropped, taken := TakeOverSteps(h, id, now);
    assert c.id !in dropped.running;
    hide Good, PoolSize, TakingOver, Taking, ReserverOf, Gives, RunsAfter, ClearOf;
    TakeOverClears(dropped, taken, TakingOver(h, id, now), c);
  }

  lemma TookOverExclusive(h: Hub, a: Answer, c: Config)
    requires Exclusive(h) && c.id in h.store && h.store[c.id] == c && TookOver(h, a, c) && ClearOf(a.hub, c)
    ensures Exclusive(a.hub)
  {
    forall x | x in h.store ensures Named(a.hub.store[x]) == Named(h.store[x]) {}
  }

  // --- Enabling and disabling ---

  /** An enable that takes nothing over is a Save of the same document, enabled. */
  lemma EnabledIsReplaced(h: Hub, id: nat, now: nat)
    requires id in h.store && h.store[id].id == id && id !in h.running
    ensures Enabled(h, id, [], now) == Replaced(h, h.store[id].(enabled := true), now)
  {}
}
