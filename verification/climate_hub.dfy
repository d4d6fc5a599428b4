/** The hub's own state and the methods that change it in place
    (components/climate_hub/climate_hub.cpp). Each does exactly what the function of `HubState`
    it names does, and each mutator keeps what `HubArbitration.Good` states. */
module ClimateHubs {
  import opened Options
  import opened RelayClaims
  import H = HubState
  import A = HubArbitration
  import T = HubTakeOver
  import HubRuns

  /** What a relay is remembered by does not depend on the others let go. */
  lemma LetGoAside(h: H.Hub, rs: set<nat>, r: nat, now: nat)
    requires rs <= h.claims.Keys && r in h.claims && r !in rs
    ensures var one := H.RelaysLetGo(h, rs, now);
            r in one.claims && H.Remembered(one, r, now) == H.Remembered(h, r, now)
  {
    assert H.DrivenAt(H.RelaysLetGo(h, rs, now), r) == H.DrivenAt(h, r);
    hide ForcedOff;
  }

  lemma HistoryOneMore(h: H.Hub, rs: set<nat>, r: nat, now: nat)
    requires rs <= h.claims.Keys && r in h.claims && r !in rs && r in H.RelaysLetGo(h, rs, now).claims
    ensures H.RelaysLetGo(H.RelaysLetGo(h, rs, now), {r}, now).history == H.RelaysLetGo(h, rs + {r}, now).history
  {
    LetGoAside(h, rs, r, now);
    hide H.Remembered;
  }

  lemma LetGoOneMore(h: H.Hub, rs: set<nat>, r: nat, now: nat)
    requires rs <= h.claims.Keys && r in h.claims && r !in rs
    ensures H.RelaysLetGo(H.RelaysLetGo(h, rs, now), {r}, now) == H.RelaysLetGo(h, rs + {r}, now)
  {
    hide H.Remembered;
    HistoryOneMore(h, rs, r, now);
    assert h.claims - rs - {r} == h.claims - (rs + {r});
    assert h.shut - rs - {r} == h.shut - (rs + {r}) && h.freed + rs + {r} == h.freed + (rs + {r});
  }

  class ClimateHub {
    const device: H.Device
    var order: seq<nat>
    var store: map<nat, H.Config>
    var claims: map<nat, H.Held>
    var shut: set<nat>
    var history: map<nat, RelaySwitching>
    var waiting: map<nat, H.Why>
    var freed: set<nat>
    var entityFreed: bool
    var running: map<nat, H.Runtime>
    var free: nat

    function View(): H.Hub
      reads this
    {
      H.Hub(device, order, store, claims, shut, history, waiting, freed, entityFreed, running, free)
    }

    /** Boot: the documents loaded from the folder, each enabled one started in order. */
    constructor (device: H.Device, order: seq<nat>, store: map<nat, H.Config>, shut: set<nat>,
                 pool: nat, now: nat)
      requires A.Documents(HubRuns.Loaded(device, order, store, shut, pool))
      ensures View() == HubRuns.Booted(HubRuns.Loaded(device, order, store, shut, pool), order, now)
      ensures A.Good(View()) && A.PoolSize(View()) == pool
    {
      this.device := device;
      this.order := order;
      this.store := store;
      this.shut := shut;
      this.free := pool;
      claims, history, waiting, freed, entityFreed, running := map[], map[], map[], {}, false, map[];
      new;
      ghost var loaded := View();
      for i := 0 to |order|
        invariant this.order == order && View().store == store && View().device == device
        invariant HubRuns.Booted(View(), order[i..], now) == HubRuns.Booted(loaded, order, now)
      {
        var id := order[i];
        assert order[i..][1..] == order[i + 1..];
        if IsWaiting(id) {
          var why := Start(store[id], now);
          NoteWaiting(id, why);
        }
      }
      HubRuns.BootIsGood(loaded, now);
    }

    predicate IsWaiting(id: nat)
      reads this
      ensures IsWaiting(id) == H.Waits(View(), id)
    {
      id in store && store[id].enabled && id !in running
    }

    // --- Claims ---

    /** Claims every relay `c` names, or none. */
    method AcquireClaims(c: H.Config) returns (why: Option<H.Why>)
      modifies this`claims
      ensures why == H.Refusal(old(View()), c)
      ensures View() == if why.Some? then old(View()) else H.Claiming(old(View()), c)
    {
      why := H.Refusal(View(), c);
      if why.Some? {
        return;
      }
      Claim(c.id, c.heat);
      Claim(c.id, c.cool);
    }

    method Claim(id: nat, out: H.Output)
      modifies this`claims
      ensures View() == H.ClaimedOutput(old(View()), id, out)
    {
      if out.relay.Some? && out.relay.value !in claims {
        var r := out.relay.value;
        var last := if r in history then Some(history[r]) else None;
        claims := claims[r := H.Held(id, FreshClaim(last))];
      }
    }

    method SetDwell(out: H.Output)
      modifies this`claims
      ensures View() == H.DwelledOutput(old(View()), out)
    {
      if out.relay.Some? && out.relay.value in claims {
        var r := out.relay.value;
        claims := claims[r := claims[r].(claim := WithDwell(claims[r].claim, out.minOn, out.minOff))];
      }
    }

    /** One relay let go: afterwards it is open, unclaimed, in the history and noted as freed. */
    method LetGoOf(r: nat, now: nat)
      requires r in claims
      modifies this`claims, this`shut, this`history, this`freed
      ensures View() == H.RelaysLetGo(old(View()), {r}, now)
    {
      hide ForcedOff, LastSwitching;
      var d := ForcedOff(Driven(claims[r].claim, r in shut), now, false);
      var last := LastSwitching(d.claim);
      shut := shut - {r};
      var known := if r in history then history[r] else RelaySwitching(false, 0);
      history := history[r := if last.Some? then last.value else known];
      freed := freed + {r};
      claims := claims - {r};
      assert View().history == H.RelaysLetGo(old(View()), {r}, now).history;
    }

    method LetGoAll(rs: set<nat>, now: nat)
      requires rs <= claims.Keys
      modifies this`claims, this`shut, this`history, this`freed
      ensures View() == H.RelaysLetGo(old(View()), rs, now)
    {
      var todo := rs;
      ghost var done := {};
      A.LetGoNothing(View(), now);
      while todo != {}
        invariant todo !! done && todo + done == rs
        invariant View() == H.RelaysLetGo(old(View()), done, now)
      {
        var r :| r in todo;
        LetGoOneMore(old(View()), done, r, now);
        LetGoOf(r, now);
        todo := todo - {r};
        done := done + {r};
      }
      assert done == rs;
    }

    method ReleaseClaims(id: nat, now: nat)
      modifies this`claims, this`shut, this`history, this`freed
      ensures View() == H.Released(old(View()), id, now)
    {
      LetGoAll((set r | r in claims && claims[r].owner == id), now);
    }

    // --- Running and stopping ---

    method NoteWaiting(id: nat, why: Option<H.Why>)
      modifies this`waiting
      ensures View() == H.Noted(H.Attempt(old(View()), why), id)
    {
      if why.Some? {
        waiting := waiting[id := why.value];
      }
    }

    method Start(c: H.Config, now: nat) returns (why: Option<H.Why>)
      modifies this`claims, this`shut, this`history, this`freed, this`running, this`free, this`waiting
      ensures H.Attempt(View(), why) == H.Starting(old(View()), c, now)
    {
      why := H.Input(device, c.sensor);
      if why.Some? {
        return;
      }
      if free == 0 {
        ReleaseClaims(c.id, now);
        return Some(H.NoFreeEntity);
      }
      why := AcquireClaims(c);
      if why.Some? {
        ReleaseClaims(c.id, now);
        return;
      }
      SetDwell(c.heat);
      SetDwell(c.cool);
      running := running[c.id := H.Runtime(c.heat.relay, c.cool.relay)];
      free := free - 1;
      waiting := waiting - {c.id};
    }

    /** The control loop of `id` opens the relay through the claim it points at. */
    method Open(relay: Option<nat>, now: nat)
      modifies this`claims, this`shut
      ensures View() == H.OpenedAt(old(View()), relay, now)
    {
      if relay.Some? && relay.value in claims {
        var r := relay.value;
        var d := ForcedOff(Driven(claims[r].claim, r in shut), now, false);
        claims := claims[r := claims[r].(claim := d.claim)];
        shut := shut - {r};
      }
    }

    method Stop(id: nat, now: nat)
      requires id in running
      modifies this`claims, this`shut, this`history, this`freed, this`running, this`free, this`entityFreed
      ensures View() == H.Stopped(old(View()), id, now)
    {
      Open(running[id].heat, now);
      Open(running[id].cool, now);
      ReleaseClaims(id, now);
      running := running - {id};
      free := free + 1;
      entityFreed := true;
    }

    method Restart(c: H.Config, now: nat) returns (why: Option<H.Why>)
      requires c.id in running
      modifies this
      ensures H.Attempt(View(), why) == H.Restarting(old(View()), c, now)
    {
      why := H.Input(device, c.sensor);
      if why.Some? {
        Stop(c.id, now);
        return;
      }
      why := AcquireClaims(c);
      if why.Some? {
        Stop(c.id, now);
        return;
      }
      LetGoAll((set r | r in claims && claims[r].owner == c.id) - H.Named(c), now);
      SetDwell(c.heat);
      SetDwell(c.cool);
      running := running[c.id := H.Runtime(c.heat.relay, c.cool.relay)];
    }

    // --- Waiters ---

    method TryStart(id: nat, now: nat) returns (ok: bool)
      requires id in store
      modifies this
      ensures forall started :: H.Sweep(View(), if ok then started + [id] else started)
                             == H.Tried(H.Sweep(old(View()), started), id, now)
      ensures order == old(order) && store == old(store)
    {
      var why := Start(store[id], now);
      NoteWaiting(id, why);
      return why.None?;
    }

    method StartOnFreedRelays(skip: Option<nat>, now: nat) returns (started: seq<nat>)
      modifies this
      ensures H.Sweep(View(), started) == H.SweepRelays(H.Sweep(old(View()), []), old(order), skip, now)
    {
      hide H.Starting, H.Tried, H.Noted;
      started := [];
      for i := 0 to |order|
        invariant order == old(order)
        invariant H.SweepRelays(H.Sweep(View(), started), order[i..], skip, now)
               == H.SweepRelays(H.Sweep(old(View()), []), order, skip, now)
      {
        var id := order[i];
        assert order[i..][1..] == order[i + 1..];
        ghost var before := H.Sweep(View(), started);
        if IsWaiting(id) && Some(id) != skip && exists r :: r in H.Named(store[id]) && r in freed {
          var ok := TryStart(id, now);
          started := if ok then started + [id] else started;
          assert H.Sweep(View(), started) == H.Tried(before, id, now);
        }
      }
    }

    /** The sweep over waiters for an entity; it stops where the pool is empty, as `SweepEntities` does. */
    method StartOnFreedEntities(begun: seq<nat>, skip: Option<nat>, now: nat) returns (started: seq<nat>)
      modifies this
      ensures H.Sweep(View(), started) == H.SweepEntities(H.Sweep(old(View()), begun), old(order), skip, now)
    {
      hide H.Starting, H.Tried, H.Noted;
      started := begun;
      for i := 0 to |order|
        invariant order == old(order)
        invariant H.SweepEntities(H.Sweep(View(), started), order[i..], skip, now)
               == H.SweepEntities(H.Sweep(old(View()), begun), order, skip, now)
      {
        if free == 0 {
          break;
        }
        var id := order[i];
        assert order[i..][1..] == order[i + 1..];
        ghost var before := H.Sweep(View(), started);
        if IsWaiting(id) && Some(id) != skip && id in waiting && waiting[id] == H.NoFreeEntity {
          var ok := TryStart(id, now);
          started := if ok then started + [id] else started;
          assert H.Sweep(View(), started) == H.Tried(before, id, now);
        }
      }
    }

    /** First the waiters on a freed relay, then, if an entity came free, the ones that wait for one. */
    method StartWaiters(skip: Option<nat>, now: nat) returns (started: seq<nat>)
      modifies this
      ensures H.Sweep(View(), started) == H.WaitersStarted(old(View()), skip, now)
    {
      var entity := entityFreed;
      entityFreed := false;
      started := [];
      if freed != {} {
        started := StartOnFreedRelays(skip, now);
        H.SweepKeepsOrder(H.Sweep(old(View()).(entityFreed := false), []), old(order), skip, now);
      }
      if entity {
        started := StartOnFreedEntities(started, skip, now);
      }
    }

    /** The end of a mutator. */
    method Close(skip: Option<nat>, now: nat) returns (started: seq<nat>)
      modifies this
      ensures H.Sweep(View(), started) == H.Closing(old(View()), skip, now)
    {
      started := StartWaiters(skip, now);
      freed := {};
    }

    // --- Mutators ---

    method Add(doc: H.Config, now: nat) returns (report: H.Report)
      requires A.Good(View()) && doc.id !in store && H.Wired(doc)
      modifies this
      ensures H.Answer(View(), report) == H.Added(old(View()), doc, now)
    {
      store := store[doc.id := doc];
      order := H.InsertId(order, doc.id);
      var why := None;
      if doc.enabled {
        why := Start(doc, now);
        NoteWaiting(doc.id, why);
      }
      return H.Report(None, why, [], []);
    }

    method Replace(doc: H.Config, now: nat) returns (report: H.Report)
      modifies this
      ensures H.Answer(View(), report) == H.Replaced(old(View()), doc, now)
    {
      var id := doc.id;
      store := store[id := doc];
      if !doc.enabled {
        waiting := waiting - {id};
      }
      var why := None;
      if id in running && !doc.enabled {
        Stop(id, now);
      } else if id in running {
        why := Restart(doc, now);
      } else if doc.enabled {
        why := Start(doc, now);
      }
      NoteWaiting(id, why);
      var started := Close(Some(id), now);
      return H.Report(None, why, [], started);
    }

    method Create(draft: H.Config, with: H.Saving, now: nat) returns (report: H.Report)
      requires A.Good(View())
      modifies this
      ensures H.Answer(View(), report) == H.Creating(old(View()), draft, with, now)
      ensures HubRuns.Keeps(old(View()), View())
    {
      HubRuns.CreatingKeeps(View(), draft, with, now);
      if !H.Wired(draft) {
        return H.Refuse(View(), H.Refused(400, None)).report;
      }
      if |store| >= with.maxControllers {
        return H.Refuse(View(), H.Refused(507, None)).report;
      }
      if with.nameTaken || draft.id in store {
        return H.Refuse(View(), H.Refused(409, None)).report;
      }
      if draft.enabled {
        var refused := CheckSavable(draft);
        if refused.Some? {
          return H.Refuse(View(), refused.value).report;
        }
      }
      if !with.written {
        return H.Refuse(View(), H.Refused(500, None)).report;
      }
      report := Add(draft.(newer := false), now);
    }

    method CheckSavable(c: H.Config) returns (refused: Option<H.Refused>)
      ensures refused == H.SavableRefusal(View(), c)
    {
      if H.Input(device, c.sensor) == Some(H.NotCelsius) {
        return Some(H.Refused(400, None));
      }
      var holder := H.HolderOf(View(), c);
      if holder.Some? {
        return Some(H.Refused(409, holder));
      }
      holder := FindReserver(c);
      if holder.Some? {
        return Some(H.Refused(409, holder));
      }
      return None;
    }

    method FindReserver(c: H.Config) returns (waiter: Option<nat>)
      ensures waiter == H.ReserverOf(View(), c)
    {
      for i := 0 to |order|
        invariant H.ReserverAmong(View(), c, order[i..]) == H.ReserverOf(View(), c)
      {
        var id := order[i];
        assert order[i..][1..] == order[i + 1..];
        if id != c.id && IsWaiting(id) && H.Reserves(View(), c, store[id]) {
          return Some(id);
        }
      }
      return None;
    }

    method Update(id: nat, doc: H.Config, with: H.Saving, now: nat) returns (report: H.Report)
      requires A.Good(View())
      modifies this
      ensures H.Answer(View(), report) == H.Updating(old(View()), id, doc, with, now)
      ensures HubRuns.Keeps(old(View()), View())
    {
      HubRuns.UpdatingKeeps(View(), id, doc, with, now);
      if id !in store {
        return H.Refuse(View(), H.Refused(404, None)).report;
      }
      if store[id].newer {
        return H.Refuse(View(), H.Refused(409, None)).report;
      }
      if !H.Wired(doc) {
        return H.Refuse(View(), H.Refused(400, None)).report;
      }
      if with.nameTaken {
        return H.Refuse(View(), H.Refused(409, None)).report;
      }
      var kept := doc.(id := id, newer := false);
      if kept.enabled {
        var refused := CheckSavable(kept);
        if refused.Some? {
          return H.Refuse(View(), refused.value).report;
        }
      }
      if !with.written {
        return H.Refuse(View(), H.Refused(500, None)).report;
      }
      report := Replace(kept, now);
    }

    method Restore(doc: H.Config, with: H.Saving, now: nat) returns (report: H.Report)
      requires A.Good(View())
      modifies this
      ensures H.Answer(View(), report) == H.Restoring(old(View()), doc, with, now)
      ensures HubRuns.Keeps(old(View()), View())
    {
      if !H.Wired(doc) {
        HubRuns.CreatingKeeps(View(), doc, with, now);
        return H.Refuse(View(), H.Refused(400, None)).report;
      }
      if doc.id in store {
        report := Update(doc.id, doc, with, now);
      } else {
        report := Create(doc, with, now);
      }
    }

    method Remove(id: nat, now: nat) returns (report: H.Report)
      requires A.Good(View())
      modifies this
      ensures H.Answer(View(), report) == H.Removing(old(View()), id, now)
      ensures HubRuns.Keeps(old(View()), View())
    {
      hide A.Good, A.PoolSize, H.Stopped, H.Closing, HubRuns.Keeps;
      HubRuns.RemovingStaysExclusive(View(), id, now);
      if id !in store {
        return H.Refuse(View(), H.Refused(404, None)).report;
      }
      if id in running {
        Stop(id, now);
      }
      waiting := waiting - {id};
      store := store - {id};
      order := H.RemoveId(order, id);
      var started := Close(None, now);
      return H.Report(None, None, [], started);
    }

    method Disable(id: nat)
      requires id in store
      modifies this`store, this`waiting
      ensures View() == H.Disabled(old(View()), id)
    {
      store := store[id := store[id].(enabled := false)];
      waiting := waiting - {id};
    }

    method HandOutput(from: nat, to: H.Config, out: H.Output)
      modifies this`claims, this`running
      ensures View() == H.HandedOutput(old(View()), from, to, out)
    {
      if out.relay.Some? && out.relay.value in claims && claims[out.relay.value].owner == from {
        var r := out.relay.value;
        if from in running {
          var runtime := running[from];
          running := running[from := H.Runtime(if runtime.heat == Some(r) then None else runtime.heat,
                                               if runtime.cool == Some(r) then None else runtime.cool)];
        }
        claims := claims[r := H.Held(to.id, HandedOver(claims[r].claim))];
      }
    }

    method TakeHolder(from: nat, to: H.Config, now: nat)
      modifies this
      ensures View() == H.HolderTaken(old(View()), from, to, now)
    {
      hide H.Stopped, H.Released;
      if from in store {
        Disable(from);
      }
      HandOutput(from, to, to.heat);
      HandOutput(from, to, to.cool);
      if from in running {
        Stop(from, now);
      } else {
        ReleaseClaims(from, now);
      }
    }

    /** Disables rivals that wait until none is left; each round has one fewer enabled. */
    method DropReservers(c: H.Config) returns (ids: seq<nat>)
      modifies this`store, this`waiting
      ensures H.Cleared(View(), ids) == H.ReserversDisabled(old(View()), c)
    {
      ids := [];
      var waiter := FindReserver(c);
      while waiter.Some?
        invariant waiter == H.ReserverOf(View(), c)
        invariant H.Cleared(H.ReserversDisabled(View(), c).hub, ids + H.ReserversDisabled(View(), c).ids)
               == H.ReserversDisabled(old(View()), c)
        decreases set id | id in store && store[id].enabled
      {
        ghost var before := View();
        var w := waiter.value;
        Disable(w);
        ids := ids + [w];
        T.FewerEnabled(before, View(), w);
        waiter := FindReserver(c);
      }
    }

    /** Takes relays from rivals that run until none is left; each round fewer are held elsewhere. */
    method TakeHolders(c: H.Config, now: nat) returns (ids: seq<nat>)
      modifies this
      ensures H.Cleared(View(), ids) == H.HoldersTaken(old(View()), c, now)
    {
      hide H.HolderTaken;
      ids := [];
      var holder := H.HolderOf(View(), c);
      while holder.Some?
        invariant holder == H.HolderOf(View(), c)
        invariant H.Cleared(H.HoldersTaken(View(), c, now).hub, ids + H.HoldersTaken(View(), c, now).ids)
               == H.HoldersTaken(old(View()), c, now)
        decreases H.HeldElsewhere(View(), c)
      {
        ghost var before := View();
        var from := holder.value;
        H.HolderTakenOwners(before, from, c, now);
        TakeHolder(from, c, now);
        H.FewerHeldElsewhere(before, View(), from, c);
        ids := ids + [from];
        holder := H.HolderOf(View(), c);
      }
    }

    /** The flag, the thermostat's own start, then the waiters'. */
    method Enable(id: nat, stopped: seq<nat>, now: nat) returns (report: H.Report)
      requires id in store
      modifies this
      ensures H.Answer(View(), report) == H.Enabled(old(View()), id, stopped, now)
    {
      hide H.Starting, H.Closing;
      store := store[id := store[id].(enabled := true)];
      var why := Start(store[id], now);
      NoteWaiting(id, why);
      var started := Close(Some(id), now);
      return H.Report(None, why, stopped, started);
    }

    method TakeOver(id: nat, now: nat) returns (report: H.Report)
      requires id in store
      modifies this
      ensures H.Answer(View(), report) == H.TakingOver(old(View()), id, now)
    {
      hide H.HoldersTaken, H.ReserversDisabled, H.Enabled;
      var c := store[id];
      if H.Input(device, c.sensor).Some? || !(H.Named(c) <= device.switches) {
        return H.Refuse(View(), H.Refused(400, None)).report;
      }
      if free == 0 && H.HolderOf(View(), c).None? {
        return H.Refuse(View(), H.Refused(409, None)).report;
      }
      var waiters := DropReservers(c);
      var stopped := TakeHolders(c, now);
      report := Enable(id, stopped + waiters, now);
    }

    method SetEnabled(id: nat, enabled: bool, takeOver: bool, now: nat) returns (report: H.Report)
      requires A.Good(View())
      modifies this
      ensures H.Answer(View(), report) == H.Enabling(old(View()), id, enabled, takeOver, now)
      ensures HubRuns.Keeps(old(View()), View())
    {
      hide A.Good, A.PoolSize, HubRuns.Keeps, H.TakingOver, H.Enabled, H.Stopped, H.Closing, H.SavableRefusal;
      HubRuns.EnablingKeeps(View(), id, enabled, takeOver, now);
      if id !in store {
        return H.Refuse(View(), H.Refused(404, None)).report;
      }
      if !enabled {
        Disable(id);
        if id in running {
          Stop(id, now);
        }
        var started := Close(Some(id), now);
        return H.Report(None, None, [], started);
      }
      if id in running {
        return H.Report(None, None, [], []);
      }
      var refused := CheckSavable(store[id]);
      if refused.None? {
        report := Enable(id, [], now);
      } else if refused.value.holder.None? || !takeOver {
        return H.Refuse(View(), refused.value).report;
      } else {
        report := TakeOver(id, now);
      }
    }
  }
}
