/** The thermostats of one device as `ClimateHub` keeps them, and what each of its operations does to
    them, on values (components/climate_hub/climate_hub.cpp). A thermostat's id is its place in the
    order of the id strings; relays and sensors are numbered. */
module HubState {
  import opened Options
  import opened RelayClaims

  datatype Output = Output(relay: Option<nat>, minOn: nat, minOff: nat)

  /** A document: what of it decides who runs. `body` stands for everything else. */
  datatype Config = Config(
    id: nat, enabled: bool, newer: bool, sensor: nat, heat: Output, cool: Output, body: nat)

  function Named(c: Config): set<nat> {
    (if c.heat.relay.Some? then {c.heat.relay.value} else {}) +
    (if c.cool.relay.Some? then {c.cool.relay.value} else {})
  }

  /** At least one direction, and not the same relay for both. */
  predicate Wired(c: Config) {
    c.heat.relay != c.cool.relay
  }

  /** The sensors on the device, each with whether it reports °C, and the switches. */
  datatype Device = Device(sensors: map<nat, bool>, switches: set<nat>)

  datatype Held = Held(owner: nat, claim: Claim)

  /** Which claims a running thermostat's control loop points at. */
  datatype Runtime = Runtime(heat: Option<nat>, cool: Option<nat>)

  datatype Why =
    | SensorMissing
    | NotCelsius
    | NoFreeEntity
    | RelayMissing(relay: nat)
    | RelayHeld(relay: nat, holder: nat)

  /** `shut` is the relays that are closed now, `order` the ids of `store` from first to last, `free`
      how many of the pool's climate entities no thermostat runs in. */
  datatype Hub = Hub(
    device: Device, order: seq<nat>, store: map<nat, Config>, claims: map<nat, Held>, shut: set<nat>,
    history: map<nat, RelaySwitching>, waiting: map<nat, Why>, freed: set<nat>, entityFreed: bool,
    running: map<nat, Runtime>, free: nat)

  // --- Claims ---

  function DrivenAt(h: Hub, r: nat): Driven
    requires r in h.claims
  {
    Driven(h.claims[r].claim, r in h.shut)
  }

  function Owned(h: Hub, id: nat): set<nat> {
    set r | r in h.claims && h.claims[r].owner == id
  }

  /** What the relay's history says once its claim is gone. */
  function Remembered(h: Hub, r: nat, now: nat): RelaySwitching
    requires r in h.claims
  {
    var last := LastSwitching(ForcedOff(DrivenAt(h, r), now, false).claim);
    if last.Some? then last.value else if r in h.history then h.history[r] else RelaySwitching(false, 0)
  }

  /** Each relay of `rs` is opened, remembered and let go. */
  function RelaysLetGo(h: Hub, rs: set<nat>, now: nat): (g: Hub)
    requires rs <= h.claims.Keys
    ensures g.store == h.store && g.order == h.order
  {
    h.(claims := h.claims - rs,
       shut := h.shut - rs,
       history := map r | r in h.history.Keys + rs :: if r in rs then Remembered(h, r, now) else h.history[r],
       freed := h.freed + rs)
  }

  function Released(h: Hub, id: nat, now: nat): (g: Hub)
    ensures g.store == h.store && g.order == h.order
  {
    RelaysLetGo(h, Owned(h, id), now)
  }

  function OpenedAt(h: Hub, relay: Option<nat>, now: nat): Hub {
    if relay.None? || relay.value !in h.claims then h
    else
      var r := relay.value;
      var d := ForcedOff(DrivenAt(h, r), now, false);
      h.(claims := h.claims[r := h.claims[r].(claim := d.claim)], shut := h.shut - {r})
  }

  /** Why the claims of `c` are refused, heat before cool. */
  function OutputRefusal(h: Hub, id: nat, out: Output): Option<Why> {
    if out.relay.None? then None
    else
      var r := out.relay.value;
      if r in h.claims then (if h.claims[r].owner != id then Some(RelayHeld(r, h.claims[r].owner)) else None)
      else if r !in h.device.switches then Some(RelayMissing(r))
      else None
  }

  function Refusal(h: Hub, c: Config): Option<Why> {
    var heat := OutputRefusal(h, c.id, c.heat);
    if heat.Some? then heat else OutputRefusal(h, c.id, c.cool)
  }

  function ClaimedOutput(h: Hub, id: nat, out: Output): (g: Hub)
    ensures g.order == h.order && g.store == h.store
  {
    if out.relay.None? || out.relay.value in h.claims then h
    else
      var r := out.relay.value;
      var last := if r in h.history then Some(h.history[r]) else None;
      h.(claims := h.claims[r := Held(id, FreshClaim(last))])
  }

  function Claiming(h: Hub, c: Config): (g: Hub)
    ensures g.order == h.order && g.store == h.store
  {
    ClaimedOutput(ClaimedOutput(h, c.id, c.heat), c.id, c.cool)
  }

  function DwelledOutput(h: Hub, out: Output): (g: Hub)
    ensures g.order == h.order && g.store == h.store
  {
    if out.relay.None? || out.relay.value !in h.claims then h
    else
      var r := out.relay.value;
      h.(claims := h.claims[r := h.claims[r].(claim := WithDwell(h.claims[r].claim, out.minOn, out.minOff))])
  }

  function Dwelled(h: Hub, c: Config): (g: Hub)
    ensures g.order == h.order && g.store == h.store
  {
    DwelledOutput(DwelledOutput(h, c.heat), c.cool)
  }

  // --- Running and stopping ---

  function Input(device: Device, sensor: nat): Option<Why> {
    if sensor !in device.sensors then Some(SensorMissing)
    else if !device.sensors[sensor] then Some(NotCelsius)
    else None
  }

  datatype Attempt = Attempt(hub: Hub, why: Option<Why>)

  function Running(h: Hub, c: Config): (g: Hub)
    ensures g.order == h.order && g.store == h.store
  {
    h.(running := h.running[c.id := Runtime(c.heat.relay, c.cool.relay)])
  }

  function Started(h: Hub, c: Config): (g: Hub)
    requires h.free > 0
    ensures g.order == h.order && g.store == h.store
  {
    var claimed := Running(Dwelled(Claiming(h, c), c), c);
    claimed.(free := h.free - 1, waiting := h.waiting - {c.id})
  }

  function Starting(h: Hub, c: Config, now: nat): (a: Attempt)
    ensures a.hub.order == h.order && a.hub.store == h.store
  {
    var input := Input(h.device, c.sensor);
    if input.Some? then Attempt(h, input)
    else if h.free == 0 then Attempt(Released(h, c.id, now), Some(NoFreeEntity))
    else
      var refusal := Refusal(h, c);
      if refusal.Some? then Attempt(Released(h, c.id, now), refusal) else Attempt(Started(h, c), None)
  }

  function Stopped(h: Hub, id: nat, now: nat): (g: Hub)
    requires id in h.running
    ensures g.store == h.store
  {
    var open := OpenedAt(OpenedAt(h, h.running[id].heat, now), h.running[id].cool, now);
    var released := Released(open, id, now);
    released.(running := released.running - {id}, free := released.free + 1, entityFreed := true)
  }

  function Restarting(h: Hub, c: Config, now: nat): Attempt
    requires c.id in h.running
  {
    var input := Input(h.device, c.sensor);
    if input.Some? then Attempt(Stopped(h, c.id, now), input)
    else
      var refusal := Refusal(h, c);
      if refusal.Some? then Attempt(Stopped(h, c.id, now), refusal)
      else
        var claimed := Claiming(h, c);
        var kept := RelaysLetGo(claimed, Owned(claimed, c.id) - Named(c), now);
        Attempt(Running(Dwelled(kept, c), c), None)
  }

  function Noted(a: Attempt, id: nat): Hub {
    if a.why.Some? then a.hub.(waiting := a.hub.waiting[id := a.why.value]) else a.hub
  }

  // --- Waiters ---

  datatype Sweep = Sweep(hub: Hub, started: seq<nat>)

  predicate Waits(h: Hub, id: nat) {
    id in h.store && h.store[id].enabled && id !in h.running
  }

  predicate Touched(h: Hub, id: nat)
    requires id in h.store
  {
    exists r :: r in Named(h.store[id]) && r in h.freed
  }

  predicate WaitsForEntity(h: Hub, id: nat) {
    id in h.waiting && h.waiting[id] == NoFreeEntity
  }

  function Tried(s: Sweep, id: nat, now: nat): Sweep
    requires id in s.hub.store
  {
    var a := Starting(s.hub, s.hub.store[id], now);
    Sweep(Noted(a, id), if a.why.None? then s.started + [id] else s.started)
  }

  function SweepRelays(s: Sweep, ids: seq<nat>, skip: Option<nat>, now: nat): Sweep
    decreases |ids|
  {
    if ids == [] then s
    else
      var id := ids[0];
      var tried := if Waits(s.hub, id) && Some(id) != skip && Touched(s.hub, id) then Tried(s, id, now) else s;
      SweepRelays(tried, ids[1..], skip, now)
  }

  function SweepEntities(s: Sweep, ids: seq<nat>, skip: Option<nat>, now: nat): Sweep
    decreases |ids|
  {
    if ids == [] || s.hub.free == 0 then s
    else
      var id := ids[0];
      var tried := if Waits(s.hub, id) && Some(id) != skip && WaitsForEntity(s.hub, id) then Tried(s, id, now) else s;
      SweepEntities(tried, ids[1..], skip, now)
  }

  /** A sweep starts waiters and touches no document. */
  lemma {:induction false} SweepKeepsOrder(s: Sweep, ids: seq<nat>, skip: Option<nat>, now: nat)
    ensures SweepRelays(s, ids, skip, now).hub.order == s.hub.order
    decreases |ids|
  {
    hide Starting;
    if ids != [] {
      var id := ids[0];
      var tried := if Waits(s.hub, id) && Some(id) != skip && Touched(s.hub, id) then Tried(s, id, now) else s;
      SweepKeepsOrder(tried, ids[1..], skip, now);
    }
  }

  function RelaysSwept(h: Hub, skip: Option<nat>, now: nat): Sweep {
    var begin := Sweep(h.(entityFreed := false), []);
    if h.freed == {} then begin else SweepRelays(begin, h.order, skip, now)
  }

  function WaitersStarted(h: Hub, skip: Option<nat>, now: nat): Sweep {
    var relays := RelaysSwept(h, skip, now);
    if h.entityFreed then SweepEntities(relays, h.order, skip, now) else relays
  }

  function Announced(s: Sweep): Sweep {
    s.(hub := s.hub.(freed := {}))
  }

  /** The end of every mutator that may have freed something. */
  function Closing(h: Hub, skip: Option<nat>, now: nat): Sweep {
    Announced(WaitersStarted(h, skip, now))
  }

  // --- Who stands in the way ---

  function OutputHolder(h: Hub, id: nat, out: Output): Option<nat> {
    if out.relay.Some? && out.relay.value in h.claims && h.claims[out.relay.value].owner != id
    then Some(h.claims[out.relay.value].owner) else None
  }

  function HolderOf(h: Hub, c: Config): Option<nat> {
    var heat := OutputHolder(h, c.id, c.heat);
    if heat.Some? then heat else OutputHolder(h, c.id, c.cool)
  }

  /** One of the relays `c` names, and does not hold already, is one `other` names. */
  predicate Reserves(h: Hub, c: Config, other: Config) {
    exists r ::
      && r in Named(c) && r in Named(other)
      && !(r in h.claims && h.claims[r].owner == c.id)
  }

  function ReserverAmong(h: Hub, c: Config, ids: seq<nat>): (r: Option<nat>)
    ensures r.Some? ==> r.value in ids && r.value != c.id && Waits(h, r.value) && Reserves(h, c, h.store[r.value])
    ensures r.None? ==> forall id :: id in ids && id != c.id && Waits(h, id) ==> !Reserves(h, c, h.store[id])
  {
    if ids == [] then None
    else if ids[0] != c.id && Waits(h, ids[0]) && Reserves(h, c, h.store[ids[0]]) then Some(ids[0])
    else ReserverAmong(h, c, ids[1..])
  }

  function ReserverOf(h: Hub, c: Config): Option<nat> {
    ReserverAmong(h, c, h.order)
  }

  datatype Refused = Refused(code: nat, holder: Option<nat>)

  function SavableRefusal(h: Hub, c: Config): Option<Refused> {
    if Input(h.device, c.sensor) == Some(NotCelsius) then Some(Refused(400, None))
    else if HolderOf(h, c).Some? then Some(Refused(409, HolderOf(h, c)))
    else if ReserverOf(h, c).Some? then Some(Refused(409, ReserverOf(h, c)))
    else None
  }

  /** The sensor and every relay are on the device, the sensor in °C. */
  predicate Present(device: Device, c: Config) {
    Input(device, c.sensor).None? && Named(c) <= device.switches
  }

  // --- Mutators ---

  /** What a caller is told: `refused` when nothing changed; else why the thermostat waits, if it
      does, the ids a take-over stopped, and the ids of the waiters that started. */
  datatype Report = Report(refused: Option<Refused>, warning: Option<Why>, stopped: seq<nat>, started: seq<nat>)

  datatype Answer = Answer(hub: Hub, report: Report)

  function Refuse(h: Hub, why: Refused): Answer {
    Answer(h, Report(Some(why), None, [], []))
  }

  predicate Ascending(ids: seq<nat>) {
    forall i, j :: 0 <= i < j < |ids| ==> ids[i] < ids[j]
  }

  function InsertId(ids: seq<nat>, id: nat): (r: seq<nat>)
    ensures forall x :: x in r <==> x in ids || x == id
    ensures Ascending(ids) ==> Ascending(r)
  {
    if ids == [] || id < ids[0] then [id] + ids
    else if id == ids[0] then ids
    else
      var rest := InsertId(ids[1..], id);
      assert forall j :: 0 <= j < |rest| ==> rest[j] in rest;
      [ids[0]] + rest
  }

  function RemoveId(ids: seq<nat>, id: nat): (r: seq<nat>)
    ensures Ascending(ids) ==> Ascending(r) && forall x :: x in r <==> x in ids && x != id
  {
    if ids == [] then []
    else if ids[0] == id then
      assert forall x :: x in ids <==> x == ids[0] || x in ids[1..];
      ids[1..]
    else
      var rest := RemoveId(ids[1..], id);
      assert forall j :: 0 <= j < |rest| ==> rest[j] in rest;
      [ids[0]] + rest
  }

  /** A new id in the store and, if its document is enabled, the attempt to start it. */
  function Added(h: Hub, doc: Config, now: nat): Answer {
    var stored := h.(store := h.store[doc.id := doc], order := InsertId(h.order, doc.id));
    var a := if doc.enabled then Starting(stored, doc, now) else Attempt(stored, None);
    Answer(Noted(a, doc.id), Report(None, a.why, [], []))
  }

  /** A document, written already, takes its thermostat's place. */
  function Applying(h: Hub, doc: Config, now: nat): Attempt {
    var stored := h.(store := h.store[doc.id := doc],
                     waiting := if doc.enabled then h.waiting else h.waiting - {doc.id});
    if doc.id in h.running then
      if doc.enabled then Restarting(stored, doc, now) else Attempt(Stopped(stored, doc.id, now), None)
    else if doc.enabled then Starting(stored, doc, now)
    else Attempt(stored, None)
  }

  function Replaced(h: Hub, doc: Config, now: nat): Answer {
    var a := Applying(h, doc, now);
    var end := Closing(Noted(a, doc.id), Some(doc.id), now);
    Answer(end.hub, Report(None, a.why, [], end.started))
  }

  /** What decides a Save besides the hub's own state: how many documents it may keep, whether the
      name is another climate's, and whether the file could be written. */
  datatype Saving = Saving(maxControllers: nat, nameTaken: bool, written: bool)

  /** `draft.id` is the one the hub makes from the name, or the one a backup brings. */
  function Creating(h: Hub, draft: Config, with: Saving, now: nat): Answer {
    if !Wired(draft) then Refuse(h, Refused(400, None))
    else if |h.store| >= with.maxControllers then Refuse(h, Refused(507, None))
    else if with.nameTaken || draft.id in h.store then Refuse(h, Refused(409, None))
    else if draft.enabled && SavableRefusal(h, draft).Some? then Refuse(h, SavableRefusal(h, draft).value)
    else if !with.written then Refuse(h, Refused(500, None))
    else Added(h, draft.(newer := false), now)
  }

  function Updating(h: Hub, id: nat, doc: Config, with: Saving, now: nat): Answer {
    if id !in h.store then Refuse(h, Refused(404, None))
    else if h.store[id].newer then Refuse(h, Refused(409, None))
    else if !Wired(doc) then Refuse(h, Refused(400, None))
    else if with.nameTaken then Refuse(h, Refused(409, None))
    else
      var kept := doc.(id := id, newer := false);
      if kept.enabled && SavableRefusal(h, kept).Some? then Refuse(h, SavableRefusal(h, kept).value)
      else if !with.written then Refuse(h, Refused(500, None))
      else Replaced(h, kept, now)
  }

  function Restoring(h: Hub, doc: Config, with: Saving, now: nat): Answer {
    if !Wired(doc) then Refuse(h, Refused(400, None))
    else if doc.id in h.store then Updating(h, doc.id, doc, with, now)
    else Creating(h, doc, with, now)
  }

  function Removing(h: Hub, id: nat, now: nat): Answer {
    if id !in h.store then Refuse(h, Refused(404, None))
    else
      var stopped := if id in h.running then Stopped(h, id, now) else h;
      var gone := stopped.(store := stopped.store - {id}, order := RemoveId(stopped.order, id),
                           waiting := stopped.waiting - {id});
      var end := Closing(gone, None, now);
      Answer(end.hub, Report(None, None, [], end.started))
  }

  function Disabled(h: Hub, id: nat): Hub
    requires id in h.store
  {
    h.(store := h.store[id := h.store[id].(enabled := false)], waiting := h.waiting - {id})
  }

  function Disabling(h: Hub, id: nat, now: nat): Answer
    requires id in h.store
  {
    var off := Disabled(h, id);
    var stopped := if id in off.running then Stopped(off, id, now) else off;
    var end := Closing(stopped, Some(id), now);
    Answer(end.hub, Report(None, None, [], end.started))
  }

  // --- The take-over ---

  function HandedOutput(h: Hub, from: nat, to: Config, out: Output): Hub {
    if out.relay.None? || out.relay.value !in h.claims || h.claims[out.relay.value].owner != from then h
    else
      var r := out.relay.value;
      var forgotten :=
        if from !in h.running then h.running
        else
          var runtime := h.running[from];
          h.running[from := Runtime(if runtime.heat == Some(r) then None else runtime.heat,
                                    if runtime.cool == Some(r) then None else runtime.cool)];
      h.(claims := h.claims[r := Held(to.id, RelayClaims.HandedOver(h.claims[r].claim))], running := forgotten)
  }

  /** The relays `to` names change hands as they are. */
  function HandOver(h: Hub, from: nat, to: Config): (g: Hub)
    ensures g.store == h.store
  {
    HandedOutput(HandedOutput(h, from, to, to.heat), from, to, to.cool)
  }

  function HolderTaken(h: Hub, from: nat, to: Config, now: nat): (r: Hub)
    ensures r.store.Keys == h.store.Keys
    ensures forall id :: id in h.store && id != from ==> r.store[id] == h.store[id]
  {
    var off := if from in h.store then Disabled(h, from) else h;
    var handed := HandOver(off, from, to);
    if from in handed.running then Stopped(handed, from, now) else Released(handed, from, now)
  }

  function OwnerOf(h: Hub, r: nat): Option<nat> {
    if r in h.claims then Some(h.claims[r].owner) else None
  }

  lemma OpenedOwners(h: Hub, relay: Option<nat>, now: nat)
    ensures forall r :: OwnerOf(OpenedAt(h, relay, now), r) == OwnerOf(h, r)
  {}

  lemma LetGoOwners(h: Hub, rs: set<nat>, now: nat)
    requires rs <= h.claims.Keys
    ensures forall r :: OwnerOf(RelaysLetGo(h, rs, now), r) == if r in rs then None else OwnerOf(h, r)
  {}

  lemma StoppedOwners(h: Hub, id: nat, now: nat)
    requires id in h.running
    ensures forall r :: OwnerOf(Stopped(h, id, now), r)
                     == if OwnerOf(h, r) == Some(id) then None else OwnerOf(h, r)
  {
    var heat := OpenedAt(h, h.running[id].heat, now);
    var open := OpenedAt(heat, h.running[id].cool, now);
    OpenedOwners(h, h.running[id].heat, now);
    OpenedOwners(heat, h.running[id].cool, now);
    LetGoOwners(open, Owned(open, id), now);
    assert Stopped(h, id, now).claims == Released(open, id, now).claims;
  }

  lemma HandOverOwners(h: Hub, from: nat, to: Config)
    requires from != to.id
    ensures forall r :: OwnerOf(HandOver(h, from, to), r)
                     == if OwnerOf(h, r) == Some(from) && r in Named(to) then Some(to.id) else OwnerOf(h, r)
  {
    HandedOutputOwners(h, from, to, to.heat);
    HandedOutputOwners(HandedOutput(h, from, to, to.heat), from, to, to.cool);
    hide HandedOutput;
  }

  lemma HandedOutputOwners(h: Hub, from: nat, to: Config, out: Output)
    requires from != to.id
    ensures forall r: nat :: OwnerOf(HandedOutput(h, from, to, out), r)
                     == if OwnerOf(h, r) == Some(from) && out.relay == Some(r) then Some(to.id) else OwnerOf(h, r)
  {}

  /** Who owns what once `from` has handed over what `to` names and let go of the rest. */
  ghost predicate TakenFrom(h: Hub, g: Hub, from: nat, to: Config) {
    forall r :: OwnerOf(g, r) == if OwnerOf(h, r) != Some(from) then OwnerOf(h, r)
                                 else if r in Named(to) then Some(to.id) else None
  }

  lemma HolderTakenOwners(h: Hub, from: nat, to: Config, now: nat)
    requires from != to.id
    ensures TakenFrom(h, HolderTaken(h, from, to, now), from, to)
  {
    var off := if from in h.store then Disabled(h, from) else h;
    HandOverOwners(off, from, to);
    var handed := HandOver(off, from, to);
    RestLetGo(handed, from, now);
    assert forall r :: OwnerOf(off, r) == OwnerOf(h, r);
    hide HandOver, Stopped, Released, Disabled;
  }

  /** Stopped or not, nothing is left in its hands. */
  lemma RestLetGo(h: Hub, id: nat, now: nat)
    ensures forall r :: OwnerOf(if id in h.running then Stopped(h, id, now) else Released(h, id, now), r)
                     == if OwnerOf(h, r) == Some(id) then None else OwnerOf(h, r)
  {
    hide Stopped;
    if id in h.running {
      StoppedOwners(h, id, now);
    } else {
      LetGoOwners(h, Owned(h, id), now);
    }
    hide RelaysLetGo;
  }

  datatype Cleared = Cleared(hub: Hub, ids: seq<nat>)

  /** Every waiter that names a relay of `c` is disabled. */
  function ReserversDisabled(h: Hub, c: Config): (r: Cleared)
    ensures r.hub.store.Keys == h.store.Keys
    decreases set id | id in h.store && h.store[id].enabled
  {
    var waiter := ReserverOf(h, c);
    if waiter.None? then Cleared(h, [])
    else
      var off := Disabled(h, waiter.value);
      assert (set id | id in off.store && off.store[id].enabled)
          == (set id | id in h.store && h.store[id].enabled) - {waiter.value};
      var rest := ReserversDisabled(off, c);
      Cleared(rest.hub, [waiter.value] + rest.ids)
  }

  /** The relays `c` names that another thermostat holds. */
  function HeldElsewhere(h: Hub, c: Config): set<nat> {
    set r | r in h.claims && r in Named(c) && h.claims[r].owner != c.id
  }

  lemma FewerHeldElsewhere(h: Hub, g: Hub, from: nat, c: Config)
    requires HolderOf(h, c) == Some(from) && TakenFrom(h, g, from, c)
    ensures HeldElsewhere(g, c) < HeldElsewhere(h, c)
  {
    forall r | r in HeldElsewhere(g, c) ensures r in HeldElsewhere(h, c) {
      assert OwnerOf(g, r).Some?;
    }
    var r := if OutputHolder(h, c.id, c.heat).Some? then c.heat.relay.value else c.cool.relay.value;
    assert OwnerOf(h, r) == Some(from) && r in Named(c) && OwnerOf(g, r) == Some(c.id);
    assert r in HeldElsewhere(h, c) && r !in HeldElsewhere(g, c);
  }

  /** Every holder of a relay of `c` is disabled and stopped, what both name handed over. */
  function HoldersTaken(h: Hub, c: Config, now: nat): (r: Cleared)
    ensures r.hub.store.Keys == h.store.Keys
    decreases HeldElsewhere(h, c)
  {
    var holder := HolderOf(h, c);
    if holder.None? then Cleared(h, [])
    else
      var taken := HolderTaken(h, holder.value, c, now);
      HolderTakenOwners(h, holder.value, c, now);
      FewerHeldElsewhere(h, taken, holder.value, c);
      var rest := HoldersTaken(taken, c, now);
      Cleared(rest.hub, [holder.value] + rest.ids)
  }

  /** The end of an enable: the flag, its own start, then the waiters'. */
  function Enabled(h: Hub, id: nat, stopped: seq<nat>, now: nat): Answer
    requires id in h.store
  {
    var on := h.(store := h.store[id := h.store[id].(enabled := true)]);
    var a := Starting(on, on.store[id], now);
    var end := Closing(Noted(a, id), Some(id), now);
    Answer(end.hub, Report(None, a.why, stopped, end.started))
  }

  function TakingOver(h: Hub, id: nat, now: nat): Answer
    requires id in h.store
  {
    var c := h.store[id];
    if !Present(h.device, c) then Refuse(h, Refused(400, None))
    else if h.free == 0 && HolderOf(h, c).None? then Refuse(h, Refused(409, None))
    else
      var dropped := ReserversDisabled(h, c);
      var taken := HoldersTaken(dropped.hub, c, now);
      Enabled(taken.hub, id, taken.ids + dropped.ids, now)
  }

  function Enabling(h: Hub, id: nat, enabled: bool, takeOver: bool, now: nat): Answer {
    if id !in h.store then Refuse(h, Refused(404, None))
    else if !enabled then Disabling(h, id, now)
    else if id in h.running then Answer(h, Report(None, None, [], []))
    else
      var refused := SavableRefusal(h, h.store[id]);
      if refused.None? then Enabled(h, id, [], now)
      else if refused.value.holder.None? || !takeOver then Refuse(h, refused.value)
      else TakingOver(h, id, now)
  }
}
