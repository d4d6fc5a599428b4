/** Every mutator of the hub keeps what `HubArbitration` states, from boot on, in any order and with
    anything moving relays in between (components/climate_hub/climate_hub.cpp:588-860). */
module HubMutators {
  import opened Options
  import opened HubState
  import opened HubArbitration

  // --- Adding a document ---

  lemma StoredKeepsBooks(h: Hub, g: Hub, doc: Config, odd: set<nat>)
    requires BooksBut(h, odd) && Wired(doc)
    requires g == h.(store := h.store[doc.id := doc], order := InsertId(h.order, doc.id), waiting := g.waiting)
    ensures BooksBut(g, odd + {doc.id})
    ensures doc.id !in h.running ==> BooksBut(g, odd)
  {
    forall r ensures Rightful(g, r, odd + {doc.id}) && (doc.id !in h.running ==> Rightful(g, r, odd)) {
      assert Rightful(h, r, odd);
    }
    forall x | x in g.running && x !in odd && x != doc.id ensures RunsRight(g, x) {
      assert RunsRight(h, x);
    }
  }

  lemma StoredExcuses(h: Hub, g: Hub, id: nat, x: nat)
    requires g == h.(store := g.store, order := g.order, waiting := g.waiting)
    requires x in h.store && x in g.store && h.store[x] == g.store[x] && x != id
    requires WaitsForEntity(h, x) ==> WaitsForEntity(g, x)
    requires Excused(h, x)
    ensures Excused(g, x)
  {
    if r :| r in Named(h.store[x]) && OwnerOf(h, r).Some? && OwnerOf(h, r) != Some(x) {
      assert OwnerOf(g, r) == OwnerOf(h, r);
    }
  }

  lemma StartSettles(h: Hub, g: Hub, c: Config, odd: set<nat>)
    requires Books(h) && LinkedBut(h, odd) && c.id !in h.running && AllExcused(h, odd)
    requires c.id in h.store && h.store[c.id] == c && c.enabled
    requires Starts(h, g, c) && MayClaim(h, c) && Input(h.device, c.sensor).None?
    ensures Books(g) && LinkedBut(g, odd - {c.id}) && AllExcused(g, odd - {c.id}) && PoolSize(g) == PoolSize(h)
  {
    WaitersOwnNothing(h, c.id);
    assert forall r :: OwnerOf(h, r) == Some(c.id) ==> r in Owned(h, c.id);
    assert {} - {c.id} == {};
    StartKeepsBooks(h, g, c, {});
    StartLinks(h, g, c, odd);
    StartPool(h, g, c);
    StartExcusesAll(h, g, c, odd);
  }

  lemma NoteSettles(h: Hub, g: Hub, id: nat, odd: set<nat>)
    requires Books(h) && LinkedBut(h, odd) && id !in h.running && AllExcused(h, odd)
    requires id in h.store && h.store[id].enabled
    requires id in g.waiting && g == h.(waiting := h.waiting[id := g.waiting[id]]) && Excused(g, id)
    ensures Books(g) && LinkedBut(g, odd - {id}) && AllExcused(g, odd - {id})
  {
    NoteKeeps(h, g, id, odd);
    forall x | x in g.store && Waits(g, x) && x !in odd - {id} && x != id ensures Excused(g, x) {
      StoredExcuses(h, g, id, x);
    }
  }

  /** A start, or its noted failure, of a thermostat that holds nothing. */
  lemma StartingSettles(h: Hub, c: Config, odd: set<nat>, now: nat)
    requires Books(h) && LinkedBut(h, odd) && c.id !in h.running && AllExcused(h, odd)
    requires c.id in h.store && h.store[c.id] == c && c.enabled
    ensures var a := Starting(h, c, now);
            var g := Noted(a, c.id);
            && Books(g) && LinkedBut(g, odd - {c.id}) && AllExcused(g, odd - {c.id})
            && SameDocuments(h, g) && PoolSize(g) == PoolSize(h)
            && g.freed == h.freed && g.entityFreed == h.entityFreed && g.shut == h.shut
            && (a.why.None? <==> c.id in g.running)
  {
    var a := Starting(h, c, now);
    var g := Noted(a, c.id);
    WaitersOwnNothing(h, c.id);
    FailedStart(h, c, now);
    if a.why.None? {
      StartSettles(h, g, c, odd);
    } else {
      NoteSettles(h, g, c.id, odd);
    }
  }

  function StoredNew(h: Hub, doc: Config): Hub {
    h.(store := h.store[doc.id := doc], order := InsertId(h.order, doc.id))
  }

  lemma StoredNewKeeps(h: Hub, doc: Config)
    requires Good(h) && doc.id !in h.store && Wired(doc)
    ensures var g := StoredNew(h, doc);
            && Books(g) && LinkedBut(g, {doc.id}) && AllExcused(g, {doc.id}) && doc.id !in g.running
            && (!doc.enabled ==> LinkedBut(g, {}) && AllExcused(g, {}))
  {
    var g := StoredNew(h, doc);
    NotRunningUnknown(h, doc.id);
    StoredKeepsBooks(h, g, doc, {});
    forall x | x in g.store && Waits(g, x) && x != doc.id ensures Excused(g, x) {
      assert Waits(h, x);
      StoredExcuses(h, g, doc.id, x);
    }
  }

  lemma AddedKeeps(h: Hub, doc: Config, now: nat)
    requires Good(h) && doc.id !in h.store && Wired(doc)
    ensures var g := Added(h, doc, now).hub;
            && Good(g) && PoolSize(g) == PoolSize(h) && g.shut == h.shut
            && g.device == h.device && g.store == h.store[doc.id := doc]
  {
    StoredNewKeeps(h, doc);
    if doc.enabled {
      StartingSettles(StoredNew(h, doc), doc, {doc.id}, now);
      assert {doc.id} - {doc.id} == {};
    }
  }

  lemma NotRunningUnknown(h: Hub, id: nat)
    requires Books(h) && id !in h.store
    ensures id !in h.running
  {
    forall x | x in h.running ensures x in h.store {
      assert RunsRight(h, x);
    }
  }

  // --- Replacing one ---

  function StoredAs(h: Hub, doc: Config): Hub {
    h.(store := h.store[doc.id := doc], waiting := if doc.enabled then h.waiting else h.waiting - {doc.id})
  }

  lemma StoredAsBooks(h: Hub, doc: Config)
    requires Books(h) && doc.id in h.store && Wired(doc)
    ensures var g := StoredAs(h, doc);
            BooksBut(g, {doc.id}) && (doc.id !in h.running ==> Books(g))
  {
    InsertKnown(h.order, doc.id);
    StoredKeepsBooks(h, StoredAs(h, doc), doc, {});
    assert {} + {doc.id} == {doc.id};
    hide Rightful, RunsRight, Documents, OwnerOf;
  }

  lemma StoredAsLinks(h: Hub, doc: Config)
    requires LinkedBut(h, {}) && doc.id in h.store
    ensures LinkedBut(StoredAs(h, doc), {doc.id})
    ensures doc.id in h.running ==> doc.id !in StoredAs(h, doc).waiting
  {}

  lemma StoredAsKeeps(h: Hub, doc: Config)
    requires Good(h) && doc.id in h.store && Wired(doc)
    ensures var g := StoredAs(h, doc);
            && BooksBut(g, {doc.id}) && (doc.id !in h.running ==> Books(g))
            && LinkedBut(g, {doc.id})
            && AllExcused(g, {doc.id}) && NoneForgotten(g, {doc.id})
            && (doc.id in h.running ==> PointsHome(g, doc.id) && doc.id !in g.waiting)
  {
    var g := StoredAs(h, doc);
    StoredAsBooks(h, doc);
    StoredAsLinks(h, doc);
    StoredExcusesAll(h, g, doc.id);
    ExcusedIsNotForgotten(g, {doc.id});
    hide Books, BooksBut, LinkedBut, AllExcused, NoneForgotten, PointsHome;
    if doc.id in h.running {
      RunnerStays(h, g, doc.id);
    }
  }

  lemma ExcusedIsNotForgotten(h: Hub, exempt: set<nat>)
    requires AllExcused(h, exempt)
    ensures NoneForgotten(h, exempt)
  {
    hide Excused;
  }

  lemma StoredExcusesAll(h: Hub, g: Hub, id: nat)
    requires AllExcused(h, {}) && g == h.(store := g.store, waiting := g.waiting) && g.store.Keys == h.store.Keys
    requires forall x :: x in h.store && x != id ==> g.store[x] == h.store[x]
    requires forall x :: x in h.store && x != id ==> (WaitsForEntity(h, x) ==> WaitsForEntity(g, x))
    ensures AllExcused(g, {id})
  {
    forall x | x in g.store && Waits(g, x) && x != id ensures Excused(g, x) {
      assert Waits(h, x);
      StoredExcuses(h, g, id, x);
    }
  }

  lemma RunnerStays(h: Hub, g: Hub, id: nat)
    requires Books(h) && id in h.running && g.running == h.running && g.claims == h.claims
    ensures PointsHome(g, id)
  {
    assert RunsRight(h, id);
    assert forall r :: OwnerOf(g, r) == OwnerOf(h, r);
  }

  lemma {:induction false} InsertKnown(ids: seq<nat>, id: nat)
    requires Ascending(ids) && id in ids
    ensures InsertId(ids, id) == ids
  {
    if ids[0] != id {
      var rest := ids[1..];
      var k :| 0 <= k < |rest| && rest[k] == id;
      assert ids[0] < ids[k + 1];
      assert forall i :: 0 <= i < |rest| ==> rest[i] == ids[i + 1];
      InsertKnown(rest, id);
      assert ids == [ids[0]] + rest;
    }
  }

  /** A running thermostat that stops, disabled or for what its new document lacks. */
  lemma StopCloses(h: Hub, id: nat, now: nat)
    requires BooksBut(h, {id}) && LinkedBut(h, {id}) && id in h.store && id in h.running && PointsHome(h, id)
    requires NoneForgotten(h, {id})
    ensures var g := Stopped(h, id, now);
            && Stops(h, g, id) && Books(g) && LinkedBut(g, {id}) && NoneForgotten(g, {id})
            && PoolSize(g) == PoolSize(h) && g.shut <= h.shut
  {
    var g := Stopped(h, id, now);
    StoppedDoes(h, id, now);
    StopKeepsBooks(h, g, id, {id});
    assert {id} - {id} == {};
    StopForgetsNone(h, g, id, {id});
    StopPool(h, g, id);
  }

  lemma RefusedStaysRefused(h: Hub, g: Hub, c: Config)
    requires Stops(h, g, c.id) && !MayClaim(h, c) && c.id in g.store && g.store[c.id] == c
    ensures Excused(g, c.id)
  {
    var r :| r in Named(c) && !(if OwnerOf(h, r).Some? then OwnerOf(h, r) == Some(c.id) else r in h.device.switches);
    assert OwnerOf(h, r).Some? ==> OwnerOf(g, r) == OwnerOf(h, r);
  }

  lemma NotedCloses(h: Hub, g: Hub, id: nat)
    requires Books(h) && LinkedBut(h, {id}) && NoneForgotten(h, {id})
    requires id in h.store && h.store[id].enabled && id !in h.running && Excused(h, id)
    requires id in g.waiting && g == h.(waiting := h.waiting[id := g.waiting[id]])
    requires WaitsForEntity(h, id) ==> WaitsForEntity(g, id)
    ensures Closable(g, Some(id))
  {
    NoteKeeps(h, g, id, {id});
    assert {id} - {id} == {};
    forall x | x in g.store && Waits(g, x)
      ensures if x == id then Excused(g, x) else Due(g, x, g.entityFreed)
    {
      if x != id {
        assert Due(h, x, h.entityFreed);
        if Excused(h, x) {
          StoredExcuses(h, g, id, x);
        }
      } else {
        if r :| r in Named(h.store[x]) && OwnerOf(h, r).Some? && OwnerOf(h, r) != Some(x) {
          assert OwnerOf(g, r) == OwnerOf(h, r);
        }
      }
    }
  }

  lemma ClosableFromRunning(h: Hub, id: nat)
    requires Books(h) && LinkedBut(h, {id}) && NoneForgotten(h, {id})
    requires id !in h.waiting && !Waits(h, id) && (id in h.running ==> id in h.store && h.store[id].enabled)
    ensures Closable(h, Some(id))
  {}

  lemma RestartCloses(h: Hub, g: Hub, c: Config)
    requires BooksBut(h, {c.id}) && LinkedBut(h, {c.id}) && NoneForgotten(h, {c.id})
    requires c.id in h.store && h.store[c.id] == c && c.enabled && c.id in h.running && c.id !in h.waiting
    requires Restarts(h, g, c) && MayClaim(h, c) && Input(h.device, c.sensor).None?
    ensures Closable(g, Some(c.id)) && PoolSize(g) == PoolSize(h) && g.shut <= h.shut
  {
    RestartKeepsBooks(h, g, c, {c.id});
    assert {c.id} - {c.id} == {};
    RestartForgetsNone(h, g, c, {c.id});
    assert g.running.Keys == h.running.Keys;
    ClosableFromRunning(g, c.id);
  }

  lemma StartCloses(h: Hub, g: Hub, id: nat)
    requires Books(g) && LinkedBut(g, {}) && AllExcused(g, {})
    ensures Closable(g, Some(id))
  {
    forall x | x in g.store && Waits(g, x)
      ensures if x == id then Excused(g, x) else Due(g, x, g.entityFreed) {
      assert Excused(g, x);
    }
  }

  lemma RestartingCloses(h: Hub, c: Config, now: nat)
    requires BooksBut(h, {c.id}) && LinkedBut(h, {c.id}) && NoneForgotten(h, {c.id})
    requires c.id in h.store && h.store[c.id] == c && c.enabled
    requires c.id in h.running && PointsHome(h, c.id) && c.id !in h.waiting
    ensures var g := Noted(Restarting(h, c, now), c.id);
            && Closable(g, Some(c.id)) && PoolSize(g) == PoolSize(h) && g.shut <= h.shut
            && SameDocuments(h, g)
  {
    RefusalMeans(h, c);
    if Input(h.device, c.sensor).None? && MayClaim(h, c) {
      RestartedDoes(h, c, now);
      RestartCloses(h, Restarting(h, c, now).hub, c);
    } else {
      var stopped := Stopped(h, c.id, now);
      StopCloses(h, c.id, now);
      if Input(h.device, c.sensor).None? {
        RefusedStaysRefused(h, stopped, c);
      }
      var g := Noted(Restarting(h, c, now), c.id);
      assert Excused(stopped, c.id);
      NotedCloses(stopped, g, c.id);
    }
  }

  lemma RunningApplied(h: Hub, doc: Config, now: nat)
    requires Good(h) && doc.id in h.store && Wired(doc) && doc.id in h.running
    ensures var g := Noted(Applying(h, doc, now), doc.id);
            && Closable(g, Some(doc.id)) && PoolSize(g) == PoolSize(h) && g.shut <= h.shut
            && SameDocuments(StoredAs(h, doc), g)
  {
    var stored := StoredAs(h, doc);
    StoredAsKeeps(h, doc);
    assert PoolSize(stored) == PoolSize(h) && stored.shut == h.shut;
    hide Good, BooksBut, LinkedBut, NoneForgotten, AllExcused, Closable, PoolSize, Restarting, Stopped;
    if doc.enabled {
      RestartingCloses(stored, doc, now);
    } else {
      StopCloses(stored, doc.id, now);
      ClosableFromRunning(Stopped(stored, doc.id, now), doc.id);
    }
  }

  lemma StoredAsPool(h: Hub, doc: Config)
    ensures PoolSize(StoredAs(h, doc)) == PoolSize(h)
  {}

  lemma WaitingApplied(h: Hub, doc: Config, now: nat)
    requires Good(h) && doc.id in h.store && Wired(doc) && doc.id !in h.running
    ensures var g := Noted(Applying(h, doc, now), doc.id);
            && Closable(g, Some(doc.id)) && PoolSize(g) == PoolSize(h) && g.shut <= h.shut
            && SameDocuments(StoredAs(h, doc), g)
  {
    var stored := StoredAs(h, doc);
    hide Good, BooksBut, Books, LinkedBut, NoneForgotten, AllExcused, Closable, PoolSize, Starting, PointsHome;
    StoredAsKeeps(h, doc);
    StoredAsPool(h, doc);
    assert {doc.id} - {doc.id} == {};
    if doc.enabled {
      StartingSettles(stored, doc, {doc.id}, now);
      StartCloses(stored, Noted(Starting(stored, doc, now), doc.id), doc.id);
    } else {
      ClosableFromRunning(stored, doc.id);
    }
  }

  lemma ApplyingCloses(h: Hub, doc: Config, now: nat)
    requires Good(h) && doc.id in h.store && Wired(doc)
    ensures var g := Noted(Applying(h, doc, now), doc.id);
            && Closable(g, Some(doc.id)) && PoolSize(g) == PoolSize(h) && g.shut <= h.shut
            && SameDocuments(StoredAs(h, doc), g)
  {
    if doc.id in h.running {
      RunningApplied(h, doc, now);
    } else {
      WaitingApplied(h, doc, now);
    }
  }

  lemma ReplacedKeeps(h: Hub, doc: Config, now: nat)
    requires Good(h) && doc.id in h.store && Wired(doc)
    ensures var g := Replaced(h, doc, now).hub;
            && Good(g) && PoolSize(g) == PoolSize(h) && g.shut <= h.shut
            && g.device == h.device && g.store == h.store[doc.id := doc]
  {
    ApplyingCloses(h, doc, now);
    ClosingSettles(Noted(Applying(h, doc, now), doc.id), Some(doc.id), now);
  }

  // --- Removing and disabling one ---

  lemma StoppedIfRunning(h: Hub, id: nat, now: nat)
    requires BooksBut(h, {}) && LinkedBut(h, {id}) && id in h.store && NoneForgotten(h, {id})
    ensures var g := if id in h.running then Stopped(h, id, now) else h;
            && Books(g) && LinkedBut(g, {id}) && NoneForgotten(g, {id}) && id !in g.running
            && PoolSize(g) == PoolSize(h) && g.shut <= h.shut && SameDocuments(h, g)
            && g.waiting == h.waiting
  {
    if id in h.running {
      assert RunsRight(h, id);
      assert PointsHome(h, id);
      assert BooksBut(h, {id}) by {
        forall r ensures Rightful(h, r, {id}) {
          assert Rightful(h, r, {});
        }
        forall x | x in h.running && x !in {id} ensures RunsRight(h, x) {
          assert RunsRight(h, x);
        }
      }
      StopCloses(h, id, now);
    }
  }

  lemma ForgottenFromGood(h: Hub, id: nat)
    requires Good(h)
    ensures LinkedBut(h, {id}) && NoneForgotten(h, {id})
  {
    forall x | x in h.store && Waits(h, x) && x !in {id} ensures Due(h, x, h.entityFreed) {
      assert Excused(h, x);
    }
  }

  ghost predicate Goes(h: Hub, g: Hub, id: nat) {
    g == h.(store := h.store - {id}, order := RemoveId(h.order, id), waiting := h.waiting - {id})
  }

  lemma GoneIsRightful(h: Hub, g: Hub, id: nat)
    requires Books(h) && id !in h.running && Goes(h, g, id)
    ensures forall r :: Rightful(g, r, {})
  {
    WaitersOwnNothing(h, id);
    forall r ensures Rightful(g, r, {}) {
      assert Rightful(h, r, {});
      assert OwnerOf(h, r) == Some(id) ==> r in Owned(h, id);
    }
  }

  lemma GoneKeepsBooks(h: Hub, g: Hub, id: nat)
    requires Books(h) && id !in h.running && Goes(h, g, id)
    ensures Books(g)
  {
    hide Rightful, RunsRight, OwnerOf;
    GoneIsRightful(h, g, id);
    GoneRunsRight(h, g, id);
  }

  lemma GoneRunsRight(h: Hub, g: Hub, id: nat)
    requires Books(h) && id !in h.running && Goes(h, g, id)
    ensures forall x :: x in g.running ==> RunsRight(g, x)
  {
    hide Rightful, Documents;
    forall x | x in g.running ensures RunsRight(g, x) {
      assert RunsRight(h, x);
    }
  }

  lemma GoneCloses(h: Hub, g: Hub, id: nat)
    requires LinkedBut(h, {id}) && NoneForgotten(h, {id}) && id !in h.running && Goes(h, g, id) && Books(g)
    ensures Closable(g, None)
  {
    forall x | x in g.store && Waits(g, x) ensures Due(g, x, g.entityFreed) {
      assert Due(h, x, h.entityFreed);
      if Excused(h, x) {
        StoredExcuses(h, g, id, x);
      }
    }
  }

  lemma RemovingKeeps(h: Hub, id: nat, now: nat)
    requires Good(h)
    ensures var g := Removing(h, id, now).hub;
            && Good(g) && PoolSize(g) == PoolSize(h) && g.shut <= h.shut
            && g.device == h.device && g.store == h.store - {id}
  {
    if id in h.store {
      ForgottenFromGood(h, id);
      StoppedIfRunning(h, id, now);
      var stopped := if id in h.running then Stopped(h, id, now) else h;
      var gone := stopped.(store := stopped.store - {id}, order := RemoveId(stopped.order, id),
                           waiting := stopped.waiting - {id});
      GoneKeepsBooks(stopped, gone, id);
      GoneCloses(stopped, gone, id);
      ClosingSettles(gone, None, now);
    } else {
      assert h.store - {id} == h.store;
    }
  }

  ghost predicate OwnersSame(h: Hub, g: Hub) {
    forall r :: OwnerOf(g, r) == OwnerOf(h, r)
  }

  lemma DisabledKeepsBooks(h: Hub, id: nat)
    requires Books(h) && id in h.store
    ensures Books(Disabled(h, id))
  {
    var g := Disabled(h, id);
    assert Named(g.store[id]) == Named(h.store[id]);
    forall r ensures Rightful(g, r, {}) {
      assert Rightful(h, r, {});
    }
    forall x | x in g.running ensures RunsRight(g, x) {
      assert RunsRight(h, x) && OwnersSame(h, g);
    }
  }

  lemma DisabledKeeps(h: Hub, id: nat)
    requires Good(h) && id in h.store
    ensures var g := Disabled(h, id);
            && Books(g) && LinkedBut(g, {id}) && NoneForgotten(g, {id})
            && (id !in h.running ==> LinkedBut(g, {}) && AllExcused(g, {}))
  {
    hide BooksBut, Excused, OwnerOf;
    var g := Disabled(h, id);
    DisabledKeepsBooks(h, id);
    StoredExcusesAll(h, g, id);
    ExcusedIsNotForgotten(g, {id});
  }

  lemma DisablingKeeps(h: Hub, id: nat, now: nat)
    requires Good(h) && id in h.store
    ensures var g := Disabling(h, id, now).hub;
            && Good(g) && PoolSize(g) == PoolSize(h) && g.shut <= h.shut
            && g.device == h.device && g.store == h.store[id := h.store[id].(enabled := false)]
  {
    var off := Disabled(h, id);
    DisabledKeeps(h, id);
    StoppedIfRunning(off, id, now);
    var stopped := if id in off.running then Stopped(off, id, now) else off;
    ClosableFromRunning(stopped, id);
    ClosingSettles(stopped, Some(id), now);
  }
}
