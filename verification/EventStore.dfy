// Durable event ingestion: deduplication, webhook fan-out and the source cursor, in one transaction.
module EventStore {
  import opened Common
  import opened DueOrder
  import opened Store

  datatype EventKey = EventKey(source: string, device: string, site: string, sourceKey: string)

  // `body` is everything else an event carries; occurredUs is its time in microseconds.
  datatype Event = Event(key: EventKey, category: string, occurredUs: int, body: string)

  datatype StoredEvent = StoredEvent(id: nat, event: Event)

  datatype Destination = Destination(id: nat, categories: seq<string>, enabled: bool)

  // A pending delivery without attempts.
  datatype Delivery = Delivery(eventId: nat, destination: nat)

  datatype Scope = Scope(source: string, device: string, site: string)

  type Cursor = Option<int>  // watermark_ms; None is the empty cursor

  // Event ids are random; nextId stands for one not used yet.
  datatype Tables = Tables(events: map<EventKey, StoredEvent>, deliveries: seq<Delivery>,
                           cursors: map<Scope, Cursor>, destinations: seq<Destination>, nextId: nat)

  predicate Wants(d: Destination, category: string)
  {
    d.enabled && (d.categories == [] || category in d.categories)
  }

  function Matching(ds: seq<Destination>, category: string): (ids: seq<nat>)
    ensures forall id :: id in ids <==> exists i :: 0 <= i < |ds| && ds[i].id == id && Wants(ds[i], category)
  {
    if ds == [] then []
    else
      var rest := Matching(ds[..|ds| - 1], category);
      var d := ds[|ds| - 1];
      if Wants(d, category) then rest + [d.id] else rest
  }

  function Queue(eventId: nat, ids: seq<nat>): (q: seq<Delivery>)
    ensures |q| == |ids| && forall i :: 0 <= i < |ids| ==> q[i] == Delivery(eventId, ids[i])
  {
    seq(|ids|, i requires 0 <= i < |ids| => Delivery(eventId, ids[i]))
  }

  // INSERT OR IGNORE, and one delivery for each destination that wants a new event.
  function Ingest(t: Tables, e: Event): Tables
  {
    if e.key in t.events then t
    else t.(events := t.events[e.key := StoredEvent(t.nextId, e)], nextId := t.nextId + 1,
            deliveries := t.deliveries + Queue(t.nextId, Matching(t.destinations, e.category)))
  }

  function IngestAll(t: Tables, es: seq<Event>): (r: Tables)
    ensures r.destinations == t.destinations && r.cursors == t.cursors
  {
    if es == [] then t else Ingest(IngestAll(t, es[..|es| - 1]), es[|es| - 1])
  }

  function Committed(t: Tables, es: seq<Event>, scope: Scope, cursor: Cursor): Tables
  {
    var r := IngestAll(t, es);
    r.(cursors := r.cursors[scope := cursor])
  }

  function CursorOf(t: Tables, scope: Scope): Cursor
  {
    if scope in t.cursors then t.cursors[scope] else None
  }

  datatype IngestResult = Ingested(inserted: nat, duplicates: nat) | Aborted

  class EventRepository {
    const store: RuntimeStore<Tables>

    constructor (store: RuntimeStore<Tables>)
      ensures this.store == store
    {
      this.store := store;
    }

    // `failAt` is the statement at which the database fails, if it does.
    method InsertBatch(es: seq<Event>, scope: Scope, cursor: Cursor, failAt: Option<nat>) returns (r: IngestResult)
      requires store.saved == None
      modifies store
      ensures store.saved == None && store.connected == old(store.connected)
      ensures r.Aborted? <==> !store.connected || (failAt.Some? && failAt.value <= |es|)
      ensures r.Aborted? ==> store.tables == old(store.tables)
      ensures r.Ingested? ==> store.tables == Committed(old(store.tables), es, scope, cursor)
      ensures r.Ingested? ==> r.inserted + r.duplicates == |es|
      ensures r.Ingested? ==> r.inserted == |store.tables.events| - |old(store.tables).events|
    {
      var inserted := 0;
      var ok := store.Begin();
      if !ok { return Aborted; }
      ghost var before := store.tables;
      var destinations := store.tables.destinations;
      var i := 0;
      while i < |es|
        invariant 0 <= i <= |es| && inserted <= i
        invariant store.saved == Some(before) && store.connected == old(store.connected)
        invariant failAt.Some? ==> i <= failAt.value
        invariant store.tables == IngestAll(before, es[..i])
        invariant inserted == |store.tables.events| - |before.events|
      {
        if failAt == Some(i) {
          store.Rollback();
          return Aborted;
        }
        var event := es[i];
        var t := store.tables;
        if event.key !in t.events {
          inserted := inserted + 1;
          var deliveries := EnqueueFor(t.deliveries, t.nextId, destinations, event.category);
          store.tables := t.(events := t.events[event.key := StoredEvent(t.nextId, event)],
                             nextId := t.nextId + 1, deliveries := deliveries);
        }
        assert es[..i + 1][..i] == es[..i];
        i := i + 1;
      }
      assert es[..i] == es;
      if failAt == Some(i) {
        store.Rollback();
        return Aborted;
      }
      store.tables := store.tables.(cursors := store.tables.cursors[scope := cursor]);
      store.Commit();
      return Ingested(inserted, |es| - inserted);
    }

    method EnqueueFor(queue: seq<Delivery>, eventId: nat, ds: seq<Destination>, category: string)
      returns (r: seq<Delivery>)
      ensures r == queue + Queue(eventId, Matching(ds, category))
    {
      r := queue;
      var i := 0;
      while i < |ds|
        invariant 0 <= i <= |ds|
        invariant r == queue + Queue(eventId, Matching(ds[..i], category))
      {
        if ds[i].enabled && !(ds[i].categories != [] && category !in ds[i].categories) {
          r := r + [Delivery(eventId, ds[i].id)];
        }
        assert ds[..i + 1][..i] == ds[..i];
        i := i + 1;
      }
      assert ds[..i] == ds;
    }

    // None in `cursor` when nothing was committed for the scope, or only an empty cursor.
    method GetCursor(scope: Scope) returns (ok: bool, cursor: Cursor)
      requires store.saved == None
      modifies store
      ensures store.saved == None && store.connected == old(store.connected) && store.tables == old(store.tables)
      ensures ok == store.connected
      ensures ok ==> cursor == CursorOf(store.tables, scope)
    {
      cursor := None;
      ok := store.Begin();
      if !ok { return; }
      if scope in store.tables.cursors { cursor := store.tables.cursors[scope]; }
      store.Commit();
    }
  }

  // ---- whole histories ----

  // Destinations may be created, enabled and disabled between batches; a batch may abort.
  datatype Action =
    | Batch(events: seq<Event>, scope: Scope, cursor: Cursor, aborts: bool)
    | SetDestinations(destinations: seq<Destination>)

  predicate DistinctIds(ds: seq<Destination>)
  {
    forall i, j :: 0 <= i < j < |ds| ==> ds[i].id != ds[j].id
  }

  predicate WellFormed(history: seq<Action>)
  {
    forall i :: 0 <= i < |history| && history[i].SetDestinations? ==> DistinctIds(history[i].destinations)
  }

  const EMPTY := Tables(map[], [], map[], [], 0)

  function Replay(history: seq<Action>): Tables
  {
    if history == [] then EMPTY
    else
      var t := Replay(history[..|history| - 1]);
      match history[|history| - 1]
      case Batch(events, scope, cursor, aborts) => if aborts then t else Committed(t, events, scope, cursor)
      case SetDestinations(ds) => t.(destinations := ds)
  }

  // Every event of every committed batch, with the destinations of that moment.
  datatype Arrival = Arrival(event: Event, destinations: seq<Destination>)

  function Arrivals(events: seq<Event>, ds: seq<Destination>): (r: seq<Arrival>)
    ensures |r| == |events| && forall i :: 0 <= i < |events| ==> r[i] == Arrival(events[i], ds)
  {
    seq(|events|, i requires 0 <= i < |events| => Arrival(events[i], ds))
  }

  function Log(history: seq<Action>): seq<Arrival>
  {
    if history == [] then []
    else
      var init := history[..|history| - 1];
      match history[|history| - 1]
      case Batch(events, _, _, aborts) =>
        if aborts then Log(init) else Log(init) + Arrivals(events, DestinationsAfter(init))
      case SetDestinations(_) => Log(init)
  }

  function DestinationsAfter(history: seq<Action>): seq<Destination>
  {
    if history == [] then []
    else if history[|history| - 1].SetDestinations? then history[|history| - 1].destinations
    else DestinationsAfter(history[..|history| - 1])
  }

  ghost predicate IsFirst(log: seq<Arrival>, i: nat, key: EventKey)
  {
    i < |log| && log[i].event.key == key && forall j :: 0 <= j < i ==> log[j].event.key != key
  }

  // There is such a destination, it is enabled, and it takes every category or this one.
  predicate Wanted(ds: seq<Destination>, category: string, id: nat)
  {
    exists d :: d in ds && d.id == id && d.enabled && (d.categories == [] || category in d.categories)
  }

  lemma MatchingIsWanted(ds: seq<Destination>, category: string, id: nat)
    ensures id in Matching(ds, category) <==> Wanted(ds, category, id)
  {
    if d :| d in ds && d.id == id && d.enabled && (d.categories == [] || category in d.categories) {
      var i :| 0 <= i < |ds| && ds[i] == d;
      assert Wants(ds[i], category);
    }
  }

  // The row of `key` is its first arrival, with one delivery for each destination that wanted it then.
  ghost predicate FromFirst(t: Tables, log: seq<Arrival>, i: nat, key: EventKey)
    requires key in t.events && i < |log|
  {
    && IsFirst(log, i, key) && t.events[key].event == log[i].event
    && forall d :: multiset(t.deliveries)[Delivery(t.events[key].id, d)]
                   == if Wanted(log[i].destinations, log[i].event.category, d) then 1 else 0
  }

  ghost predicate HasFirst(t: Tables, log: seq<Arrival>, key: EventKey)
    requires key in t.events
  {
    exists i :: 0 <= i < |log| && FromFirst(t, log, i, key)
  }

  ghost predicate Owned(t: Tables, eventId: nat)
  {
    exists k :: k in t.events && t.events[k].id == eventId
  }

  ghost predicate IdsAreFresh(t: Tables)
  {
    && (forall k, l :: k in t.events && l in t.events && k != l ==> t.events[k].id != t.events[l].id)
    && (forall k :: k in t.events ==> t.events[k].id < t.nextId)
    && (forall i :: 0 <= i < |t.deliveries| ==> Owned(t, t.deliveries[i].eventId))
  }

  ghost predicate ExactlyOnce(t: Tables, log: seq<Arrival>)
  {
    && (forall i :: 0 <= i < |log| ==> log[i].event.key in t.events)
    && (forall k :: k in t.events ==> HasFirst(t, log, k))
    && IdsAreFresh(t)
  }

  lemma {:induction false} MatchingDistinct(ds: seq<Destination>, category: string)
    requires DistinctIds(ds)
    ensures Distinct(Matching(ds, category))
  {
    if ds != [] {
      var init, d := ds[..|ds| - 1], ds[|ds| - 1];
      MatchingDistinct(init, category);
      assert d.id !in Matching(init, category);
    }
  }

  lemma {:induction false} QueueCount(eventId: nat, ids: seq<nat>, d: nat)
    requires Distinct(ids)
    ensures multiset(Queue(eventId, ids))[Delivery(eventId, d)] == if d in ids then 1 else 0
  {
    if ids != [] {
      var init, last := ids[..|ids| - 1], ids[|ids| - 1];
      QueueCount(eventId, init, d);
      assert Queue(eventId, ids) == Queue(eventId, init) + [Delivery(eventId, last)];
      assert ids == init + [last] && last !in init;
    }
  }

  lemma {:induction false} Uncounted(q: seq<Delivery>, eventId: nat, d: nat)
    requires forall i :: 0 <= i < |q| ==> q[i].eventId != eventId
    ensures multiset(q)[Delivery(eventId, d)] == 0
  {
    assert Delivery(eventId, d) !in q;
  }

  lemma IngestKeepsRow(t: Tables, log: seq<Arrival>, e: Event, k: EventKey)
    requires IdsAreFresh(t) && k in t.events && HasFirst(t, log, k)
    ensures k in Ingest(t, e).events && HasFirst(Ingest(t, e), log + [Arrival(e, t.destinations)], k)
  {
    var u := Ingest(t, e);
    var more := log + [Arrival(e, t.destinations)];
    var i :| 0 <= i < |log| && FromFirst(t, log, i, k);
    assert u.events[k] == t.events[k] && more[i] == log[i];
    assert IsFirst(more, i, k);
    if e.key !in t.events {
      var q := Queue(t.nextId, Matching(t.destinations, e.category));
      assert multiset(u.deliveries) == multiset(t.deliveries) + multiset(q);
      forall d ensures multiset(q)[Delivery(t.events[k].id, d)] == 0 { Uncounted(q, t.events[k].id, d); }
    }
    assert FromFirst(u, more, i, k);
  }

  lemma IngestAddsRow(t: Tables, log: seq<Arrival>, e: Event)
    requires ExactlyOnce(t, log) && DistinctIds(t.destinations) && e.key !in t.events
    ensures HasFirst(Ingest(t, e), log + [Arrival(e, t.destinations)], e.key)
  {
    var u := Ingest(t, e);
    var ids := Matching(t.destinations, e.category);
    MatchingDistinct(t.destinations, e.category);
    assert multiset(u.deliveries) == multiset(t.deliveries) + multiset(Queue(t.nextId, ids));
    forall i | 0 <= i < |t.deliveries| ensures t.deliveries[i].eventId != t.nextId {
      assert Owned(t, t.deliveries[i].eventId);
    }
    forall d
      ensures multiset(u.deliveries)[Delivery(t.nextId, d)] == if Wanted(t.destinations, e.category, d) then 1 else 0
    {
      Uncounted(t.deliveries, t.nextId, d);
      QueueCount(t.nextId, ids, d);
      MatchingIsWanted(t.destinations, e.category, d);
    }
    assert FromFirst(u, log + [Arrival(e, t.destinations)], |log|, e.key);
  }

  lemma IngestKeepsIds(t: Tables, e: Event)
    requires IdsAreFresh(t)
    ensures IdsAreFresh(Ingest(t, e))
  {
    var u := Ingest(t, e);
    forall i | 0 <= i < |u.deliveries| ensures Owned(u, u.deliveries[i].eventId) {
      if i < |t.deliveries| {
        assert Owned(t, t.deliveries[i].eventId);
        var k :| k in t.events && t.events[k].id == t.deliveries[i].eventId;
        assert u.events[k] == t.events[k];
      } else {
        assert u.events[e.key].id == u.deliveries[i].eventId;
      }
    }
  }

  lemma IngestIsExact(t: Tables, log: seq<Arrival>, e: Event)
    requires ExactlyOnce(t, log) && DistinctIds(t.destinations)
    ensures ExactlyOnce(Ingest(t, e), log + [Arrival(e, t.destinations)])
  {
    var u, more := Ingest(t, e), log + [Arrival(e, t.destinations)];
    IngestKeepsIds(t, e);
    forall k | k in u.events ensures HasFirst(u, more, k) {
      if k in t.events { IngestKeepsRow(t, log, e, k); } else { IngestAddsRow(t, log, e); }
    }
    forall i | 0 <= i < |more| ensures more[i].event.key in u.events {
      if i < |log| { assert more[i] == log[i]; }
    }
  }

  lemma ArrivalsEnd(es: seq<Event>, ds: seq<Destination>)
    requires es != []
    ensures Arrivals(es, ds) == Arrivals(es[..|es| - 1], ds) + [Arrival(es[|es| - 1], ds)]
  {
  }

  lemma {:induction false} IngestAllIsExact(t: Tables, log: seq<Arrival>, es: seq<Event>)
    requires ExactlyOnce(t, log) && DistinctIds(t.destinations)
    ensures ExactlyOnce(IngestAll(t, es), log + Arrivals(es, t.destinations))
  {
    if es == [] {
      assert log + Arrivals(es, t.destinations) == log;
    } else {
      var init, last := es[..|es| - 1], es[|es| - 1];
      IngestAllIsExact(t, log, init);
      ArrivalsEnd(es, t.destinations);
      var more := log + Arrivals(init, t.destinations);
      IngestIsExact(IngestAll(t, init), more, last);
      assert log + Arrivals(es, t.destinations) == more + [Arrival(last, t.destinations)];
    }
  }

  // Over any history of batches, duplicates inside and across them and aborts included, the table is
  // the map from key to first arrival, and each stored event got exactly one delivery for each
  // destination that was enabled and wanted its category at that moment, and no other.
  lemma {:induction false} IngestionIsExactlyOnce(history: seq<Action>)
    requires WellFormed(history)
    ensures ExactlyOnce(Replay(history), Log(history))
    ensures Replay(history).destinations == DestinationsAfter(history) && DistinctIds(DestinationsAfter(history))
  {
    if history != [] {
      var init := history[..|history| - 1];
      IngestionIsExactlyOnce(init);
      match history[|history| - 1]
      case Batch(events, scope, cursor, aborts) =>
        if !aborts {
          IngestAllIsExact(Replay(init), Log(init), events);
          SameRows(IngestAll(Replay(init), events), Replay(history), Log(history));
        }
      case SetDestinations(ds) =>
        SameRows(Replay(init), Replay(history), Log(history));
    }
  }

  lemma SameRows(t: Tables, u: Tables, log: seq<Arrival>)
    requires ExactlyOnce(t, log) && u.events == t.events && u.deliveries == t.deliveries && u.nextId == t.nextId
    ensures ExactlyOnce(u, log)
  {
    forall k | k in u.events ensures HasFirst(u, log, k) {
      assert HasFirst(t, log, k);
      var i :| 0 <= i < |log| && FromFirst(t, log, i, k);
      assert FromFirst(u, log, i, k);
    }
    forall i | 0 <= i < |u.deliveries| ensures Owned(u, u.deliveries[i].eventId) {
      assert Owned(t, t.deliveries[i].eventId);
    }
  }

  // Replaying a batch that was already committed changes no event and no delivery.
  lemma {:induction false} ReplayedBatchIsIgnored(t: Tables, es: seq<Event>)
    requires forall i :: 0 <= i < |es| ==> es[i].key in t.events
    ensures IngestAll(t, es) == t
  {
    if es != [] { ReplayedBatchIsIgnored(t, es[..|es| - 1]); }
  }

  lemma {:induction false} IngestAllKeys(t: Tables, es: seq<Event>, key: EventKey)
    ensures key in IngestAll(t, es).events <==> key in t.events || exists i :: 0 <= i < |es| && es[i].key == key
  {
    if es != [] {
      IngestAllKeys(t, es[..|es| - 1], key);
      if i :| 0 <= i < |es| && es[i].key == key {
        assert i < |es| - 1 ==> es[..|es| - 1][i].key == key;
      }
    }
  }

  // ---- cursors over whole histories ----

  predicate CommitsCursor(a: Action, scope: Scope)
  {
    a.Batch? && !a.aborts && a.scope == scope
  }

  // The i-th action is the last one that committed a cursor for the scope.
  ghost predicate IsLastCommit(history: seq<Action>, i: nat, scope: Scope)
  {
    && i < |history| && CommitsCursor(history[i], scope)
    && forall j :: i < j < |history| ==> !CommitsCursor(history[j], scope)
  }

  // A poll reads the cursor of the last batch of its scope that was committed: aborted batches and those
  // of other scopes leave no trace, and without any there is none.
  lemma {:induction false} CursorIsLastCommitted(history: seq<Action>, scope: Scope)
    ensures scope in Replay(history).cursors <==> exists i: nat :: IsLastCommit(history, i, scope)
    ensures forall i: nat :: IsLastCommit(history, i, scope) ==> CursorOf(Replay(history), scope) == history[i].cursor
  {
    if history != [] {
      var last := |history| - 1;
      var init := history[..last];
      CursorIsLastCommitted(init, scope);
      if CommitsCursor(history[last], scope) {
        assert IsLastCommit(history, last, scope);
        assert forall i: nat :: IsLastCommit(history, i, scope) ==> i == last;
      } else {
        assert forall j :: 0 <= j < last ==> init[j] == history[j];
        assert forall i: nat :: IsLastCommit(history, i, scope) <==> IsLastCommit(init, i, scope);
        assert CursorOf(Replay(history), scope) == CursorOf(Replay(init), scope);
      }
    }
  }
}
