// Incremental polling with a watermark and an overlap window, from the source to the stored row.
module Polling {
  import opened Common
  import opened EventStore

  const DAY_MS := 86400000

  datatype Source = Network | Protect

  // A page this long may be cut off and is refused.
  function PageLimit(source: Source): nat
  {
    if source.Network? then 3000 else 1000
  }

  // round(timestamp() * 1000): to the nearest millisecond, ties to even.
  function RoundMs(us: int): int
  {
    var q, r := us / 1000, us % 1000;
    if r < 500 || (r == 500 && q % 2 == 0) then q else q + 1
  }

  lemma RoundMsIsNearest(us: int)
    ensures -500 <= 1000 * RoundMs(us) - us <= 500
    ensures 1000 * RoundMs(us) - us in {-500, 500} ==> RoundMs(us) % 2 == 0
  {
    var q, r := us / 1000, us % 1000;
    assert us == 1000 * q + r;
  }

  function MaxMs(events: seq<Event>): (m: int)
    requires events != []
    ensures forall i :: 0 <= i < |events| ==> RoundMs(events[i].occurredUs) <= m
    ensures exists i :: 0 <= i < |events| && RoundMs(events[i].occurredUs) == m
  {
    var last := RoundMs(events[|events| - 1].occurredUs);
    if |events| == 1 then last else Max(MaxMs(events[..|events| - 1]), last)
  }

  // An empty page keeps the watermark; any other sets it, even to an earlier time.
  function CursorFor(events: seq<Event>, previous: Cursor): (cursor: Cursor)
    ensures cursor.None? <==> events == [] && previous.None?
    ensures cursor.Some? && events == [] ==> cursor == previous
    ensures cursor.Some? && events != [] ==>
      forall i :: 0 <= i < |events| ==> RoundMs(events[i].occurredUs) <= cursor.value
    ensures cursor.Some? && events != [] ==>
      exists i :: 0 <= i < |events| && RoundMs(events[i].occurredUs) == cursor.value
  {
    if events == [] then previous else Some(MaxMs(events))
  }

  // The start of the window a Protect poll asks for.
  function WindowStart(cursor: Cursor, end: int, overlapMs: int): int
  {
    if cursor.Some? then cursor.value - overlapMs else end - DAY_MS
  }

  datatype PollBatch = PollBatch(events: seq<Event>, cursor: Cursor)

  // `poll` of either source on the page the controller answered with; None when it refuses.
  function PollPage(source: Source, page: seq<Event>, cursor: Cursor): Option<PollBatch>
  {
    if |page| >= PageLimit(source) then None else Some(PollBatch(page, CursorFor(page, cursor)))
  }

  datatype PollStatus = Ok | Error | TimedOut
  datatype Answer = Page(events: seq<Event>) | Failure | NoAnswer
  datatype PollOutcome = PollOutcome(status: PollStatus, inserted: nat, duplicates: nat)

  class EventPoller {
    const repository: EventRepository

    constructor (repository: EventRepository)
      ensures this.repository == repository
    {
      this.repository := repository;
    }

    // One source, isolated: whatever fails is reported and leaves the tables as they were. A closed store
    // raises when the cursor is read, before the source is asked.
    method PollSource(source: Source, scope: Scope, answer: Answer, failAt: Option<nat>) returns (r: PollOutcome)
      requires repository.store.saved == None
      modifies repository.store
      ensures repository.store.saved == None && repository.store.connected == old(repository.store.connected)
      ensures r.status.Ok? <==>
        && repository.store.connected && answer.Page? && |answer.events| < PageLimit(source)
        && (failAt.Some? ==> failAt.value > |answer.events|)
      ensures r.status.Ok? ==> answer.Page? && |answer.events| < (if source.Network? then 3000 else 1000)
      ensures answer.Page? && |answer.events| < (if source.Network? then 3000 else 1000) ==>
        (repository.store.connected && failAt.None? ==> r.status.Ok?)
      ensures r.status.TimedOut? <==> repository.store.connected && answer.NoAnswer?
      ensures r.status.Ok? ==> var t := old(repository.store.tables);
        && repository.store.tables == Committed(t, answer.events, scope, CursorFor(answer.events, CursorOf(t, scope)))
        && r.inserted + r.duplicates == |answer.events|
        && r.inserted == |repository.store.tables.events| - |t.events|
      ensures !r.status.Ok? ==> repository.store.tables == old(repository.store.tables)
      ensures !r.status.Ok? ==> r.inserted == r.duplicates == 0
    {
      var ok, cursor := repository.GetCursor(scope);
      if !ok { return PollOutcome(Error, 0, 0); }
      match answer
      case NoAnswer => r := PollOutcome(TimedOut, 0, 0);
      case Failure => r := PollOutcome(Error, 0, 0);
      case Page(events) =>
        var batch := PollPage(source, events, cursor);
        if batch.None? { return PollOutcome(Error, 0, 0); }
        var result := repository.InsertBatch(batch.value.events, scope, batch.value.cursor, failAt);
        match result
        case Aborted => r := PollOutcome(Error, 0, 0);
        case Ingested(inserted, duplicates) => r := PollOutcome(Ok, inserted, duplicates);
    }
  }

  // ---- overlapping polls ----

  // What the controller has: an event, and when it can first be seen through the API.
  datatype Happening = Happening(event: Event, visibleMs: int)

  // A poll that has read its cursor, and later one that has its page: begun at `end`, the page read from the
  // controller at `readAt`.
  datatype Poll = Reading(cursor: Cursor) | Fetched(cursor: Cursor, end: int, readAt: int, page: seq<Event>)

  // A Network page in the read cache that all requests share.
  datatype Cached = Cached(readAt: int, storedAt: int, page: seq<Event>)

  // `ttlMs` is the lifetime of the read cache, `requestMs` the longest request whose answer it stores.
  datatype Config = Config(source: Source, scope: Scope, overlapMs: nat, ttlMs: nat, requestMs: nat,
                           world: set<Happening>)

  datatype State = State(tables: Tables, polls: map<nat, Poll>, cache: Option<Cached>)

  datatype Step =
    | ReadCursor(poll: nat)
    | Fetch(poll: nat, end: int, page: seq<Event>)
    | Hit(poll: nat, end: int)                     // a Network poll answered from the read cache
    | Fill(readAt: int, at: int, page: seq<Event>) // the answer to a poll or another reader is cached
    | Drop                                         // by a write, or to make room
    | Commit(poll: nat)
    | Fail(poll: nat)                              // timeout, refusal, error or rollback, at any point
    | OtherSource(scope: Scope, events: seq<Event>, cursor: Cursor)
    | SetDestinations(destinations: seq<Destination>)

  // A Network poll asks for everything recent, without a window in time.
  predicate InWindow(c: Config, cursor: Cursor, end: int, e: Event)
  {
    c.source.Network? || WindowStart(cursor, end, c.overlapMs) * 1000 <= e.occurredUs <= end * 1000
  }

  // The page has everything in the window that was visible when it was read, and nothing that is not in
  // the window.
  ghost predicate Answers(c: Config, cursor: Cursor, end: int, readAt: int, page: seq<Event>)
  {
    && (forall h :: h in c.world && h.visibleMs <= readAt && InWindow(c, cursor, end, h.event) ==> h.event in page)
    && (forall i :: 0 <= i < |page| ==>
          InWindow(c, cursor, end, page[i]) && exists h :: h in c.world && h.event == page[i])
  }

  ghost predicate Enabled(c: Config, s: State, e: Step)
  {
    match e
    case ReadCursor(p) => p !in s.polls
    case Fetch(p, end, page) => p in s.polls && s.polls[p].Reading? && Answers(c, s.polls[p].cursor, end, end, page)
    case Hit(p, end) =>
      && p in s.polls && s.polls[p].Reading? && c.source.Network?
      && s.cache.Some? && s.cache.value.storedAt <= end < s.cache.value.storedAt + c.ttlMs
    case Fill(readAt, at, page) =>
      c.source.Network? && readAt <= at <= readAt + c.requestMs && Answers(c, None, readAt, readAt, page)
    case Drop => true
    case Commit(p) => p in s.polls && s.polls[p].Fetched? && |s.polls[p].page| < PageLimit(c.source)
    case Fail(p) => p in s.polls
    case OtherSource(scope, _, _) => scope != c.scope
    case SetDestinations(_) => true
  }

  ghost function Apply(c: Config, s: State, e: Step): State
    requires Enabled(c, s, e)
  {
    match e
    case ReadCursor(p) => s.(polls := s.polls[p := Reading(CursorOf(s.tables, c.scope))])
    case Fetch(p, end, page) => s.(polls := s.polls[p := Fetched(s.polls[p].cursor, end, end, page)])
    case Hit(p, end) =>
      s.(polls := s.polls[p := Fetched(s.polls[p].cursor, end, s.cache.value.readAt, s.cache.value.page)])
    case Fill(readAt, at, page) => s.(cache := Some(Cached(readAt, at, page)))
    case Drop => s.(cache := None)
    case Commit(p) =>
      var x := s.polls[p];
      s.(tables := Committed(s.tables, x.page, c.scope, CursorFor(x.page, x.cursor)), polls := s.polls - {p})
    case Fail(p) => s.(polls := s.polls - {p})
    case OtherSource(scope, events, cursor) => s.(tables := Committed(s.tables, events, scope, cursor))
    case SetDestinations(ds) => s.(tables := s.tables.(destinations := ds))
  }

  ghost predicate Legal(c: Config, s: State, trace: seq<Step>)
    decreases |trace|
  {
    trace == [] || (Enabled(c, s, trace[0]) && Legal(c, Apply(c, s, trace[0]), trace[1..]))
  }

  ghost function Run(c: Config, s: State, trace: seq<Step>): State
    requires Legal(c, s, trace)
    decreases |trace|
  {
    if trace == [] then s else Run(c, Apply(c, s, trace[0]), trace[1..])
  }

  // ---- sources are isolated ----

  // Only a commit of this source moves its cursor; a failed poll is gone and leaves tables and other polls as they
  // were; the commit of another source stores its events, whatever this one does.
  lemma StepsAreIsolated(c: Config, s: State, e: Step)
    requires Enabled(c, s, e)
    ensures var t := Apply(c, s, e);
      && (!e.Commit? ==> CursorOf(t.tables, c.scope) == CursorOf(s.tables, c.scope))
      && (!e.Commit? && !e.OtherSource? && !e.SetDestinations? ==> t.tables == s.tables)
      && (e.Fail? ==> t.polls.Keys == s.polls.Keys - {e.poll} && t.cache == s.cache)
      && (forall p :: p in t.polls && (e.Fail? || e.OtherSource? || e.SetDestinations? || e.Drop? || e.Fill?) ==>
            p in s.polls && t.polls[p] == s.polls[p])
      && (e.OtherSource? ==> CursorOf(t.tables, e.scope) == e.cursor)
      && (e.OtherSource? ==> forall i :: 0 <= i < |e.events| ==> e.events[i].key in t.tables.events)
      && (e.SetDestinations? ==> t.tables.destinations == e.destinations && t.tables.events == s.tables.events)
      && (e.Drop? ==> t.cache == None && t.polls == s.polls)
  {
    if e.OtherSource? {
      forall i | 0 <= i < |e.events| ensures e.events[i].key in Apply(c, s, e).tables.events {
        IngestAllKeys(s.tables, e.events, e.events[i].key);
      }
    }
  }

  // ---- no event is skipped ----

  // Visible no earlier than it happened and, for Protect, within the overlap and one millisecond more:
  // a poll that began before the event was visible did so at least a millisecond earlier.
  predicate Prompt(c: Config, h: Happening)
  {
    && h.event.occurredUs <= h.visibleMs * 1000
    && (c.source.Protect? ==> h.visibleMs * 1000 <= h.event.occurredUs + c.overlapMs * 1000 + 1000)
  }

  predicate Stored(s: State, h: Happening)
  {
    h.event.key in s.tables.events
  }

  // A poll starting from this cursor still asks for the event.
  predicate Covers(c: Config, cursor: Cursor, h: Happening)
  {
    c.source.Protect? && cursor.Some? ==> (cursor.value - c.overlapMs) * 1000 <= h.event.occurredUs
  }

  // A poll that found no watermark began within a day of the event.
  predicate WithinDay(c: Config, x: Poll, end: int, h: Happening)
  {
    c.source.Protect? && x.cursor.None? && end >= h.visibleMs ==> (end - DAY_MS) * 1000 <= h.event.occurredUs
  }

  ghost predicate OnTime(c: Config, s: State, trace: seq<Step>, h: Happening)
    requires Legal(c, s, trace)
    decreases |trace|
  {
    trace != [] ==>
      && (trace[0].Fetch? ==> WithinDay(c, s.polls[trace[0].poll], trace[0].end, h))
      && OnTime(c, Apply(c, s, trace[0]), trace[1..], h)
  }

  // How long a page can have been read before the poll that takes it begins.
  function Age(c: Config): nat
  {
    if c.source.Network? && c.ttlMs >= 1 then c.requestMs + c.ttlMs - 1 else 0
  }

  ghost predicate Read(c: Config, x: Poll)
    requires x.Fetched?
  {
    Answers(c, x.cursor, x.end, x.readAt, x.page) && x.readAt <= x.end <= x.readAt + Age(c)
  }

  ghost predicate CacheIsRead(c: Config, s: State)
  {
    s.cache.Some? ==>
      && c.source.Network? && Answers(c, None, s.cache.value.readAt, s.cache.value.readAt, s.cache.value.page)
      && s.cache.value.readAt <= s.cache.value.storedAt <= s.cache.value.readAt + c.requestMs
  }

  ghost predicate Inv(c: Config, s: State, h: Happening)
  {
    && CacheIsRead(c, s)
    && (Stored(s, h) || Covers(c, CursorOf(s.tables, c.scope), h))
    && (forall p :: p in s.polls ==> Stored(s, h) || Covers(c, s.polls[p].cursor, h))
    && (forall p :: p in s.polls && s.polls[p].Fetched? ==> Read(c, s.polls[p]))
    && (forall p :: p in s.polls && s.polls[p].Fetched? ==> WithinDay(c, s.polls[p], s.polls[p].end, h))
  }

  lemma RoundMsWithin(us: int, end: int)
    requires us <= end * 1000
    ensures RoundMs(us) <= end
  {}

  // A committed poll whose page was read once the event was visible has stored it.
  lemma CommitStores(c: Config, s: State, p: nat, h: Happening)
    requires h in c.world && Prompt(c, h) && Inv(c, s, h)
    requires Enabled(c, s, Commit(p)) && s.polls[p].readAt >= h.visibleMs
    ensures Stored(Apply(c, s, Commit(p)), h)
  {
    var x := s.polls[p];
    IngestAllKeys(s.tables, x.page, h.event.key);
    if !Stored(s, h) {
      assert Covers(c, x.cursor, h) && WithinDay(c, x, x.end, h) && Read(c, x);
      assert InWindow(c, x.cursor, x.end, h.event);
      var i :| 0 <= i < |x.page| && x.page[i] == h.event;
    }
  }

  // A poll whose page was read earlier leaves a watermark from which the event is still asked for.
  lemma CommitCovers(c: Config, s: State, p: nat, h: Happening)
    requires h in c.world && Prompt(c, h) && Inv(c, s, h)
    requires Enabled(c, s, Commit(p)) && s.polls[p].readAt < h.visibleMs
    ensures Stored(s, h) || Covers(c, CursorFor(s.polls[p].page, s.polls[p].cursor), h)
  {
    var x := s.polls[p];
    assert Read(c, x);
    if x.page != [] && c.source.Protect? {
      var i :| 0 <= i < |x.page| && RoundMs(x.page[i].occurredUs) == MaxMs(x.page);
      RoundMsWithin(x.page[i].occurredUs, x.end);
    }
  }

  lemma InvStep(c: Config, s: State, e: Step, h: Happening)
    requires h in c.world && Prompt(c, h) && Inv(c, s, h) && Enabled(c, s, e)
    requires e.Fetch? ==> WithinDay(c, s.polls[e.poll], e.end, h)
    ensures Inv(c, Apply(c, s, e), h)
    ensures Stored(s, h) ==> Stored(Apply(c, s, e), h)
  {
    match e
    case ReadCursor(_) =>
    case Fetch(p, _, _) => assert Stored(s, h) || Covers(c, s.polls[p].cursor, h);
    case Hit(p, _) => assert Stored(s, h) || Covers(c, s.polls[p].cursor, h);
    case Fill(_, _, _) =>
    case Drop =>
    case Fail(_) =>
    case Commit(p) =>
      IngestAllKeys(s.tables, s.polls[p].page, h.event.key);
      if s.polls[p].readAt >= h.visibleMs { CommitStores(c, s, p, h); } else { CommitCovers(c, s, p, h); }
    case OtherSource(_, events, _) => IngestAllKeys(s.tables, events, h.event.key);
    case SetDestinations(_) =>
  }

  lemma {:induction false} InvRun(c: Config, s: State, trace: seq<Step>, h: Happening)
    requires h in c.world && Prompt(c, h) && Inv(c, s, h) && Legal(c, s, trace) && OnTime(c, s, trace, h)
    ensures Inv(c, Run(c, s, trace), h)
    decreases |trace|
  {
    if trace != [] {
      InvStep(c, s, trace[0], h);
      InvRun(c, Apply(c, s, trace[0]), trace[1..], h);
    }
  }

  function Start(t: Tables): State
  {
    State(t, map[], None)
  }

  // In the state after a run: until the event is stored the watermark still asks for it, and the first
  // commit of a poll that began once every page that can lack it is too old stores it.
  ghost predicate Kept(c: Config, s: State, h: Happening, p: nat)
  {
    && (Stored(s, h) || Covers(c, CursorOf(s.tables, c.scope), h))
    && (Enabled(c, s, Commit(p)) && s.polls[p].end >= h.visibleMs + Age(c) ==> Stored(Apply(c, s, Commit(p)), h))
  }

  // A run from tables without a watermark, or with one from which the event is still asked for, in which
  // polls fail, are refused and overlap.
  ghost predicate Begins(c: Config, t: Tables, trace: seq<Step>, h: Happening)
  {
    h in c.world && Covers(c, CursorOf(t, c.scope), h) && Legal(c, Start(t), trace) && OnTime(c, Start(t), trace, h)
  }

  lemma NoEventIsSkipped(c: Config, t: Tables, trace: seq<Step>, h: Happening, p: nat)
    requires Prompt(c, h) && Begins(c, t, trace, h)
    ensures Kept(c, Run(c, Start(t), trace), h, p)
  {
    InvRun(c, Start(t), trace, h);
    var s := Run(c, Start(t), trace);
    if Enabled(c, s, Commit(p)) && s.polls[p].end >= h.visibleMs + Age(c) {
      assert Read(c, s.polls[p]);
      CommitStores(c, s, p, h);
    }
  }

  // ---- a Protect event that is later than that can be lost ----

  // Another event, seen at once, by which the watermark passes the late one.
  function Other(h: Happening): Happening
  {
    var key := h.event.key.(sourceKey := h.event.key.sourceKey + "'");
    Happening(Event(key, "", (h.visibleMs - 1) * 1000, ""), h.visibleMs - 1)
  }

  function LateConfig(overlapMs: nat, h: Happening): Config
  {
    Config(Protect, Scope("protect", "", ""), overlapMs, 0, 0, {h, Other(h)})
  }

  function FirstPoll(h: Happening): seq<Step>
  {
    [ReadCursor(0), Fetch(0, h.visibleMs - 1, [Other(h).event]), Commit(0)]
  }

  function SecondPoll(h: Happening): seq<Step>
  {
    [ReadCursor(1), Fetch(1, h.visibleMs, [Other(h).event])]
  }

  function AfterFirst(c: Config, h: Happening): State
  {
    Start(Committed(EventStore.EMPTY, [Other(h).event], c.scope, Some(h.visibleMs - 1)))
  }

  lemma OneMore(c: Config, s: State, e: Step, rest: seq<Step>, h: Happening)
    requires Enabled(c, s, e) && Legal(c, Apply(c, s, e), rest) && OnTime(c, Apply(c, s, e), rest, h)
    requires e.Fetch? ==> WithinDay(c, s.polls[e.poll], e.end, h)
    ensures Legal(c, s, [e] + rest) && OnTime(c, s, [e] + rest, h)
    ensures Run(c, s, [e] + rest) == Run(c, Apply(c, s, e), rest)
  {
    assert ([e] + rest)[1..] == rest;
  }

  // A poll by itself that has its page.
  function Alone(c: Config, t: Tables, p: nat, end: int, page: seq<Event>): State
  {
    State(t, map[p := Fetched(CursorOf(t, c.scope), end, end, page)], None)
  }

  // ... from its cursor on, and what is to come.
  lemma PollAlone(c: Config, t: Tables, p: nat, end: int, page: seq<Event>, rest: seq<Step>, h: Happening)
    requires Answers(c, CursorOf(t, c.scope), end, end, page) && WithinDay(c, Reading(CursorOf(t, c.scope)), end, h)
    requires Legal(c, Alone(c, t, p, end, page), rest) && OnTime(c, Alone(c, t, p, end, page), rest, h)
    ensures var trace := [ReadCursor(p)] + ([Fetch(p, end, page)] + rest);
      && Legal(c, Start(t), trace) && OnTime(c, Start(t), trace, h)
      && Run(c, Start(t), trace) == Run(c, Alone(c, t, p, end, page), rest)
  {
    var read := Apply(c, Start(t), ReadCursor(p));
    assert read.polls == map[p := Reading(CursorOf(t, c.scope))];
    assert Apply(c, read, Fetch(p, end, page)) == Alone(c, t, p, end, page);
    OneMore(c, read, Fetch(p, end, page), rest, h);
    OneMore(c, Start(t), ReadCursor(p), [Fetch(p, end, page)] + rest, h);
  }

  lemma FirstPollCommits(c: Config, h: Happening, rest: seq<Step>)
    requires c == LateConfig(c.overlapMs, h) && h.event.occurredUs <= h.visibleMs * 1000
    requires Legal(c, AfterFirst(c, h), rest) && OnTime(c, AfterFirst(c, h), rest, h)
    ensures var trace := FirstPoll(h) + rest;
      && Legal(c, Start(EventStore.EMPTY), trace) && OnTime(c, Start(EventStore.EMPTY), trace, h)
      && Run(c, Start(EventStore.EMPTY), trace) == Run(c, AfterFirst(c, h), rest)
  {
    var g, end := Other(h), h.visibleMs - 1;
    var fetched := State(EventStore.EMPTY, map[0 := Fetched(None, end, end, [g.event])], None);
    assert RoundMs(g.event.occurredUs) == end;
    assert g in c.world && g.event == [g.event][0];
    assert Apply(c, fetched, Commit(0)) == AfterFirst(c, h);
    OneMore(c, fetched, Commit(0), rest, h);
    PollAlone(c, EventStore.EMPTY, 0, end, [g.event], [Commit(0)] + rest, h);
    assert FirstPoll(h) + rest == [ReadCursor(0)] + ([Fetch(0, end, [g.event])] + ([Commit(0)] + rest));
  }

  lemma LateEventIsSkipped(overlapMs: nat, h: Happening)
    requires h.event.occurredUs + overlapMs * 1000 + 1000 < h.visibleMs * 1000
    ensures var c := LateConfig(overlapMs, h);
      && Begins(c, EventStore.EMPTY, FirstPoll(h) + SecondPoll(h), h)
      && !Kept(c, Run(c, Start(EventStore.EMPTY), FirstPoll(h) + SecondPoll(h)), h, 1)
  {
    var c, g := LateConfig(overlapMs, h), Other(h);
    var t := AfterFirst(c, h).tables;
    var fetched := State(t, map[1 := Fetched(Some(h.visibleMs - 1), h.visibleMs, h.visibleMs, [g.event])], None);
    assert CursorOf(t, c.scope) == Some(h.visibleMs - 1);
    assert g in c.world && g.event == [g.event][0];
    PollAlone(c, t, 1, h.visibleMs, [g.event], [], h);
    assert SecondPoll(h) == [ReadCursor(1)] + ([Fetch(1, h.visibleMs, [g.event])] + []);
    FirstPollCommits(c, h, SecondPoll(h));
    IngestAllKeys(EventStore.EMPTY, [g.event], h.event.key);
    IngestAllKeys(t, [g.event], h.event.key);
    assert |g.event.key.sourceKey| == |h.event.key.sourceKey| + 1;
  }

  ghost predicate NeverSkipped(overlapMs: nat, h: Happening)
  {
    forall c: Config, t, trace, p :: c.source.Protect? && c.overlapMs == overlapMs && Begins(c, t, trace, h)
      ==> Kept(c, Run(c, Start(t), trace), h, p)
  }

  // The bound on the delay is exact: an event is kept in every run of every Protect source with this
  // overlap if and only if it becomes visible within the overlap and one millisecond more.
  lemma OverlapIsExact(overlapMs: nat, h: Happening)
    requires h.event.occurredUs <= h.visibleMs * 1000
    ensures NeverSkipped(overlapMs, h) <==> h.visibleMs * 1000 <= h.event.occurredUs + overlapMs * 1000 + 1000
  {
    if h.visibleMs * 1000 <= h.event.occurredUs + overlapMs * 1000 + 1000 {
      forall c: Config, t, trace, p | c.source.Protect? && c.overlapMs == overlapMs && Begins(c, t, trace, h)
        ensures Kept(c, Run(c, Start(t), trace), h, p)
      {
        NoEventIsSkipped(c, t, trace, h, p);
      }
    } else {
      LateEventIsSkipped(overlapMs, h);
      var c, trace := LateConfig(overlapMs, h), FirstPoll(h) + SecondPoll(h);
      assert !Kept(c, Run(c, Start(EventStore.EMPTY), trace), h, 1);
    }
  }

  // ---- a Network event can be missed for as long as a page without it stays in the read cache ----

  function StaleConfig(ttlMs: nat, requestMs: nat, h: Happening): Config
  {
    Config(Network, Scope("network", "", ""), 0, ttlMs, requestMs, {h})
  }

  function StalePage(c: Config, h: Happening, delayMs: nat): Cached
  {
    Cached(h.visibleMs - 1, Min(h.visibleMs - 1 + c.requestMs, h.visibleMs + delayMs), [])
  }

  // A poll just before the event is visible fills the cache, and the next one is answered from there.
  function StalePoll(x: Cached, end: int): seq<Step>
  {
    [ReadCursor(0), Fetch(0, x.readAt, []), Fill(x.readAt, x.storedAt, []), Commit(0), ReadCursor(1), Hit(1, end)]
  }

  // A poll begun this long after the event was visible stores it.
  ghost predicate StoredAfter(c: Config, s: State, h: Happening, delayMs: nat, p: nat)
  {
    Enabled(c, s, Commit(p)) && s.polls[p].end >= h.visibleMs + delayMs ==> Stored(Apply(c, s, Commit(p)), h)
  }

  predicate CachesFor(c: Config, ttlMs: nat, requestMs: nat)
  {
    c.source.Network? && c.ttlMs == ttlMs && c.requestMs == requestMs
  }

  ghost predicate AlwaysStoredAfter(ttlMs: nat, requestMs: nat, h: Happening, delayMs: nat)
  {
    forall c: Config, t, trace, p :: CachesFor(c, ttlMs, requestMs) && Begins(c, t, trace, h)
      ==> StoredAfter(c, Run(c, Start(t), trace), h, delayMs, p)
  }

  // The stages of that run after the first poll's page, after its commit, and at the end.
  function Paged(x: Cached): State { State(EventStore.EMPTY, map[0 := Fetched(None, x.readAt, x.readAt, [])], None) }

  function Emptied(c: Config, x: Cached): State
  {
    State(Committed(EventStore.EMPTY, [], c.scope, None), map[], Some(x))
  }

  function Answered(c: Config, x: Cached, end: int): State
  {
    Emptied(c, x).(polls := map[1 := Fetched(None, end, x.readAt, [])])
  }

  lemma StaleHit(c: Config, h: Happening, x: Cached, end: int)
    requires c.source.Network? && x.page == [] && x.storedAt <= end < x.storedAt + c.ttlMs
    ensures var s, trace := Emptied(c, x), [ReadCursor(1)] + ([Hit(1, end)] + []);
      Legal(c, s, trace) && OnTime(c, s, trace, h) && Run(c, s, trace) == Answered(c, x, end)
  {
    var s := Emptied(c, x);
    var reading := s.(polls := map[1 := Reading(None)]);
    assert Apply(c, s, ReadCursor(1)) == reading;
    assert Apply(c, reading, Hit(1, end)) == Answered(c, x, end);
    OneMore(c, reading, Hit(1, end), [], h);
    OneMore(c, s, ReadCursor(1), [Hit(1, end)] + [], h);
  }

  lemma StaleFill(c: Config, h: Happening, x: Cached, rest: seq<Step>)
    requires c == StaleConfig(c.ttlMs, c.requestMs, h) && x.page == []
    requires x.readAt < h.visibleMs && x.readAt <= x.storedAt <= x.readAt + c.requestMs
    requires Legal(c, Emptied(c, x), rest) && OnTime(c, Emptied(c, x), rest, h)
    ensures var s, trace := Paged(x), [Fill(x.readAt, x.storedAt, [])] + ([Commit(0)] + rest);
      Legal(c, s, trace) && OnTime(c, s, trace, h) && Run(c, s, trace) == Run(c, Emptied(c, x), rest)
  {
    var filled := Paged(x).(cache := Some(x));
    assert Apply(c, filled, Commit(0)) == Emptied(c, x);
    OneMore(c, filled, Commit(0), rest, h);
    OneMore(c, Paged(x), Fill(x.readAt, x.storedAt, []), [Commit(0)] + rest, h);
  }

  lemma StalePollRuns(c: Config, h: Happening, x: Cached, end: int)
    requires c == StaleConfig(c.ttlMs, c.requestMs, h) && x.page == [] && x.readAt < h.visibleMs
    requires x.readAt <= x.storedAt <= x.readAt + c.requestMs && x.storedAt <= end < x.storedAt + c.ttlMs
    ensures Begins(c, EventStore.EMPTY, StalePoll(x, end), h)
    ensures Run(c, Start(EventStore.EMPTY), StalePoll(x, end)) == Answered(c, x, end)
  {
    var hit := [ReadCursor(1)] + ([Hit(1, end)] + []);
    var fill := [Fill(x.readAt, x.storedAt, [])] + ([Commit(0)] + hit);
    StaleHit(c, h, x, end);
    StaleFill(c, h, x, hit);
    PollAlone(c, EventStore.EMPTY, 0, x.readAt, [], fill, h);
    assert StalePoll(x, end) == [ReadCursor(0)] + ([Fetch(0, x.readAt, [])] + fill);
  }

  lemma CachedPageMisses(c: Config, h: Happening, delayMs: nat)
    requires c == StaleConfig(c.ttlMs, c.requestMs, h) && c.ttlMs >= 1 && delayMs < c.requestMs + c.ttlMs - 1
    ensures var trace := StalePoll(StalePage(c, h, delayMs), h.visibleMs + delayMs);
      && Begins(c, EventStore.EMPTY, trace, h)
      && !StoredAfter(c, Run(c, Start(EventStore.EMPTY), trace), h, delayMs, 1)
  {
    StalePollRuns(c, h, StalePage(c, h, delayMs), h.visibleMs + delayMs);
  }

  // A Network event is stored by the first commit of every poll begun `delayMs` after it is visible if and
  // only if that is as long as a page can be in the cache, and its request before that.
  lemma CacheDelayIsExact(ttlMs: nat, requestMs: nat, h: Happening, delayMs: nat)
    requires h.event.occurredUs <= h.visibleMs * 1000
    ensures AlwaysStoredAfter(ttlMs, requestMs, h, delayMs) <==> ttlMs == 0 || delayMs >= requestMs + ttlMs - 1
  {
    if ttlMs == 0 || delayMs >= requestMs + ttlMs - 1 {
      forall c: Config, t, trace, p | CachesFor(c, ttlMs, requestMs) && Begins(c, t, trace, h)
        ensures StoredAfter(c, Run(c, Start(t), trace), h, delayMs, p)
      {
        NoEventIsSkipped(c, t, trace, h, p);
      }
    } else {
      var c := StaleConfig(ttlMs, requestMs, h);
      CachedPageMisses(c, h, delayMs);
      assert CachesFor(c, ttlMs, requestMs);
    }
  }

  // Exactly which events a committed poll leaves stored, whatever the delay of the event: those stored
  // already and, for Protect, those not before the start of its window.
  lemma CommitStoresIffInWindow(c: Config, s: State, p: nat, h: Happening)
    requires h in c.world && Enabled(c, s, Commit(p))
    requires h.event.occurredUs <= h.visibleMs * 1000 <= s.polls[p].readAt * 1000 && Read(c, s.polls[p])
    requires forall g :: g in c.world && g.event.key == h.event.key ==> g.event == h.event
    ensures Stored(Apply(c, s, Commit(p)), h)
       <==> Stored(s, h) || c.source.Network?
            || WindowStart(s.polls[p].cursor, s.polls[p].end, c.overlapMs) * 1000 <= h.event.occurredUs
  {
    var x := s.polls[p];
    IngestAllKeys(s.tables, x.page, h.event.key);
    if i :| 0 <= i < |x.page| && x.page[i].key == h.event.key {
      var g :| g in c.world && g.event == x.page[i];
    }
    if InWindow(c, x.cursor, x.end, h.event) {
      var i :| 0 <= i < |x.page| && x.page[i] == h.event;
    }
  }

  // So the day matters: a poll that found no watermark misses an event older than that.
  lemma FirstPollStoresIffWithinDay(c: Config, s: State, p: nat, h: Happening)
    requires h in c.world && Prompt(c, h) && Enabled(c, s, Commit(p)) && !Stored(s, h)
    requires s.polls[p].cursor.None? && s.polls[p].readAt >= h.visibleMs && Read(c, s.polls[p])
    requires forall g :: g in c.world && g.event.key == h.event.key ==> g.event == h.event
    ensures Stored(Apply(c, s, Commit(p)), h) <==> WithinDay(c, s.polls[p], s.polls[p].end, h)
  {
    CommitStoresIffInWindow(c, s, p, h);
  }
}
