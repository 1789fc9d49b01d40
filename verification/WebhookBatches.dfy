// Batches of webhook deliveries: rows claimed together are attempted one after the other, by a job that is
// cancelled after its own timeout.
module WebhookBatches {
  import opened Arithmetic
  import opened Common
  import opened DueOrder
  import opened Webhooks

  // When the n-th row of a batch is recorded, its attempts taking `durations` one after the other.
  function RecordedAfter(durations: seq<nat>, n: nat): nat
    requires n <= |durations|
  {
    if n == 0 then 0 else RecordedAfter(durations, n - 1) + durations[n - 1]
  }

  // A batch of up to `limit` rows, each attempt of at most `perRow`, inside a job that is cancelled after
  // its own timeout.
  datatype Batch = Batch(limit: nat, perRow: nat, jobTimeout: nat)

  function BatchBound(b: Batch): nat { Min(b.limit * b.perRow, b.jobTimeout) }

  predicate Possible(b: Batch, durations: seq<nat>)
  {
    |durations| <= b.limit && forall i :: 0 <= i < |durations| ==> durations[i] <= b.perRow
  }

  lemma {:induction false} RowsTake(durations: seq<nat>, perRow: nat, n: nat)
    requires n <= |durations| && forall i :: 0 <= i < |durations| ==> durations[i] <= perRow
    ensures RecordedAfter(durations, n) <= n * perRow
    ensures (forall i :: 0 <= i < n ==> durations[i] == perRow) ==> RecordedAfter(durations, n) == n * perRow
  {
    if n > 0 {
      RowsTake(durations, perRow, n - 1);
      assert n * perRow == (n - 1) * perRow + perRow;
    }
  }

  // No row is recorded later than the bound before its job is cancelled.
  lemma BatchWithinBound(b: Batch, durations: seq<nat>, n: nat)
    requires Possible(b, durations) && n <= |durations| && RecordedAfter(durations, n) <= b.jobTimeout
    ensures RecordedAfter(durations, n) <= BatchBound(b)
  {
    RowsTake(durations, b.perRow, n);
    if n < b.limit { StepsOf(n, b.limit, b.perRow); }
  }

  // A batch cut off by its job: full rows, and one that takes what is left.
  lemma CutOffBatch(b: Batch, q: nat, rest: nat)
    requires q < b.limit && rest <= b.perRow && b.jobTimeout == q * b.perRow + rest
    ensures exists durations :: Possible(b, durations) && RecordedAfter(durations, |durations|) == b.jobTimeout
  {
    var durations := seq(q, _ => b.perRow) + [rest];
    RowsTake(durations, b.perRow, q);
    assert Possible(b, durations) && RecordedAfter(durations, q + 1) == RecordedAfter(durations, q) + rest;
  }

  // ... and some batch has a row recorded just then.
  lemma BatchBoundIsReached(b: Batch)
    ensures exists durations :: Possible(b, durations) && RecordedAfter(durations, |durations|) == BatchBound(b)
  {
    if b.limit * b.perRow <= b.jobTimeout {
      var durations := seq(b.limit, _ => b.perRow);
      RowsTake(durations, b.perRow, b.limit);
      assert Possible(b, durations);
    } else {
      var q := b.jobTimeout / b.perRow;
      DivMod(b.jobTimeout, b.perRow, q);
      if q >= b.limit { StepsOf(b.limit - 1, q, b.perRow); }
      CutOffBatch(b, q, b.jobTimeout % b.perRow);
    }
  }

  // ---- the workers in the transition system ----

  // Whose turn it is in a batch, and since when.
  datatype Turn = Turn(next: nat, since: int)

  // The batch of each claim, named by its first claim, and the turn of each batch.
  datatype Workers = Workers(batch: map<nat, nat>, turns: map<nat, Turn>)

  predicate InSpan(k: nat, a: nat, b: nat)
  {
    a <= k < b
  }

  // The numbers from a up to b.
  function Span(a: nat, b: nat): set<nat>
  {
    set k: nat | k < b && InSpan(k, a, b)
  }

  function Together(first: nat, end: nat): map<nat, nat>
  {
    map r | r in Span(first, end) :: first
  }

  const IDLE := Workers(map[], map[])

  predicate MyTurn(w: Workers, r: nat)
  {
    r in w.batch && w.batch[r] in w.turns && w.turns[w.batch[r]].next == r
  }

  // No job runs past its timeout, and no row whose turn it is takes longer than `perRow`.
  ghost predicate InTime(b: Batch, s: State, w: Workers, at: int)
  {
    && s.clock <= at
    && (forall r :: r in s.inFlight ==> at <= s.inFlight[r].claimedAt + b.jobTimeout)
    && (forall r :: r in s.inFlight && MyTurn(w, r) ==> at <= w.turns[w.batch[r]].since + b.perRow)
  }

  // Rows are recorded in turn. An exception or a cancellation gives up what is left of a batch, from the end.
  ghost predicate Fits(b: Batch, s: State, w: Workers, e: Event)
  {
    InTime(b, s, w, e.at) &&
    match e.step
    case ClaimDue(_, limit, _) => limit <= b.limit
    case Record(r, _) => MyTurn(w, r)
    case Abandon(r) => !(r + 1 in s.inFlight && r in w.batch && r + 1 in w.batch && w.batch[r + 1] == w.batch[r])
    case _ => true
  }

  // A batch of n claims begins.
  function Joined(w: Workers, first: nat, n: nat, at: int): Workers
  {
    Workers(w.batch + Together(first, first + n), w.turns[first := Turn(first, at)])
  }

  // The turn passes to the next row.
  function Passed(w: Workers, r: nat, at: int): Workers
  {
    if r in w.batch then w.(turns := w.turns[w.batch[r] := Turn(r + 1, at)]) else w
  }

  function Next(s: State, w: Workers, e: Event): Workers
  {
    match e.step
    case ClaimDue(_, _, ids) => if ids == [] then w else Joined(w, s.issued, |ids|, e.at)
    case Record(r, _) => Passed(w, r, e.at)
    case _ => w
  }

  // A run in which every claim is part of such a batch.
  ghost predicate BatchLegal(b: Batch, c: Config, s: State, w: Workers, trace: seq<Event>)
    decreases |trace|
  {
    trace == [] ||
    (Doable(c, s, trace[0]) && Fits(b, s, w, trace[0])
     && BatchLegal(b, c, Apply(c, s, trace[0]), Next(s, w, trace[0]), trace[1..]))
  }

  ghost predicate StepsKeepTerminal(b: Batch, c: Config, s: State, w: Workers, trace: seq<Event>)
    requires BatchLegal(b, c, s, w, trace)
    decreases |trace|
  {
    trace == [] ||
    (KeepsTerminal(c, s, trace[0])
     && StepsKeepTerminal(b, c, Apply(c, s, trace[0]), Next(s, w, trace[0]), trace[1..]))
  }

  // Finished deliveries never change, in any run of batches.
  ghost predicate BatchesKeepTerminal(b: Batch, c: Config)
  {
    forall trace :: BatchLegal(b, c, EMPTY, IDLE, trace) ==> StepsKeepTerminal(b, c, EMPTY, IDLE, trace)
  }

  // ---- batches stay within the bound ----

  ghost predicate InBatch(s: State, w: Workers, r: nat, f: nat, claimedAt: int)
  {
    r in s.inFlight && r in w.batch && w.batch[r] == f && s.inFlight[r].claimedAt == claimedAt
  }

  // What is in flight of a batch is everything from the row whose turn it is to some end.
  ghost predicate Placed(b: Batch, s: State, w: Workers, r: nat)
    requires r in s.inFlight
  {
    && r < s.issued && r in w.batch && w.batch[r] in w.turns
    && var f, claimedAt := w.batch[r], s.inFlight[r].claimedAt;
    var t := w.turns[f];
    && f <= t.next <= r < f + b.limit
    && t.since <= claimedAt + (t.next - f) * b.perRow
    && forall k: nat :: t.next <= k <= r ==> InBatch(s, w, k, f, claimedAt)
  }

  ghost predicate AllPlaced(b: Batch, s: State, w: Workers)
  {
    forall r :: r in s.inFlight ==> Placed(b, s, w, r)
  }

  lemma WithinRows(k: nat, limit: nat, perRow: nat)
    requires k < limit
    ensures k * perRow + perRow <= limit * perRow
  {
    assert limit * perRow == k * perRow + perRow + (limit - k - 1) * perRow;
  }

  lemma OneMoreRow(k: nat, perRow: nat)
    ensures (k + 1) * perRow == k * perRow + perRow
  {
  }

  // The bound on batches is a bound on claims.
  lemma BatchesAreTimely(b: Batch, c: Config, s: State, w: Workers, at: int)
    requires AllPlaced(b, s, w) && InTime(b, s, w, at) && c.bound == BatchBound(b)
    ensures Timely(c, s, at)
  {
    forall r | r in s.inFlight ensures at <= s.inFlight[r].claimedAt + c.bound {
      assert Placed(b, s, w, r);
      var f := w.batch[r];
      var t := w.turns[f];
      assert InBatch(s, w, t.next, f, s.inFlight[r].claimedAt);
      WithinRows(t.next - f, b.limit, b.perRow);
    }
  }

  // Later claims disturb no batch.
  lemma StaysPlaced(b: Batch, s: State, w: Workers, t: State, v: Workers, r: nat)
    requires r in s.inFlight && Placed(b, s, w, r) && s.issued <= t.issued
    requires forall k :: k in s.inFlight ==> k in t.inFlight && t.inFlight[k] == s.inFlight[k]
    requires forall k :: k in w.batch && k < s.issued ==> k in v.batch && v.batch[k] == w.batch[k]
    requires forall f :: f in w.turns && f < s.issued ==> f in v.turns && v.turns[f] == w.turns[f]
    ensures Placed(b, t, v, r)
  {
    var f := w.batch[r];
    forall k: nat | w.turns[f].next <= k <= r ensures InBatch(t, v, k, f, t.inFlight[r].claimedAt) {
      assert InBatch(s, w, k, f, s.inFlight[r].claimedAt);
    }
  }

  lemma NewIsPlaced(b: Batch, t: State, v: Workers, first: nat, end: nat, at: int, r: nat)
    requires first <= r < end <= first + b.limit && end == t.issued
    requires first in v.turns && v.turns[first] == Turn(first, at)
    requires forall k: nat :: first <= k < end ==> InBatch(t, v, k, first, at)
    ensures r in t.inFlight && Placed(b, t, v, r)
  {
    assert InBatch(t, v, r, first, at);
  }

  lemma NewClaimsAreTogether(c: Config, s: State, w: Workers, e: Event, k: nat)
    requires Doable(c, s, e) && e.step.ClaimDue? && s.issued <= k < s.issued + |e.step.ids|
    ensures InBatch(Apply(c, s, e), Next(s, w, e), k, s.issued, e.at)
  {
  }

  lemma OldClaimsStay(b: Batch, c: Config, s: State, w: Workers, e: Event, r: nat)
    requires AllPlaced(b, s, w) && Doable(c, s, e) && e.step.ClaimDue? && r in s.inFlight
    ensures r < s.issued && r in Apply(c, s, e).inFlight && Apply(c, s, e).inFlight[r] == s.inFlight[r]
  {
    assert Placed(b, s, w, r);
  }

  lemma OldIsPlaced(b: Batch, c: Config, s: State, w: Workers, e: Event, r: nat)
    requires AllPlaced(b, s, w) && Doable(c, s, e) && e.step.ClaimDue? && r in s.inFlight
    ensures r in Apply(c, s, e).inFlight && Placed(b, Apply(c, s, e), Next(s, w, e), r)
  {
    forall k | k in s.inFlight { OldClaimsStay(b, c, s, w, e, k); }
    StaysPlaced(b, s, w, Apply(c, s, e), Next(s, w, e), r);
  }

  lemma NewOfClaimIsPlaced(b: Batch, c: Config, s: State, w: Workers, e: Event, r: nat)
    requires Doable(c, s, e) && Fits(b, s, w, e) && e.step.ClaimDue?
    requires s.issued <= r < s.issued + |e.step.ids|
    ensures r in Apply(c, s, e).inFlight && Placed(b, Apply(c, s, e), Next(s, w, e), r)
  {
    var end := s.issued + |e.step.ids|;
    forall k: nat | s.issued <= k < end { NewClaimsAreTogether(c, s, w, e, k); }
    NewIsPlaced(b, Apply(c, s, e), Next(s, w, e), s.issued, end, e.at, r);
  }

  lemma ClaimIsPlaced(b: Batch, c: Config, s: State, w: Workers, e: Event)
    requires AllPlaced(b, s, w) && Doable(c, s, e) && Fits(b, s, w, e) && e.step.ClaimDue?
    ensures AllPlaced(b, Apply(c, s, e), Next(s, w, e))
  {
    var t := Apply(c, s, e);
    forall r | r in t.inFlight ensures Placed(b, t, Next(s, w, e), r) {
      if r in s.inFlight { OldIsPlaced(b, c, s, w, e, r); } else { NewOfClaimIsPlaced(b, c, s, w, e, r); }
    }
  }

  lemma RecordIsPlaced(b: Batch, c: Config, s: State, w: Workers, e: Event)
    requires AllPlaced(b, s, w) && Doable(c, s, e) && Fits(b, s, w, e) && e.step.Record?
    ensures AllPlaced(b, Apply(c, s, e), Next(s, w, e))
  {
    var t, v, q := Apply(c, s, e), Next(s, w, e), e.step.claim;
    assert Placed(b, s, w, q);
    forall r | r in t.inFlight ensures Placed(b, t, v, r) {
      assert Placed(b, s, w, r);
      var f, claimedAt := w.batch[r], s.inFlight[r].claimedAt;
      assert InBatch(s, w, w.turns[f].next, f, claimedAt);
      forall k: nat | v.turns[f].next <= k <= r ensures InBatch(t, v, k, f, claimedAt) {
        assert InBatch(s, w, k, f, claimedAt);
      }
      if f == w.batch[q] { OneMoreRow(q - f, b.perRow); }
    }
  }

  lemma OtherIsPlaced(b: Batch, c: Config, s: State, w: Workers, e: Event)
    requires AllPlaced(b, s, w) && Doable(c, s, e) && Fits(b, s, w, e) && !e.step.ClaimDue? && !e.step.Record?
    ensures AllPlaced(b, Apply(c, s, e), Next(s, w, e))
  {
    var t := Apply(c, s, e);
    forall r | r in t.inFlight ensures Placed(b, t, w, r) {
      assert Placed(b, s, w, r);
      var f, claimedAt := w.batch[r], s.inFlight[r].claimedAt;
      forall k: nat | w.turns[f].next <= k <= r ensures InBatch(t, w, k, f, claimedAt) {
        assert InBatch(s, w, k, f, claimedAt);
        if k < r { assert InBatch(s, w, k + 1, f, claimedAt); }
      }
    }
  }

  lemma PlacedStep(b: Batch, c: Config, s: State, w: Workers, e: Event)
    requires AllPlaced(b, s, w) && Doable(c, s, e) && Fits(b, s, w, e)
    ensures AllPlaced(b, Apply(c, s, e), Next(s, w, e))
  {
    if e.step.ClaimDue? {
      ClaimIsPlaced(b, c, s, w, e);
    } else if e.step.Record? {
      RecordIsPlaced(b, c, s, w, e);
    } else {
      OtherIsPlaced(b, c, s, w, e);
    }
  }

  // Every run of batches is a run of claims held no longer than the bound.
  lemma {:induction false} BatchesAreLegal(b: Batch, c: Config, s: State, w: Workers, trace: seq<Event>)
    requires AllPlaced(b, s, w) && BatchLegal(b, c, s, w, trace) && c.bound == BatchBound(b)
    ensures Legal(c, s, trace)
    decreases |trace|
  {
    if trace != [] {
      BatchesAreTimely(b, c, s, w, trace[0].at);
      PlacedStep(b, c, s, w, trace[0]);
      BatchesAreLegal(b, c, Apply(c, s, trace[0]), Next(s, w, trace[0]), trace[1..]);
    }
  }

  lemma {:induction false} BatchesKeepTerminalRun(b: Batch, c: Config, s: State, w: Workers, trace: seq<Event>)
    requires AllPlaced(b, s, w) && BatchLegal(b, c, s, w, trace) && c.bound == BatchBound(b)
    requires c.stale > c.bound + c.lag && Inv(c, s)
    ensures StepsKeepTerminal(b, c, s, w, trace)
    decreases |trace|
  {
    if trace != [] {
      BatchesAreTimely(b, c, s, w, trace[0].at);
      PlacedStep(b, c, s, w, trace[0]);
      InvStep(c, s, trace[0]);
      TerminalStep(c, s, trace[0]);
      BatchesKeepTerminalRun(b, c, Apply(c, s, trace[0]), Next(s, w, trace[0]), trace[1..]);
    }
  }

  // ---- a batch that holds its last row too long ----

  datatype Stage = Stage(s: State, w: Workers)

  ghost predicate LeadsTo(b: Batch, c: Config, p: Stage, e: Event, q: Stage)
  {
    Doable(c, p.s, e) && Fits(b, p.s, p.w, e) && q == Stage(Apply(c, p.s, e), Next(p.s, p.w, e))
  }

  ghost predicate BrokenFrom(b: Batch, c: Config, p: Stage, trace: seq<Event>)
  {
    BatchLegal(b, c, p.s, p.w, trace) && !StepsKeepTerminal(b, c, p.s, p.w, trace)
  }

  lemma LeadsToBroken(b: Batch, c: Config, p: Stage, e: Event, q: Stage, rest: seq<Event>)
    requires LeadsTo(b, c, p, e, q) && BrokenFrom(b, c, q, rest)
    ensures BrokenFrom(b, c, p, [e] + rest)
  {
    assert ([e] + rest)[1..] == rest;
  }

  // How a stage leads to another, and what leads on to a broken run, given apart from what they mean.
  type Link = (Stage, Event, Stage) -> bool

  type Goal = (Stage, seq<Event>) -> bool

  function Stretch(events: nat -> Event, k: nat, n: nat): seq<Event>
    requires k <= n
    decreases n - k
  {
    if k == n then [] else [events(k)] + Stretch(events, k + 1, n)
  }

  lemma {:induction false} Chain(link: Link, goal: Goal, stages: nat -> Stage, events: nat -> Event, k: nat, n: nat,
                                 rest: seq<Event>)
    requires forall p, e, q, more :: link(p, e, q) && goal(q, more) ==> goal(p, [e] + more)
    requires forall i: nat :: k <= i < n ==> link(stages(i), events(i), stages(i + 1))
    requires k <= n && goal(stages(n), rest)
    ensures goal(stages(k), Stretch(events, k, n) + rest)
    decreases n - k
  {
    if k == n {
      assert Stretch(events, k, n) + rest == rest;
    } else {
      var more := Stretch(events, k + 1, n) + rest;
      Chain(link, goal, stages, events, k + 1, n, rest);
      assert Stretch(events, k, n) + rest == [events(k)] + more;
    }
  }

  // What holds of the steps and of the broken runs, seen from outside.
  ghost predicate Covers(b: Batch, c: Config, link: Link, goal: Goal)
  {
    && (forall p, e, q {:trigger LeadsTo(b, c, p, e, q)} :: LeadsTo(b, c, p, e, q) ==> link(p, e, q))
    && (forall p, trace {:trigger BrokenFrom(b, c, p, trace)} :: BrokenFrom(b, c, p, trace) ==> goal(p, trace))
    && (forall p, e, q, more :: link(p, e, q) && goal(q, more) ==> goal(p, [e] + more))
  }

  // ---- single steps, from the little that matters of a state ----

  function AfterRecord(c: Config, s: State, r: nat, at: int, outcome: Outcome): State
    requires r in s.inFlight
  {
    var x := s.inFlight[r];
    s.(clock := at,
       rows := Recorded(s.rows, x.delivery, ReportOf(outcome, x.previous + 1, c.maxAttempts), x.previous + 1, x.now),
       inFlight := s.inFlight - {r},
       records := s.records[x.delivery := (if x.delivery in s.records then s.records[x.delivery] else 0) + 1])
  }

  lemma RecordingLeads(b: Batch, c: Config, p: Stage, r: nat, at: int, outcome: Outcome, q: Stage)
    requires r in p.s.inFlight && MyTurn(p.w, r) && InTime(b, p.s, p.w, at)
    requires q == Stage(AfterRecord(c, p.s, r, at, outcome), Passed(p.w, r, at))
    ensures LeadsTo(b, c, p, Event(at, Record(r, outcome)), q)
  {
  }

  lemma ClaimApplies(c: Config, s: State, at: int, now: int, limit: nat, ids: seq<nat>, rows: Rows)
    requires now <= at <= now + c.lag && rows == Released(s.rows, now, c.stale)
    requires First(DueTimes(rows, s.enabled, now), limit, ids)
    ensures Doable(c, s, Event(at, ClaimDue(now, limit, ids)))
    ensures forall i :: 0 <= i < |ids| ==> ids[i] in rows
    ensures Apply(c, s, Event(at, ClaimDue(now, limit, ids))) == AfterClaim(s, rows, ids, now, at)
  {
    AllClaimed(rows, s.enabled, now, limit, ids);
  }

  lemma ClaimingLeads(b: Batch, c: Config, p: Stage, at: int, now: int, limit: nat, ids: seq<nat>, rows: Rows, q: Stage)
    requires now <= at <= now + c.lag && rows == Released(p.s.rows, now, c.stale) && ids != []
    requires First(DueTimes(rows, p.s.enabled, now), limit, ids) && limit <= b.limit && InTime(b, p.s, p.w, at)
    requires forall i :: 0 <= i < |ids| ==> ids[i] in rows
    requires q == Stage(AfterClaim(p.s, rows, ids, now, at), Joined(p.w, p.s.issued, |ids|, at))
    ensures LeadsTo(b, c, p, Event(at, ClaimDue(now, limit, ids)), q)
  {
    ClaimApplies(c, p.s, at, now, limit, ids, rows);
  }

  // The first `n` rows of a batch whose n-th row can still be in flight at the bound.
  function RowCount(b: Batch): nat
  {
    if b.limit * b.perRow <= b.jobTimeout || b.perRow == 0 then b.limit else b.jobTimeout / b.perRow + 1
  }

  function Queue(n: nat): State
  {
    State(map id | id in Span(0, n) :: QUEUED, {0}, map[], 0, 0, Span(0, n), map id | id in Span(0, n) :: 0)
  }

  function Enqueuing(k: nat): Event { Event(0, Enqueue(0, k, 0)) }

  lemma EnqueueLeads(b: Batch, c: Config, k: nat)
    ensures LeadsTo(b, c, Stage(Queue(k), IDLE), Enqueuing(k), Stage(Queue(k + 1), IDLE))
  {
    var t := Apply(c, Queue(k), Enqueuing(k));
    assert t.rows == Queue(k + 1).rows && t.records == Queue(k + 1).records;
  }

  lemma EnqueueAll(b: Batch, c: Config, link: Link, goal: Goal, n: nat, rest: seq<Event>)
    requires Covers(b, c, link, goal) && goal(Stage(Queue(n), IDLE), rest)
    ensures goal(Stage(Queue(0), IDLE), Stretch(Enqueuing, 0, n) + rest)
  {
    var stages := (k: nat) => Stage(Queue(k), IDLE);
    forall i: nat | i < n ensures link(stages(i), Enqueuing(i), stages(i + 1)) { EnqueueLeads(b, c, i); }
    Chain(link, goal, stages, Enqueuing, 0, n, rest);
  }

  function Ids(n: nat): seq<nat> { seq(n, i => i) }

  const DONE := Delivery(0, Delivered, 1, 1000000, 0, Some(204), None)

  // The first worker has claimed n rows, reading the clock at 0, and recorded k of them.
  function WorkingRows(n: nat, k: nat): Rows
  {
    map id | id in Span(0, n) :: if id < k then DONE else QUEUED.(status := Delivering)
  }

  function Working(b: Batch, c: Config, n: nat, k: nat): State
  {
    State(WorkingRows(n, k), {0}, map r | r in Span(k, n) :: Claim(r, 0, 0, c.lag), n, c.lag + k * b.perRow, Span(0, n),
          map id | id in Span(0, n) :: if id < k then 1 else 0)
  }

  function AtWork(b: Batch, c: Config, n: nat, k: nat): Workers
  {
    Workers(Together(0, n), map[0 := Turn(k, c.lag + k * b.perRow)])
  }

  function WorkStage(b: Batch, c: Config, n: nat, k: nat): Stage
  {
    Stage(Working(b, c, n, k), AtWork(b, c, n, k))
  }

  lemma QueueIsDue(n: nat, stale: nat)
    ensures Released(Queue(n).rows, 0, stale) == Queue(n).rows && First(DueTimes(Queue(n).rows, {0}, 0), n, Ids(n))
  {
    var due := DueTimes(Queue(n).rows, {0}, 0);
    assert forall id :: id in due <==> id in Span(0, n);
    forall id | id in due ensures id in Ids(n) { assert Ids(n)[id] == id; }
  }

  lemma QueueIsMarked(n: nat)
    ensures Claimed(Queue(n).rows, 0, Ids(n)) == WorkingRows(n, 0)
  {
    forall id: nat | id < n ensures id in Ids(n) { assert Ids(n)[id] == id; }
  }

  lemma QueueIsClaimed(b: Batch, c: Config, n: nat)
    ensures AfterClaim(Queue(n), Queue(n).rows, Ids(n), 0, c.lag) == Working(b, c, n, 0)
  {
    QueueIsMarked(n);
    assert Claims(0, Queue(n).rows, Ids(n), 0, c.lag) == Working(b, c, n, 0).inFlight;
    assert Queue(n).records == Working(b, c, n, 0).records;
  }

  function ClaimingAll(c: Config, n: nat): Event { Event(c.lag, ClaimDue(0, n, Ids(n))) }

  lemma BatchIsClaimed(b: Batch, c: Config, n: nat)
    ensures AfterClaim(Queue(n), Queue(n).rows, Ids(n), 0, c.lag) == Working(b, c, n, 0)
    ensures Joined(IDLE, 0, n, c.lag) == AtWork(b, c, n, 0)
  {
    QueueIsClaimed(b, c, n);
    assert map[] + Together(0, n) == Together(0, n);
  }

  lemma ClaimLeads(b: Batch, c: Config, n: nat)
    requires 1 <= n <= b.limit
    ensures LeadsTo(b, c, Stage(Queue(n), IDLE), ClaimingAll(c, n), WorkStage(b, c, n, 0))
  {
    QueueIsDue(n, c.stale);
    BatchIsClaimed(b, c, n);
    ClaimingLeads(b, c, Stage(Queue(n), IDLE), c.lag, 0, n, Ids(n), Queue(n).rows, WorkStage(b, c, n, 0));
  }

  function Recording(b: Batch, c: Config, k: nat): Event
  {
    Event(c.lag + (k + 1) * b.perRow, Record(k, Http(204)))
  }

  lemma RowIsDone(n: nat, k: nat)
    requires k + 1 < n
    ensures Recorded(WorkingRows(n, k), k, Report(Delivered, Some(204), None), 1, 0) == WorkingRows(n, k + 1)
  {
    assert Backoff(1) == 1000000;
  }

  lemma RecordChanges(b: Batch, c: Config, n: nat, k: nat)
    requires k + 1 < n
    ensures AfterRecord(c, Working(b, c, n, k), k, c.lag + (k + 1) * b.perRow, Http(204)) == Working(b, c, n, k + 1)
  {
    RowIsDone(n, k);
    var s, t := Working(b, c, n, k), Working(b, c, n, k + 1);
    assert s.inFlight - {k} == t.inFlight;
    assert s.records[k := 1] == t.records;
  }

  lemma TurnPasses(b: Batch, c: Config, n: nat, k: nat)
    requires k + 1 < n
    ensures Passed(AtWork(b, c, n, k), k, c.lag + (k + 1) * b.perRow) == AtWork(b, c, n, k + 1)
  {
    assert InSpan(k, 0, n);
  }

  lemma NextRowIsInTime(b: Batch, c: Config, n: nat, k: nat)
    requires (k + 1) * b.perRow <= b.jobTimeout
    ensures InTime(b, Working(b, c, n, k), AtWork(b, c, n, k), c.lag + (k + 1) * b.perRow)
  {
    OneMoreRow(k, b.perRow);
  }

  lemma RecordLeads(b: Batch, c: Config, n: nat, k: nat)
    requires k + 1 < n && (k + 1) * b.perRow <= b.jobTimeout
    ensures LeadsTo(b, c, WorkStage(b, c, n, k), Recording(b, c, k), WorkStage(b, c, n, k + 1))
  {
    NextRowIsInTime(b, c, n, k);
    RecordChanges(b, c, n, k);
    TurnPasses(b, c, n, k);
    RecordingLeads(b, c, WorkStage(b, c, n, k), k, c.lag + (k + 1) * b.perRow, Http(204), WorkStage(b, c, n, k + 1));
  }

  lemma RowsFit(b: Batch, n: nat, k: nat)
    requires k + 1 < n && (n - 1) * b.perRow <= b.jobTimeout
    ensures (k + 1) * b.perRow <= b.jobTimeout
  {
    WithinRows(k, n - 1, b.perRow);
    OneMoreRow(k, b.perRow);
  }

  lemma RecordIsLinked(b: Batch, c: Config, link: Link, goal: Goal, n: nat, k: nat)
    requires Covers(b, c, link, goal) && k + 1 < n && (n - 1) * b.perRow <= b.jobTimeout
    ensures link(WorkStage(b, c, n, k), Recording(b, c, k), WorkStage(b, c, n, k + 1))
  {
    RowsFit(b, n, k);
    RecordLeads(b, c, n, k);
  }

  lemma RecordAll(b: Batch, c: Config, link: Link, goal: Goal, n: nat, rest: seq<Event>)
    requires n >= 1 && Covers(b, c, link, goal) && goal(WorkStage(b, c, n, n - 1), rest)
    requires forall k: nat :: k < n - 1 ==> link(WorkStage(b, c, n, k), Recording(b, c, k), WorkStage(b, c, n, k + 1))
    ensures goal(WorkStage(b, c, n, 0), Stretch((k: nat) => Recording(b, c, k), 0, n - 1) + rest)
  {
    Chain(link, goal, (k: nat) => WorkStage(b, c, n, k), (k: nat) => Recording(b, c, k), 0, n - 1, rest);
  }

  // A second worker takes the last row from the first one and finishes it, and then the first one fails.
  function LastMoment(b: Batch, c: Config): int { BatchBound(b) + c.lag }

  predicate Reaches(b: Batch, n: nat)
  {
    n >= 1 && b.limit >= 1 && (n - 1) * b.perRow <= BatchBound(b) <= n * b.perRow
  }

  lemma RowsReachBound(b: Batch)
    requires b.limit >= 1
    ensures RowCount(b) <= b.limit && Reaches(b, RowCount(b))
  {
    var p := b.perRow;
    if b.limit * p <= b.jobTimeout || p == 0 {
      assert (b.limit - 1) * p == b.limit * p - p;
    } else {
      var q := b.jobTimeout / p;
      DivMod(b.jobTimeout, p, q);
      if q >= b.limit { StepsOf(b.limit - 1, q, p); }
      assert (q + 1) * p == q * p + p;
    }
  }

  lemma TakeoverIsInTime(b: Batch, c: Config, n: nat)
    requires Reaches(b, n)
    ensures InTime(b, Working(b, c, n, n - 1), AtWork(b, c, n, n - 1), LastMoment(b, c))
  {
    assert (n - 1) * b.perRow + b.perRow == n * b.perRow;
  }

  function Retaken(at: int, status: Status): Delivery
  {
    Delivery(0, status, 0, at, at, None, Some(StaleClaim))
  }

  lemma LastRowIsDue(n: nat, at: int, stale: nat)
    requires n >= 1 && stale <= at
    ensures var rows := WorkingRows(n, n - 1);
      && Released(rows, at, stale) == rows[n - 1 := Retaken(at, Retry)]
      && First(DueTimes(rows[n - 1 := Retaken(at, Retry)], {0}, at), 1, [n - 1])
  {
    assert DueTimes(WorkingRows(n, n - 1)[n - 1 := Retaken(at, Retry)], {0}, at) == map[n - 1 := at];
  }

  // What matters of the two stages after the takeover: who holds the row, and whose turn it is.
  ghost predicate BothHold(s: State, w: Workers, first: nat, second: nat, id: nat)
  {
    && first != second && first in s.inFlight && second in s.inFlight && id in s.rows
    && s.inFlight[first].delivery == id && s.inFlight[second].delivery == id
    && MyTurn(w, first) && MyTurn(w, second) && w.batch[first] != w.batch[second]
  }

  lemma SecondFinishesFirst(b: Batch, c: Config, s: State, w: Workers, first: nat, second: nat, id: nat, at: int)
    requires BothHold(s, w, first, second, id) && InTime(b, s, w, at)
    ensures var e1, e2 := Event(at, Record(second, Http(204))), Event(at, Record(first, TransportError));
      BrokenFrom(b, c, Stage(s, w), [e1] + ([e2] + []))
  {
    var e1, e2 := Event(at, Record(second, Http(204))), Event(at, Record(first, TransportError));
    var t, v := AfterRecord(c, s, second, at, Http(204)), Passed(w, second, at);
    RecordingLeads(b, c, Stage(s, w), second, at, Http(204), Stage(t, v));
    LateRecordBreaks(b, c, t, v, first, id, at);
    LeadsToBroken(b, c, Stage(s, w), e1, Stage(t, v), [e2] + []);
  }

  lemma LateRecordBreaks(b: Batch, c: Config, s: State, w: Workers, r: nat, id: nat, at: int)
    requires r in s.inFlight && s.inFlight[r].delivery == id && id in s.rows && s.rows[id].status.Delivered?
    requires MyTurn(w, r) && InTime(b, s, w, at)
    ensures BrokenFrom(b, c, Stage(s, w), [Event(at, Record(r, TransportError))] + [])
  {
    var e := Event(at, Record(r, TransportError));
    var q := Stage(AfterRecord(c, s, r, at, TransportError), Passed(w, r, at));
    RecordingLeads(b, c, Stage(s, w), r, at, TransportError, q);
    assert !Apply(c, s, e).rows[id].status.Delivered?;
    assert !KeepsTerminal(c, s, e);
    assert BatchLegal(b, c, Apply(c, s, e), Next(s, w, e), []);
    assert ([e] + [])[1..] == [];
  }

  function Taken(b: Batch, c: Config, n: nat): State
    requires n >= 1
  {
    var at, rows := LastMoment(b, c), WorkingRows(n, n - 1)[n - 1 := Retaken(LastMoment(b, c), Retry)];
    AfterClaim(Working(b, c, n, n - 1), rows, [n - 1], at, at)
  }

  function SecondAtWork(b: Batch, c: Config, n: nat): Workers
    requires n >= 1
  {
    Joined(AtWork(b, c, n, n - 1), n, 1, LastMoment(b, c))
  }

  function TakingOver(b: Batch, c: Config, n: nat): Event
    requires n >= 1
  {
    Event(LastMoment(b, c), ClaimDue(LastMoment(b, c), 1, [n - 1]))
  }

  lemma TakeoverLeads(b: Batch, c: Config, n: nat)
    requires Reaches(b, n) && c.stale <= LastMoment(b, c)
    ensures LeadsTo(b, c, WorkStage(b, c, n, n - 1), TakingOver(b, c, n),
                    Stage(Taken(b, c, n), SecondAtWork(b, c, n)))
  {
    var at := LastMoment(b, c);
    TakeoverIsInTime(b, c, n);
    LastRowIsDue(n, at, c.stale);
    ClaimingLeads(b, c, WorkStage(b, c, n, n - 1), at, at, 1, [n - 1],
                  WorkingRows(n, n - 1)[n - 1 := Retaken(at, Retry)], Stage(Taken(b, c, n), SecondAtWork(b, c, n)));
  }

  lemma TakenIsHeldTwice(b: Batch, c: Config, n: nat)
    requires Reaches(b, n)
    ensures BothHold(Taken(b, c, n), SecondAtWork(b, c, n), n - 1, n, n - 1)
  {
  }

  lemma TakenIsInTime(b: Batch, c: Config, n: nat)
    requires Reaches(b, n)
    ensures InTime(b, Taken(b, c, n), SecondAtWork(b, c, n), LastMoment(b, c))
  {
    TakeoverIsInTime(b, c, n);
  }

  function Finish(b: Batch, c: Config, n: nat): seq<Event>
    requires n >= 1
  {
    var at := LastMoment(b, c);
    [Event(at, Record(n, Http(204)))] + ([Event(at, Record(n - 1, TransportError))] + [])
  }

  lemma TakenIsBroken(b: Batch, c: Config, n: nat)
    requires Reaches(b, n)
    ensures BrokenFrom(b, c, Stage(Taken(b, c, n), SecondAtWork(b, c, n)), Finish(b, c, n))
  {
    TakenIsHeldTwice(b, c, n);
    TakenIsInTime(b, c, n);
    SecondFinishesFirst(b, c, Taken(b, c, n), SecondAtWork(b, c, n), n - 1, n, n - 1, LastMoment(b, c));
  }

  function LongBatch(b: Batch, c: Config, n: nat): seq<Event>
    requires n >= 1
  {
    [ClaimingAll(c, n)]
    + (Stretch((k: nat) => Recording(b, c, k), 0, n - 1) + ([TakingOver(b, c, n)] + Finish(b, c, n)))
  }

  lemma TakeoverIsCovered(b: Batch, c: Config, link: Link, goal: Goal, n: nat)
    requires Covers(b, c, link, goal) && Reaches(b, n) && c.stale <= LastMoment(b, c)
    ensures goal(WorkStage(b, c, n, n - 1), [TakingOver(b, c, n)] + Finish(b, c, n))
  {
    var taken := Stage(Taken(b, c, n), SecondAtWork(b, c, n));
    assert goal(taken, Finish(b, c, n)) by { TakenIsBroken(b, c, n); }
    assert link(WorkStage(b, c, n, n - 1), TakingOver(b, c, n), taken) by { TakeoverLeads(b, c, n); }
  }

  lemma LongBatchIsCovered(b: Batch, c: Config, link: Link, goal: Goal, n: nat)
    requires Covers(b, c, link, goal) && Reaches(b, n) && n <= b.limit && c.stale <= LastMoment(b, c)
    ensures goal(Stage(Queue(n), IDLE), LongBatch(b, c, n))
  {
    TakeoverIsCovered(b, c, link, goal, n);
    forall k: nat | k < n - 1 { RecordIsLinked(b, c, link, goal, n, k); }
    RecordAll(b, c, link, goal, n, [TakingOver(b, c, n)] + Finish(b, c, n));
    assert link(Stage(Queue(n), IDLE), ClaimingAll(c, n), WorkStage(b, c, n, 0)) by { ClaimLeads(b, c, n); }
  }

  lemma SwitchLeads(b: Batch, c: Config)
    ensures LeadsTo(b, c, Stage(EMPTY, IDLE), Event(0, Switch(0, true)), Stage(Queue(0), IDLE))
  {
    var t := Apply(c, EMPTY, Event(0, Switch(0, true)));
    assert t.rows == Queue(0).rows && t.records == Queue(0).records;
  }

  function Overrun(b: Batch, c: Config, n: nat): seq<Event>
    requires n >= 1
  {
    [Event(0, Switch(0, true))] + (Stretch(Enqueuing, 0, n) + LongBatch(b, c, n))
  }

  lemma OverrunIsCovered(b: Batch, c: Config, link: Link, goal: Goal, n: nat)
    requires Covers(b, c, link, goal) && Reaches(b, n) && n <= b.limit && c.stale <= LastMoment(b, c)
    ensures goal(Stage(EMPTY, IDLE), Overrun(b, c, n))
  {
    LongBatchIsCovered(b, c, link, goal, n);
    EnqueueAll(b, c, link, goal, n, LongBatch(b, c, n));
    SwitchLeads(b, c);
  }

  lemma LongBatchOverwrites(b: Batch, c: Config)
    requires b.limit >= 1 && c.stale <= LastMoment(b, c)
    ensures !BatchesKeepTerminal(b, c)
  {
    var n := RowCount(b);
    RowsReachBound(b);
    var link := (p: Stage, e: Event, q: Stage) => LeadsTo(b, c, p, e, q);
    var goal := (p: Stage, more: seq<Event>) => BrokenFrom(b, c, p, more);
    forall p, e, q, more | link(p, e, q) && goal(q, more) ensures goal(p, [e] + more) {
      LeadsToBroken(b, c, p, e, q, more);
    }
    OverrunIsCovered(b, c, link, goal, n);
    assert goal(Stage(EMPTY, IDLE), Overrun(b, c, n));
  }

  // Finished deliveries stay finished in every run of batches exactly when the stale limit exceeds the rows
  // of a batch times the time per row, or the job timeout, by more than the lag.
  lemma TerminalStableIffBatchesEndInTime(b: Batch, maxAttempts: nat, stale: nat, lag: nat)
    requires b.limit >= 1
    ensures BatchesKeepTerminal(b, Config(maxAttempts, stale, BatchBound(b), lag))
      <==> stale > b.limit * b.perRow + lag || stale > b.jobTimeout + lag
  {
    var c := Config(maxAttempts, stale, BatchBound(b), lag);
    if stale > BatchBound(b) + lag {
      forall trace | BatchLegal(b, c, EMPTY, IDLE, trace) ensures StepsKeepTerminal(b, c, EMPTY, IDLE, trace) {
        BatchesKeepTerminalRun(b, c, EMPTY, IDLE, trace);
      }
    } else {
      LongBatchOverwrites(b, c);
    }
  }

  // The default job timeout of 300 s against the limit of 900 s does for batches of any size; a job
  // timeout of an hour does not for 100 rows of 10 s.
  lemma DefaultBatchesEndInTime(limit: nat, perRow: nat, lag: nat)
    requires limit >= 1
    ensures var b := Batch(limit, perRow, 300000000);
      lag < 600000000 ==> BatchesKeepTerminal(b, Config(5, 900000000, BatchBound(b), lag))
    ensures var b := Batch(100, 10000000, 3600000000);
      !BatchesKeepTerminal(b, Config(5, 900000000, BatchBound(b), lag))
  {
    TerminalStableIffBatchesEndInTime(Batch(limit, perRow, 300000000), 5, 900000000, lag);
    TerminalStableIffBatchesEndInTime(Batch(100, 10000000, 3600000000), 5, 900000000, lag);
  }
}
