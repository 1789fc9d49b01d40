// The webhook delivery queue: claims with stale recovery, retry with backoff, terminal states.
// Times are integers in microseconds; ids stand for their rank in text order.
module Webhooks {
  import opened Common
  import opened DueOrder
  import opened Store

  datatype Status = Pending | Retry | Delivering | Delivered | Failed | DeadLetter

  datatype ErrorCode = StaleClaim | NoSecret | Rejected | Transport | HttpError(code: int) | AttemptsExhausted

  datatype Delivery = Delivery(destination: nat, status: Status, attempts: nat, nextAttemptAt: int, updatedAt: int,
                               httpStatus: Option<int>, error: Option<ErrorCode>)

  type Rows = map<nat, Delivery>

  datatype Tables = Tables(deliveries: Rows, enabled: set<nat>)  // enabled: the destinations that are on

  predicate Terminal(d: Delivery)
  {
    d.status.Delivered? || d.status.Failed? || d.status.DeadLetter?
  }

  function Released(m: Rows, now: int, stale: int): Rows
  {
    map id | id in m :: if m[id].status.Delivering? && m[id].updatedAt <= now - stale
                        then m[id].(status := Retry, nextAttemptAt := now, updatedAt := now, error := Some(StaleClaim))
                        else m[id]
  }

  predicate Due(m: Rows, enabled: set<nat>, now: int, id: nat)
  {
    && id in m && (m[id].status.Pending? || m[id].status.Retry?)
    && m[id].nextAttemptAt <= now && m[id].destination in enabled
  }

  function DueTimes(m: Rows, enabled: set<nat>, now: int): map<nat, int>
  {
    map id | id in m && Due(m, enabled, now, id) :: m[id].nextAttemptAt
  }

  function Claimed(m: Rows, now: int, ids: seq<nat>): Rows
  {
    map id | id in m :: if id in ids then m[id].(status := Delivering, updatedAt := now) else m[id]
  }

  function Backoff(attempts: nat): nat
  {
    1000000 * Min(300, Pow2(Max(0, attempts - 1)))
  }

  // Delivering for so long that its worker is given up.
  predicate Stale(d: Delivery, now: int, stale: int)
  {
    d.status.Delivering? && d.updatedAt <= now - stale
  }

  // Waiting for its time, which has come, or stale, and its destination is on.
  predicate Claimable(d: Delivery, enabled: set<nat>, now: int, stale: int)
  {
    && d.destination in enabled
    && (Stale(d, now, stale) || ((d.status.Pending? || d.status.Retry?) && d.nextAttemptAt <= now))
  }

  // What a claim takes: only claimable deliveries, and it leaves one out only behind `limit` others.
  lemma ClaimTakesDue(m: Rows, enabled: set<nat>, now: int, stale: int, limit: nat, ids: seq<nat>)
    requires First(DueTimes(Released(m, now, stale), enabled, now), limit, ids)
    ensures |ids| <= limit && forall i, j :: 0 <= i < j < |ids| ==> ids[i] != ids[j]
    ensures forall id :: id in ids ==> id in m && Claimable(m[id], enabled, now, stale)
    ensures forall id :: id in m && Claimable(m[id], enabled, now, stale) && id !in ids ==> |ids| == limit
    ensures forall id, i :: id in m && Claimable(m[id], enabled, now, stale) && id !in ids && 0 <= i < |ids| ==>
      Comes(m[ids[i]], ids[i], m[id], id, now, stale)
  {
    var released := Released(m, now, stale);
    forall id | id in ids ensures id in DueTimes(released, enabled, now) {
      var i :| 0 <= i < |ids| && ids[i] == id;
      assert ids[i] in DueTimes(released, enabled, now);
    }
  }

  // By next attempt and then by id; a stale delivery is due just now.
  predicate Comes(d: Delivery, id: nat, e: Delivery, other: nat, now: int, stale: int)
  {
    var at := if Stale(d, now, stale) then now else d.nextAttemptAt;
    var otherAt := if Stale(e, now, stale) then now else e.nextAttemptAt;
    at < otherAt || (at == otherAt && id < other)
  }

  // What an attempt writes besides the counter and the times.
  datatype Report = Report(status: Status, httpStatus: Option<int>, error: Option<ErrorCode>)

  function Recorded(m: Rows, id: nat, report: Report, attempts: nat, now: int): Rows
  {
    if id !in m then m else
      m[id := m[id].(status := report.status, attempts := attempts, nextAttemptAt := now + Backoff(attempts),
                     updatedAt := now, httpStatus := report.httpStatus, error := report.error)]
  }

  datatype Outcome = SecretUnavailable | DestinationRejected | TransportError | Http(code: int)

  function Verdict(o: Outcome): Status
  {
    match o
    case SecretUnavailable => Failed
    case DestinationRejected => Failed
    case TransportError => Retry
    case Http(code) =>
      if 200 <= code < 300 then Delivered
      else if code == 408 || code == 429 || code >= 500 then Retry
      else Failed
  }

  function ErrorOf(o: Outcome): Option<ErrorCode>
  {
    match o
    case SecretUnavailable => Some(NoSecret)
    case DestinationRejected => Some(Rejected)
    case TransportError => Some(Transport)
    case Http(code) => if Verdict(o).Delivered? then None else Some(HttpError(code))
  }

  function ReportOf(o: Outcome, attempts: nat, maxAttempts: nat): Report
  {
    var httpStatus := if o.Http? then Some(o.code) else None;
    if Verdict(o).Retry? && attempts >= maxAttempts then Report(DeadLetter, httpStatus, Some(AttemptsExhausted))
    else Report(Verdict(o), httpStatus, ErrorOf(o))
  }

  // A failure worth another attempt.
  predicate Retryable(o: Outcome)
  {
    o.TransportError? || (o.Http? && (o.code == 408 || o.code == 429 || o.code >= 500))
  }

  // The row after one more attempt.
  function Attempted(d: Delivery, o: Outcome, maxAttempts: nat, now: int): Delivery
  {
    var report := ReportOf(o, d.attempts + 1, maxAttempts);
    d.(status := report.status, attempts := d.attempts + 1, nextAttemptAt := now + Backoff(d.attempts + 1),
       updatedAt := now, httpStatus := report.httpStatus, error := report.error)
  }

  function AttemptedAll(m: Rows, ids: seq<nat>, outcome: nat -> Outcome, maxAttempts: nat, now: int): Rows
  {
    map id | id in m :: if id in ids then Attempted(m[id], outcome(id), maxAttempts, now) else m[id]
  }

  class WebhookService {
    const store: RuntimeStore<Tables>
    const maxAttempts: nat
    const stale: int

    // stale_claim_seconds is raised to at least one second.
    constructor (store: RuntimeStore<Tables>, maxAttempts: nat, stale: int)
      ensures this.store == store && this.maxAttempts == maxAttempts && this.stale == Max(1000000, stale)
    {
      this.store, this.maxAttempts, this.stale := store, maxAttempts, Max(1000000, stale);
    }

    method ClaimDue(now: int, limit: nat) returns (ok: bool, ids: seq<nat>)
      requires store.saved == None
      modifies store
      ensures store.saved == None && store.connected == old(store.connected) && ok == store.connected
      ensures !ok ==> store.tables == old(store.tables)
      ensures ok ==> var released := Released(old(store.tables).deliveries, now, stale);
        && First(DueTimes(released, store.tables.enabled, now), limit, ids)
        && store.tables == old(store.tables).(deliveries := Claimed(released, now, ids))
      ensures ok ==> var before, after := old(store.tables).deliveries, store.tables.deliveries;
        && after.Keys == before.Keys && (forall id :: id in ids ==> id in before)
        && (forall id :: id in before && id !in ids && !Stale(before[id], now, stale) ==> after[id] == before[id])
        && (forall id :: id in before && id !in ids && Stale(before[id], now, stale) ==>
              after[id] == before[id].(status := Retry, nextAttemptAt := now, updatedAt := now,
                                       error := Some(StaleClaim)))
        && (forall id :: id in ids && !Stale(before[id], now, stale) ==>
              after[id] == before[id].(status := Delivering, updatedAt := now))
        && (forall id :: id in ids && Stale(before[id], now, stale) ==>
              after[id] == before[id].(nextAttemptAt := now, updatedAt := now, error := Some(StaleClaim)))
    {
      ids := [];
      ok := store.Begin();
      if !ok { return; }
      var enabled := store.tables.enabled;
      var rows := Released(store.tables.deliveries, now, stale);
      ghost var released := rows;
      ids := SelectFirst(DueTimes(rows, enabled, now), limit);
      var i := 0;
      while i < |ids|
        invariant 0 <= i <= |ids|
        invariant rows == Claimed(released, now, ids[..i])
      {
        rows := rows[ids[i] := rows[ids[i]].(status := Delivering, updatedAt := now)];
        assert ids[..i + 1] == ids[..i] + [ids[i]];
        i := i + 1;
      }
      assert ids[..i] == ids;
      store.tables := store.tables.(deliveries := rows);
      store.Commit();
    }

    method RecordResult(id: nat, report: Report, attempts: nat, now: int) returns (ok: bool)
      requires store.saved == None
      modifies store
      ensures store.saved == None && store.connected == old(store.connected) && ok == store.connected
      ensures store.tables ==
        if ok then old(store.tables).(deliveries := Recorded(old(store.tables).deliveries, id, report, attempts, now))
        else old(store.tables)
      ensures store.tables.enabled == old(store.tables).enabled
      ensures ok && id !in old(store.tables).deliveries ==> store.tables.deliveries == old(store.tables).deliveries
      ensures ok && id in old(store.tables).deliveries ==> var before := old(store.tables).deliveries;
        var row := Delivery(before[id].destination, report.status, attempts,
                            now + 1000000 * Min(300, Pow2(Max(0, attempts - 1))), now, report.httpStatus, report.error);
        store.tables.deliveries == before[id := row]
    {
      ok := store.Begin();
      if !ok { return; }
      var rows := store.tables.deliveries;
      if id in rows {
        rows := rows[id := rows[id].(status := report.status, attempts := attempts,
                                     nextAttemptAt := now + Backoff(attempts), updatedAt := now,
                                     httpStatus := report.httpStatus, error := report.error)];
      }
      store.tables := store.tables.(deliveries := rows);
      store.Commit();
    }

    // One attempt, from its outcome to the stored row and the reported status.
    method Deliver(id: nat, previousAttempts: nat, now: int, outcome: Outcome) returns (ok: bool, reported: Status)
      requires store.saved == None
      modifies store
      ensures store.saved == None && store.connected == old(store.connected) && ok == store.connected
      ensures store.tables ==
        if ok then old(store.tables).(deliveries := Recorded(old(store.tables).deliveries, id,
                     ReportOf(outcome, previousAttempts + 1, maxAttempts), previousAttempts + 1, now))
        else old(store.tables)
      ensures ok ==> (reported.Delivered? <==> outcome.Http? && 200 <= outcome.code < 300)
      ensures ok ==> (reported.Retry? <==> Retryable(outcome) && previousAttempts + 1 < maxAttempts)
      ensures ok && id in old(store.tables).deliveries ==>
        var d := store.tables.deliveries[id];
        && (d.status.DeadLetter? <==> Retryable(outcome) && previousAttempts + 1 >= maxAttempts)
        && (d.status.DeadLetter? <==> d.error == Some(AttemptsExhausted)) && (d.error.None? <==> d.status.Delivered?)
        && (reported == d.status || d.status.DeadLetter?)
        && d.attempts == previousAttempts + 1 && d.updatedAt == now
        && d.nextAttemptAt == now + 1000000 * Min(300, Pow2(previousAttempts))
        && d.httpStatus == (if outcome.Http? then Some(outcome.code) else None)
      ensures ok && id in old(store.tables).deliveries ==>
        var error := store.tables.deliveries[id].error;
        && (outcome.SecretUnavailable? ==> error == Some(NoSecret))
        && (outcome.DestinationRejected? ==> error == Some(Rejected))
        && (outcome.TransportError? && reported.Retry? ==> error == Some(Transport))
        && (outcome.Http? && !reported.Delivered? && error != Some(AttemptsExhausted) ==>
              error == Some(HttpError(outcome.code)))
      ensures ok ==> reported.Delivered? || reported.Retry? || reported.Failed?
    {
      var attempts := previousAttempts + 1;
      if outcome.SecretUnavailable? {
        ok := RecordResult(id, Report(Failed, None, Some(NoSecret)), attempts, now);
        return ok, Failed;
      }
      var status, error := Verdict(outcome), ErrorOf(outcome);
      var httpStatus := if outcome.Http? then Some(outcome.code) else None;
      var databaseStatus := status;
      if status.Retry? && attempts >= maxAttempts {
        status, databaseStatus, error := Failed, DeadLetter, Some(AttemptsExhausted);
      }
      ok := RecordResult(id, Report(databaseStatus, httpStatus, error), attempts, now);
      reported := status;
    }

    // deliver_due, when nothing else writes in between: claim, then one attempt for each row in turn. An
    // exception or a cancellation ends it after `stopAfter` rows, and the others stay claimed.
    method DeliverDue(now: int, limit: int, outcome: nat -> Outcome, stopAfter: nat) returns (ok: bool, ids: seq<nat>)
      requires store.saved == None
      modifies store
      ensures store.saved == None && store.connected == old(store.connected) && ok == store.connected
      ensures !ok ==> store.tables == old(store.tables)
      ensures ok ==> var released := Released(old(store.tables).deliveries, now, stale);
        && First(DueTimes(released, store.tables.enabled, now), Max(1, Min(limit, 1000)), ids)
        && store.tables == old(store.tables).(deliveries :=
             PartlyAttempted(released, ids, Min(stopAfter, |ids|), outcome, maxAttempts, now))
    {
      ok, ids := ClaimDue(now, Max(1, Min(limit, 1000)));
      if !ok { return; }
      ghost var released := Released(old(store.tables).deliveries, now, stale);
      AllClaimed(released, store.tables.enabled, now, Max(1, Min(limit, 1000)), ids);
      DeliverEach(ids, now, outcome, Min(stopAfter, |ids|), released);
    }

    // The loop over the first `n` claimed rows.
    method DeliverEach(ids: seq<nat>, now: int, outcome: nat -> Outcome, n: nat, ghost released: Rows)
      requires store.saved == None && store.connected && n <= |ids|
      requires Distinct(ids) && forall i :: 0 <= i < |ids| ==> ids[i] in released
      requires store.tables.deliveries == Claimed(released, now, ids)
      modifies store
      ensures store.saved == None && store.connected
      ensures store.tables ==
        old(store.tables).(deliveries := PartlyAttempted(released, ids, n, outcome, maxAttempts, now))
    {
      var previous := PreviousAttempts(store.tables.deliveries, ids);
      BeforeAndAfter(released, ids, outcome, maxAttempts, now);
      var i := 0;
      while i < n
        invariant 0 <= i <= n && store.saved == None && store.connected
        invariant store.tables ==
          old(store.tables).(deliveries := PartlyAttempted(released, ids, i, outcome, maxAttempts, now))
      {
        var sent, reported := Deliver(ids[i], previous[ids[i]], now, outcome(ids[i]));
        OneMoreAttempt(released, ids, i, outcome, maxAttempts, now);
        i := i + 1;
      }
    }
  }

  function PreviousAttempts(m: Rows, ids: seq<nat>): map<nat, nat>
  {
    map id | id in m && id in ids :: m[id].attempts
  }

  // The first `n` of the claimed rows have had their attempt.
  function PartlyAttempted(m: Rows, ids: seq<nat>, n: nat, outcome: nat -> Outcome, maxAttempts: nat, now: int): Rows
    requires n <= |ids|
  {
    AttemptedAll(Claimed(m, now, ids), ids[..n], outcome, maxAttempts, now)
  }

  lemma BeforeAndAfter(m: Rows, ids: seq<nat>, outcome: nat -> Outcome, maxAttempts: nat, now: int)
    ensures PartlyAttempted(m, ids, 0, outcome, maxAttempts, now) == Claimed(m, now, ids)
    ensures PartlyAttempted(m, ids, |ids|, outcome, maxAttempts, now) == AttemptedAll(m, ids, outcome, maxAttempts, now)
  {
    assert ids[..|ids|] == ids;
  }

  // The rows after a pass that got through the first n of those it claimed.
  lemma PassLeaves(m: Rows, ids: seq<nat>, n: nat, outcome: nat -> Outcome, maxAttempts: nat, now: int, id: nat)
    requires n <= |ids| && Distinct(ids) && id in m
    ensures var t := PartlyAttempted(m, ids, n, outcome, maxAttempts, now);
      && t.Keys == m.Keys
      && (id !in ids ==> t[id] == m[id])
      && (id in ids[n..] ==> t[id] == m[id].(status := Delivering, updatedAt := now))
      && (id in ids[..n] ==> t[id].attempts == m[id].attempts + 1 && t[id].destination == m[id].destination)
    ensures var d, o := PartlyAttempted(m, ids, n, outcome, maxAttempts, now)[id], outcome(id);
      id in ids[..n] ==>
        && (d.status.Delivered? <==> o.Http? && 200 <= o.code < 300)
        && (d.status.Retry? <==> Retryable(o) && m[id].attempts + 1 < maxAttempts)
        && (d.status.DeadLetter? <==> Retryable(o) && m[id].attempts + 1 >= maxAttempts)
        && d.nextAttemptAt == now + 1000000 * Min(300, Pow2(m[id].attempts)) && d.updatedAt == now
  {
    forall k, l | 0 <= k < n <= l < |ids| ensures ids[k] != ids[l] {}
  }

  lemma AllClaimed(m: Rows, enabled: set<nat>, now: int, limit: nat, ids: seq<nat>)
    requires First(DueTimes(m, enabled, now), limit, ids)
    ensures forall i :: 0 <= i < |ids| ==> ids[i] in m
  {
    forall i | 0 <= i < |ids| ensures ids[i] in m { assert ids[i] in DueTimes(m, enabled, now); }
  }

  lemma OneMoreAttempt(m: Rows, ids: seq<nat>, i: nat, outcome: nat -> Outcome, maxAttempts: nat, now: int)
    requires i < |ids| && Distinct(ids) && ids[i] in m
    ensures var before, id := PartlyAttempted(m, ids, i, outcome, maxAttempts, now), ids[i];
      var attempts := m[id].attempts + 1;
      PartlyAttempted(m, ids, i + 1, outcome, maxAttempts, now)
      == Recorded(before, id, ReportOf(outcome(id), attempts, maxAttempts), attempts, now)
  {
    assert ids[..i + 1] == ids[..i] + [ids[i]];
    assert ids[i] !in ids[..i];
  }

  // ---- all interleavings ----

  datatype Config = Config(maxAttempts: nat, stale: nat, bound: nat, lag: nat)

  datatype Claim = Claim(delivery: nat, previous: nat, now: int, claimedAt: int)

  // `known` holds every delivery id ever used, `records` how often an attempt was recorded for each.
  datatype State = State(rows: Rows, enabled: set<nat>, inFlight: map<nat, Claim>, issued: nat, clock: int,
                         known: set<nat>, records: map<nat, nat>)

  datatype Step =
    | ClaimDue(now: int, limit: nat, ids: seq<nat>)
    | Record(claim: nat, outcome: Outcome)
    | Abandon(claim: nat)                           // the process died, or the transaction failed
    | Enqueue(now: int, id: nat, destination: nat)  // ingestion
    | Switch(destination: nat, on: bool)
    | Remove(gone: set<nat>)                        // retention, or a deleted destination or event

  datatype Event = Event(at: int, step: Step)

  const EMPTY := State(map[], {}, map[], 0, 0, {}, map[])

  predicate Timely(c: Config, s: State, at: int)
  {
    s.clock <= at && forall r :: r in s.inFlight ==> at <= s.inFlight[r].claimedAt + c.bound
  }

  // Apart from how long claims are held.
  ghost predicate Doable(c: Config, s: State, e: Event)
  {
    match e.step
    case ClaimDue(now, limit, ids) =>
      now <= e.at <= now + c.lag && First(DueTimes(Released(s.rows, now, c.stale), s.enabled, now), limit, ids)
    case Record(r, _) => r in s.inFlight
    case Abandon(r) => r in s.inFlight
    case Enqueue(_, id, _) => id !in s.known
    case Switch(_, _) => true
    case Remove(_) => true
  }

  ghost predicate Enabled(c: Config, s: State, e: Event)
  {
    Timely(c, s, e.at) && Doable(c, s, e)
  }

  function Claims(first: nat, rows: Rows, ids: seq<nat>, now: int, at: int): (m: map<nat, Claim>)
    requires forall i :: 0 <= i < |ids| ==> ids[i] in rows
    ensures forall r :: r in m <==> first <= r < first + |ids|
    ensures forall r :: r in m ==> m[r] == Claim(ids[r - first], rows[ids[r - first]].attempts, now, at)
  {
    if ids == [] then map[]
    else var last := |ids| - 1;
      Claims(first, rows, ids[..last], now, at)[first + last := Claim(ids[last], rows[ids[last]].attempts, now, at)]
  }

  function AfterClaim(s: State, rows: Rows, ids: seq<nat>, now: int, at: int): State
    requires forall i :: 0 <= i < |ids| ==> ids[i] in rows
  {
    s.(clock := at, rows := Claimed(rows, now, ids), issued := s.issued + |ids|,
       inFlight := s.inFlight + Claims(s.issued, rows, ids, now, at))
  }

  ghost function Apply(c: Config, s: State, e: Event): State
    requires Doable(c, s, e)
  {
    var s := s.(clock := e.at);
    match e.step
    case ClaimDue(now, limit, ids) =>
      var rows := Released(s.rows, now, c.stale);
      assert forall i :: 0 <= i < |ids| ==> ids[i] in DueTimes(rows, s.enabled, now);
      AfterClaim(s, rows, ids, now, e.at)
    case Record(r, outcome) =>
      var x := s.inFlight[r];
      s.(rows := Recorded(s.rows, x.delivery, ReportOf(outcome, x.previous + 1, c.maxAttempts),
                          x.previous + 1, x.now),
         inFlight := s.inFlight - {r},
         records := s.records[x.delivery := (if x.delivery in s.records then s.records[x.delivery] else 0) + 1])
    case Abandon(r) => s.(inFlight := s.inFlight - {r})
    case Enqueue(now, id, destination) =>
      s.(rows := s.rows[id := Delivery(destination, Pending, 0, now, now, None, None)], known := s.known + {id},
         records := s.records[id := 0])
    case Switch(destination, on) =>
      s.(enabled := if on then s.enabled + {destination} else s.enabled - {destination})
    case Remove(gone) => s.(rows := s.rows - gone)
  }

  ghost predicate Legal(c: Config, s: State, trace: seq<Event>)
    decreases |trace|
  {
    trace == [] || (Enabled(c, s, trace[0]) && Legal(c, Apply(c, s, trace[0]), trace[1..]))
  }

  ghost function Run(c: Config, s: State, trace: seq<Event>): State
    requires Legal(c, s, trace)
    decreases |trace|
  {
    if trace == [] then s else Run(c, Apply(c, s, trace[0]), trace[1..])
  }

  // ---- what holds in every run, stale claims that race included ----

  predicate WithinLimit(c: Config, d: Delivery)
  {
    if Terminal(d) then 1 <= d.attempts <= c.maxAttempts && (d.status.DeadLetter? ==> d.attempts == c.maxAttempts)
    else d.attempts < c.maxAttempts
  }

  ghost predicate AllWithinLimit(c: Config, s: State)
  {
    && (forall id :: id in s.rows ==> WithinLimit(c, s.rows[id]))
    && (forall r :: r in s.inFlight ==> s.inFlight[r].previous < c.maxAttempts)
  }

  lemma ClaimedRow(m: Rows, enabled: set<nat>, now: int, limit: nat, ids: seq<nat>, i: nat)
    requires First(DueTimes(m, enabled, now), limit, ids) && i < |ids|
    ensures Due(m, enabled, now, ids[i])
    ensures Claimed(m, now, ids)[ids[i]] == m[ids[i]].(status := Delivering, updatedAt := now)
  {
    assert ids[i] in DueTimes(m, enabled, now);
  }

  lemma LimitClaim(c: Config, s: State, rows: Rows, enabled: set<nat>, ids: seq<nat>, now: int, at: int)
    requires forall id :: id in rows ==> WithinLimit(c, rows[id])
    requires forall r :: r in s.inFlight ==> s.inFlight[r].previous < c.maxAttempts
    requires forall i :: 0 <= i < |ids| ==> ids[i] in rows && Due(rows, enabled, now, ids[i])
    ensures AllWithinLimit(c, AfterClaim(s, rows, ids, now, at))
  {
    var t := AfterClaim(s, rows, ids, now, at);
    forall id | id in t.rows ensures WithinLimit(c, t.rows[id]) {
      assert WithinLimit(c, rows[id]);
    }
    forall r | r in t.inFlight ensures t.inFlight[r].previous < c.maxAttempts {
      if s.issued <= r < s.issued + |ids| {
        assert WithinLimit(c, rows[ids[r - s.issued]]);
      }
    }
  }

  lemma LimitStep(c: Config, s: State, e: Event)
    requires c.maxAttempts >= 1 && AllWithinLimit(c, s) && Enabled(c, s, e)
    ensures AllWithinLimit(c, Apply(c, s, e))
  {
    if e.step.ClaimDue? {
      var now, ids := e.step.now, e.step.ids;
      var rows := Released(s.rows, now, c.stale);
      forall i | 0 <= i < |ids| ensures ids[i] in rows && Due(rows, s.enabled, now, ids[i]) {
        ClaimedRow(rows, s.enabled, now, e.step.limit, ids, i);
      }
      LimitClaim(c, s.(clock := e.at), rows, s.enabled, ids, now, e.at);
    }
  }

  // Unfinished rows have fewer than max_attempts attempts, finished rows between one and that many,
  // dead letters exactly that many: however long a claim outlives its stale limit.
  lemma {:induction false} AttemptsStayWithinLimit(c: Config, s: State, trace: seq<Event>)
    requires c.maxAttempts >= 1 && AllWithinLimit(c, s) && Legal(c, s, trace)
    ensures AllWithinLimit(c, Run(c, s, trace))
    decreases |trace|
  {
    if trace != [] {
      LimitStep(c, s, trace[0]);
      AttemptsStayWithinLimit(c, Apply(c, s, trace[0]), trace[1..]);
    }
  }

  // ---- what holds when no claim outlives the stale limit ----

  ghost predicate Holds(c: Config, s: State, r: nat)
    requires r in s.inFlight
  {
    var x := s.inFlight[r];
    && r < s.issued && x.now <= x.claimedAt <= x.now + c.lag && x.claimedAt <= s.clock && x.delivery in s.known
    && (x.delivery in s.rows ==>
          && s.rows[x.delivery].status.Delivering? && s.rows[x.delivery].attempts == x.previous
          && s.rows[x.delivery].updatedAt == x.now)
  }

  ghost predicate Exclusive(s: State)
  {
    forall r, q :: r in s.inFlight && q in s.inFlight && r != q ==> s.inFlight[r].delivery != s.inFlight[q].delivery
  }

  ghost predicate Inv(c: Config, s: State)
  {
    && Exclusive(s) && s.rows.Keys <= s.known
    && (forall r :: r in s.inFlight ==> Holds(c, s, r))
    && (forall id :: id in s.rows ==> id in s.records && s.records[id] == s.rows[id].attempts)
  }

  // A claim passes over the deliveries that are in flight.
  lemma HeldIsNotClaimed(c: Config, s: State, e: Event, r: nat)
    requires c.stale > c.bound + c.lag && Inv(c, s) && Enabled(c, s, e) && e.step.ClaimDue? && r in s.inFlight
    ensures var id := s.inFlight[r].delivery; var t := Apply(c, s, e);
      id !in e.step.ids && (id in s.rows <==> id in t.rows) && (id in s.rows ==> t.rows[id] == s.rows[id])
  {
    var id := s.inFlight[r].delivery;
    var rows := Released(s.rows, e.step.now, c.stale);
    assert Holds(c, s, r);
    assert forall i :: 0 <= i < |e.step.ids| ==> e.step.ids[i] in DueTimes(rows, s.enabled, e.step.now);
  }

  lemma NewClaimHolds(c: Config, s: State, rows: Rows, ids: seq<nat>, now: int, at: int, r: nat)
    requires forall i :: 0 <= i < |ids| ==> ids[i] in rows && ids[i] in s.known
    requires now <= at <= now + c.lag && s.issued <= r < s.issued + |ids|
    ensures var t := AfterClaim(s, rows, ids, now, at);
      r in t.inFlight && t.inFlight[r].delivery == ids[r - s.issued] && Holds(c, t, r)
  {
    var t := AfterClaim(s, rows, ids, now, at);
    var id := ids[r - s.issued];
    assert t.inFlight[r] == Claim(id, rows[id].attempts, now, at);
    assert t.rows[id] == rows[id].(status := Delivering, updatedAt := now);
  }

  lemma OldClaimHolds(c: Config, s: State, e: Event, r: nat)
    requires c.stale > c.bound + c.lag && Inv(c, s) && Enabled(c, s, e) && e.step.ClaimDue? && r in s.inFlight
    ensures var t := Apply(c, s, e);
      r in t.inFlight && t.inFlight[r] == s.inFlight[r] && s.inFlight[r].delivery !in e.step.ids && Holds(c, t, r)
  {
    assert Holds(c, s, r);
    HeldIsNotClaimed(c, s, e, r);
  }

  lemma NewClaimOfStepHolds(c: Config, s: State, e: Event, r: nat)
    requires s.rows.Keys <= s.known && Enabled(c, s, e) && e.step.ClaimDue? && s.issued <= r < s.issued + |e.step.ids|
    ensures var t := Apply(c, s, e);
      r in t.inFlight && t.inFlight[r].delivery == e.step.ids[r - s.issued] && Holds(c, t, r)
  {
    var now, ids := e.step.now, e.step.ids;
    var rows := Released(s.rows, now, c.stale);
    forall i | 0 <= i < |ids| ensures ids[i] in rows { ClaimedRow(rows, s.enabled, now, e.step.limit, ids, i); }
    NewClaimHolds(c, s.(clock := e.at), rows, ids, now, e.at, r);
  }

  lemma InvClaim(c: Config, s: State, e: Event)
    requires c.stale > c.bound + c.lag && Inv(c, s) && Enabled(c, s, e) && e.step.ClaimDue?
    ensures Inv(c, Apply(c, s, e))
  {
    var t := Apply(c, s, e);
    forall r | r in t.inFlight
      ensures r in s.inFlight || s.issued <= r < s.issued + |e.step.ids|
      ensures Holds(c, t, r)
    {
      if r in s.inFlight { OldClaimHolds(c, s, e, r); } else { NewClaimOfStepHolds(c, s, e, r); }
    }
    forall r, q | r in t.inFlight && q in t.inFlight && r < q ensures t.inFlight[r].delivery != t.inFlight[q].delivery {
      if r in s.inFlight { OldClaimHolds(c, s, e, r); } else { NewClaimOfStepHolds(c, s, e, r); }
      if q in s.inFlight { OldClaimHolds(c, s, e, q); } else { NewClaimOfStepHolds(c, s, e, q); }
    }
  }

  lemma InvStep(c: Config, s: State, e: Event)
    requires c.stale > c.bound + c.lag && Inv(c, s) && Enabled(c, s, e)
    ensures Inv(c, Apply(c, s, e))
  {
    if e.step.ClaimDue? {
      InvClaim(c, s, e);
    } else {
      var t := Apply(c, s, e);
      forall r | r in t.inFlight ensures Holds(c, t, r) { assert Holds(c, s, r); }
      if e.step.Record? { assert Holds(c, s, e.step.claim); }
    }
  }

  lemma {:induction false} InvRun(c: Config, s: State, trace: seq<Event>)
    requires c.stale > c.bound + c.lag && Inv(c, s) && Legal(c, s, trace)
    ensures Inv(c, Run(c, s, trace))
    decreases |trace|
  {
    if trace != [] {
      InvStep(c, s, trace[0]);
      InvRun(c, Apply(c, s, trace[0]), trace[1..]);
    }
  }

  // A finished row that this step leaves in the table is unchanged by it.
  ghost predicate KeepsTerminal(c: Config, s: State, e: Event)
    requires Doable(c, s, e)
  {
    var t := Apply(c, s, e);
    forall id :: id in s.rows && Terminal(s.rows[id]) && id in t.rows ==> t.rows[id] == s.rows[id]
  }

  lemma TerminalStep(c: Config, s: State, e: Event)
    requires Inv(c, s) && Enabled(c, s, e)
    ensures KeepsTerminal(c, s, e)
  {
    if e.step.Record? { assert Holds(c, s, e.step.claim); }
    if e.step.ClaimDue? {
      var rows := Released(s.rows, e.step.now, c.stale);
      forall i | 0 <= i < |e.step.ids| ensures Due(rows, s.enabled, e.step.now, e.step.ids[i]) {
        assert e.step.ids[i] in DueTimes(rows, s.enabled, e.step.now);
      }
    }
  }

  // A delivery is recorded as many times as its row says, at most max_attempts times, and is finished
  // when it has been.
  lemma EndsWithinMaxAttempts(c: Config, trace: seq<Event>, id: nat)
    requires c.maxAttempts >= 1 && c.stale > c.bound + c.lag && Legal(c, EMPTY, trace)
    requires id in Run(c, EMPTY, trace).rows
    ensures var s := Run(c, EMPTY, trace);
      && id in s.records && s.records[id] == s.rows[id].attempts <= c.maxAttempts
      && (s.records[id] == c.maxAttempts ==> Terminal(s.rows[id]))
  {
    InvRun(c, EMPTY, trace);
    AttemptsStayWithinLimit(c, EMPTY, trace);
    assert WithinLimit(c, Run(c, EMPTY, trace).rows[id]);
  }

  // ---- a destination that is off gets nothing ----

  lemma {:induction false} StaysOff(c: Config, s: State, trace: seq<Event>, destination: nat)
    requires Legal(c, s, trace) && destination !in s.enabled
    requires forall i :: 0 <= i < |trace| ==> trace[i].step != Switch(destination, true)
    ensures destination !in Run(c, s, trace).enabled
    decreases |trace|
  {
    if trace != [] { StaysOff(c, Apply(c, s, trace[0]), trace[1..], destination); }
  }

  // Once a destination is switched off, no delivery to it is claimed until it is switched on again.
  lemma OffIsNotClaimed(c: Config, before: seq<Event>, at: int, after: seq<Event>, destination: nat, claim: Event)
    requires var off := Event(at, Switch(destination, false));
      && Legal(c, EMPTY, before) && Enabled(c, Run(c, EMPTY, before), off)
      && Legal(c, Apply(c, Run(c, EMPTY, before), off), after)
      && Enabled(c, Run(c, Apply(c, Run(c, EMPTY, before), off), after), claim) && claim.step.ClaimDue?
    requires forall i :: 0 <= i < |after| ==> after[i].step != Switch(destination, true)
    ensures var s := Run(c, Apply(c, Run(c, EMPTY, before), Event(at, Switch(destination, false))), after);
      forall id :: id in claim.step.ids ==> id in s.rows && s.rows[id].destination != destination
  {
    var s := Apply(c, Run(c, EMPTY, before), Event(at, Switch(destination, false)));
    StaysOff(c, s, after, destination);
    var t := Run(c, s, after);
    ClaimTakesDue(t.rows, t.enabled, claim.step.now, c.stale, claim.step.limit, claim.step.ids);
  }

  // ---- what is over stays over ----

  // The row is gone and its id is not used again; the claim has ended and its number is not used again.
  ghost predicate Gone(s: State, id: nat)
  {
    id in s.known && id !in s.rows
  }

  ghost predicate Over(s: State, r: nat)
  {
    r < s.issued && r !in s.inFlight
  }

  ghost predicate ClaimsAreIssued(s: State)
  {
    s.rows.Keys <= s.known && forall r :: r in s.inFlight ==> r < s.issued
  }

  lemma {:induction false} IssuedRun(c: Config, s: State, trace: seq<Event>)
    requires ClaimsAreIssued(s) && Legal(c, s, trace)
    ensures ClaimsAreIssued(Run(c, s, trace))
    decreases |trace|
  {
    if trace != [] {
      assert ClaimsAreIssued(Apply(c, s, trace[0]));
      IssuedRun(c, Apply(c, s, trace[0]), trace[1..]);
    }
  }

  lemma {:induction false} GoneRun(c: Config, s: State, trace: seq<Event>, id: nat)
    requires Legal(c, s, trace) && Gone(s, id)
    ensures Gone(Run(c, s, trace), id)
    decreases |trace|
  {
    if trace != [] {
      assert Gone(Apply(c, s, trace[0]), id);
      GoneRun(c, Apply(c, s, trace[0]), trace[1..], id);
    }
  }

  lemma {:induction false} OverRun(c: Config, s: State, trace: seq<Event>, r: nat)
    requires Legal(c, s, trace) && Over(s, r)
    ensures Over(Run(c, s, trace), r)
    decreases |trace|
  {
    if trace != [] {
      assert Over(Apply(c, s, trace[0]), r);
      OverRun(c, Apply(c, s, trace[0]), trace[1..], r);
    }
  }

  // A delivery that was removed is not claimed again.
  lemma RemovedIsNotClaimed(c: Config, before: seq<Event>, at: int, gone: set<nat>, after: seq<Event>, claim: Event)
    requires Legal(c, EMPTY, before) && Enabled(c, Run(c, EMPTY, before), Event(at, Remove(gone)))
    requires Legal(c, Apply(c, Run(c, EMPTY, before), Event(at, Remove(gone))), after)
    requires Enabled(c, Run(c, Apply(c, Run(c, EMPTY, before), Event(at, Remove(gone))), after), claim)
    requires claim.step.ClaimDue? && gone <= Run(c, EMPTY, before).known
    ensures forall id :: id in claim.step.ids ==> id !in gone
  {
    var s := Apply(c, Run(c, EMPTY, before), Event(at, Remove(gone)));
    var t := Run(c, s, after);
    ClaimTakesDue(t.rows, t.enabled, claim.step.now, c.stale, claim.step.limit, claim.step.ids);
    forall id | id in gone ensures Gone(t, id) { GoneRun(c, s, after, id); }
  }

  // A claim that was recorded or abandoned is not recorded again.
  lemma EndedIsNotRecorded(c: Config, before: seq<Event>, end: Event, after: seq<Event>, again: Event)
    requires end.step.Record? || end.step.Abandon?
    requires Legal(c, EMPTY, before) && Enabled(c, Run(c, EMPTY, before), end)
    requires Legal(c, Apply(c, Run(c, EMPTY, before), end), after)
    requires Enabled(c, Run(c, Apply(c, Run(c, EMPTY, before), end), after), again)
    ensures again.step.Record? ==> again.step.claim != end.step.claim
  {
    IssuedRun(c, EMPTY, before);
    OverRun(c, Apply(c, Run(c, EMPTY, before), end), after, end.step.claim);
  }

  // ---- terminal rows are stable exactly when no claim can outlive the stale limit ----

  ghost predicate TerminalRowsAreStable(c: Config)
  {
    forall trace, e :: Legal(c, EMPTY, trace) && Enabled(c, Run(c, EMPTY, trace), e)
      ==> KeepsTerminal(c, Run(c, EMPTY, trace), e)
  }

  const QUEUED := Delivery(0, Pending, 0, 0, 0, None, None)

  function Opened(): State
  {
    State(map[0 := QUEUED], {0}, map[], 0, 0, {0}, map[0 := 0])
  }

  function ClaimedOnce(c: Config): State
  {
    State(map[0 := QUEUED.(status := Delivering)], {0}, map[0 := Claim(0, 0, 0, c.lag)], 1, c.lag, {0}, map[0 := 0])
  }

  function ClaimedTwice(c: Config): State
  {
    State(map[0 := Delivery(0, Delivering, 0, c.stale, c.stale, None, Some(StaleClaim))], {0},
          map[0 := Claim(0, 0, 0, c.lag), 1 := Claim(0, 0, c.stale, Max(c.stale, c.lag))],
          2, Max(c.stale, c.lag), {0}, map[0 := 0])
  }

  function Race(c: Config): seq<Event>
  {
    [Event(0, Switch(0, true)), Event(0, Enqueue(0, 0, 0)), Event(c.lag, ClaimDue(0, 1, [0])),
     Event(Max(c.stale, c.lag), ClaimDue(c.stale, 1, [0])), Event(Max(c.stale, c.lag), Record(0, Http(204)))]
  }

  lemma OneMore(c: Config, s: State, e: Event, rest: seq<Event>)
    requires Enabled(c, s, e) && Legal(c, Apply(c, s, e), rest)
    ensures Legal(c, s, [e] + rest) && Run(c, s, [e] + rest) == Run(c, Apply(c, s, e), rest)
  {
    assert ([e] + rest)[1..] == rest;
  }

  lemma RaceBegins(c: Config)
    ensures var s := State(map[], {0}, map[], 0, 0, {}, map[]);
      && Enabled(c, EMPTY, Race(c)[0]) && Apply(c, EMPTY, Race(c)[0]) == s
      && Enabled(c, s, Race(c)[1]) && Apply(c, s, Race(c)[1]) == Opened()
    ensures Enabled(c, Opened(), Race(c)[2]) && Apply(c, Opened(), Race(c)[2]) == ClaimedOnce(c)
  {
    var rows := Opened().rows;
    assert Released(rows, 0, c.stale) == rows;
    assert DueTimes(rows, {0}, 0) == map[0 := 0];
    assert Claimed(rows, 0, [0]) == ClaimedOnce(c).rows;
    assert Claims(0, rows, [0], 0, c.lag) == ClaimedOnce(c).inFlight;
  }

  lemma RaceContinues(c: Config)
    requires c.stale <= c.bound + c.lag
    ensures Enabled(c, ClaimedOnce(c), Race(c)[3]) && Apply(c, ClaimedOnce(c), Race(c)[3]) == ClaimedTwice(c)
  {
    var rows := map[0 := Delivery(0, Retry, 0, c.stale, c.stale, None, Some(StaleClaim))];
    assert Released(ClaimedOnce(c).rows, c.stale, c.stale) == rows;
    assert DueTimes(rows, {0}, c.stale) == map[0 := c.stale];
    assert Claimed(rows, c.stale, [0]) == ClaimedTwice(c).rows;
    assert ClaimedOnce(c).inFlight + Claims(1, rows, [0], c.stale, Max(c.stale, c.lag)) == ClaimedTwice(c).inFlight;
  }

  lemma RaceEnds(c: Config)
    requires c.stale <= c.bound + c.lag
    ensures var late := Event(Max(c.stale, c.lag), Record(1, TransportError));
      && Enabled(c, ClaimedTwice(c), Race(c)[4])
      && Enabled(c, Apply(c, ClaimedTwice(c), Race(c)[4]), late)
      && !KeepsTerminal(c, Apply(c, ClaimedTwice(c), Race(c)[4]), late)
  {
    var done := Apply(c, ClaimedTwice(c), Race(c)[4]);
    var late := Event(Max(c.stale, c.lag), Record(1, TransportError));
    assert done.rows[0].status.Delivered? && done.inFlight == map[1 := Claim(0, 0, c.stale, Max(c.stale, c.lag))];
    assert !Apply(c, done, late).rows[0].status.Delivered?;
  }

  lemma RaceFromClaimed(c: Config)
    requires c.stale <= c.bound + c.lag
    ensures Legal(c, ClaimedOnce(c), Race(c)[3..])
    ensures Run(c, ClaimedOnce(c), Race(c)[3..]) == Apply(c, ClaimedTwice(c), Race(c)[4])
  {
    var e := Race(c);
    RaceContinues(c);
    RaceEnds(c);
    OneMore(c, ClaimedTwice(c), e[4], []);
    assert [e[4]] + [] == e[4..];
    OneMore(c, ClaimedOnce(c), e[3], e[4..]);
    assert [e[3]] + e[4..] == e[3..];
  }

  lemma RaceFromOpened(c: Config)
    requires c.stale <= c.bound + c.lag
    ensures Legal(c, Opened(), Race(c)[2..])
    ensures Run(c, Opened(), Race(c)[2..]) == Apply(c, ClaimedTwice(c), Race(c)[4])
  {
    RaceBegins(c);
    RaceFromClaimed(c);
    OneMore(c, Opened(), Race(c)[2], Race(c)[3..]);
    assert [Race(c)[2]] + Race(c)[3..] == Race(c)[2..];
  }

  lemma RaceIsLegal(c: Config)
    requires c.stale <= c.bound + c.lag
    ensures Legal(c, EMPTY, Race(c)) && Run(c, EMPTY, Race(c)) == Apply(c, ClaimedTwice(c), Race(c)[4])
  {
    var e := Race(c);
    RaceBegins(c);
    RaceFromOpened(c);
    OneMore(c, Apply(c, EMPTY, e[0]), e[1], e[2..]);
    OneMore(c, EMPTY, e[0], [e[1]] + e[2..]);
    assert e == [e[0]] + ([e[1]] + e[2..]);
  }

  // Two workers hold one delivery; the first reports success, then the second reports a failure.
  lemma RaceOverwrites(c: Config)
    requires c.stale <= c.bound + c.lag
    ensures var late := Event(Max(c.stale, c.lag), Record(1, TransportError));
      && Legal(c, EMPTY, Race(c)) && Enabled(c, Run(c, EMPTY, Race(c)), late)
      && !KeepsTerminal(c, Run(c, EMPTY, Race(c)), late)
  {
    RaceIsLegal(c);
    RaceEnds(c);
  }

  lemma TerminalStableIffStaleExceedsBound(c: Config)
    ensures TerminalRowsAreStable(c) <==> c.stale > c.bound + c.lag
  {
    if c.stale > c.bound + c.lag {
      forall trace, e | Legal(c, EMPTY, trace) && Enabled(c, Run(c, EMPTY, trace), e)
        ensures KeepsTerminal(c, Run(c, EMPTY, trace), e)
      {
        InvRun(c, EMPTY, trace);
        TerminalStep(c, Run(c, EMPTY, trace), e);
      }
    } else {
      RaceOverwrites(c);
    }
  }

  // ---- backoff ----

  // The delivery is not claimed with a clock reading before `base`.
  ghost predicate NotBefore(s: State, id: nat, base: int)
  {
    && id in s.known
    && (id in s.rows && (s.rows[id].status.Pending? || s.rows[id].status.Retry?) ==> s.rows[id].nextAttemptAt >= base)
    && (id in s.rows && s.rows[id].status.Delivering? ==> s.rows[id].updatedAt >= base)
  }

  lemma NotBeforeStep(c: Config, s: State, e: Event, id: nat, base: int)
    requires c.stale > c.bound + c.lag && Inv(c, s) && Enabled(c, s, e) && NotBefore(s, id, base)
    ensures NotBefore(Apply(c, s, e), id, base)
  {
    if e.step.ClaimDue? {
      var rows := Released(s.rows, e.step.now, c.stale);
      forall i | 0 <= i < |e.step.ids| ensures Due(rows, s.enabled, e.step.now, e.step.ids[i]) {
        assert e.step.ids[i] in DueTimes(rows, s.enabled, e.step.now);
      }
    }
    if e.step.Record? { assert Holds(c, s, e.step.claim); }
  }

  lemma {:induction false} NotBeforeRun(c: Config, s: State, trace: seq<Event>, id: nat, base: int)
    requires c.stale > c.bound + c.lag && Inv(c, s) && Legal(c, s, trace) && NotBefore(s, id, base)
    ensures NotBefore(Run(c, s, trace), id, base)
    decreases |trace|
  {
    if trace != [] {
      InvStep(c, s, trace[0]);
      NotBeforeStep(c, s, trace[0], id, base);
      NotBeforeRun(c, Apply(c, s, trace[0]), trace[1..], id, base);
    }
  }

  lemma ClaimIsNotBefore(c: Config, s: State, claim: Event, id: nat, base: int)
    requires Enabled(c, s, claim) && claim.step.ClaimDue? && id in claim.step.ids && NotBefore(s, id, base)
    ensures claim.step.now >= base
  {
    assert id in DueTimes(Released(s.rows, claim.step.now, c.stale), s.enabled, claim.step.now);
  }

  lemma RecordSetsBase(c: Config, s: State, record: Event)
    requires c.stale > c.bound + c.lag && Inv(c, s) && record.step.Record? && Enabled(c, s, record)
    ensures var x := s.inFlight[record.step.claim];
      Inv(c, Apply(c, s, record)) && NotBefore(Apply(c, s, record), x.delivery, x.now + Backoff(x.previous + 1))
  {
    assert Holds(c, s, record.step.claim);
    InvStep(c, s, record);
  }

  // A run in which an attempt is recorded and later the delivery is claimed again.
  ghost predicate ClaimedAgain(c: Config, before: seq<Event>, record: Event, after: seq<Event>, claim: Event)
  {
    && Legal(c, EMPTY, before) && record.step.Record? && claim.step.ClaimDue?
    && var s := Run(c, EMPTY, before);
    && Enabled(c, s, record)
    && Legal(c, Apply(c, s, record), after)
    && Enabled(c, Run(c, Apply(c, s, record), after), claim)
    && s.inFlight[record.step.claim].delivery in claim.step.ids
  }

  // The claim reads the clock at least min(300, 2^(k-1)) seconds after attempt k's claim did.
  ghost predicate BacksOff(c: Config, before: seq<Event>, r: nat, claim: Event)
    requires Legal(c, EMPTY, before) && r in Run(c, EMPTY, before).inFlight && claim.step.ClaimDue?
  {
    var x := Run(c, EMPTY, before).inFlight[r];
    var k := x.previous + 1;
    claim.step.now >= x.now + 1000000 * Min(300, Pow2(k - 1))
  }

  ghost predicate RetriesAlwaysBackOff(c: Config)
  {
    forall before, record, after, claim ::
      ClaimedAgain(c, before, record, after, claim) ==> BacksOff(c, before, record.step.claim, claim)
  }

  lemma RetriesBackOff(c: Config, before: seq<Event>, record: Event, after: seq<Event>, claim: Event)
    requires c.stale > c.bound + c.lag && ClaimedAgain(c, before, record, after, claim)
    ensures BacksOff(c, before, record.step.claim, claim)
  {
    var s := Run(c, EMPTY, before);
    InvRun(c, EMPTY, before);
    var x := s.inFlight[record.step.claim];
    var base := x.now + Backoff(x.previous + 1);
    RecordSetsBase(c, s, record);
    NotBeforeRun(c, Apply(c, s, record), after, x.delivery, base);
    ClaimIsNotBefore(c, Run(c, Apply(c, s, record), after), claim, x.delivery, base);
  }

  // With a single attempt allowed, one record finishes a delivery for good, races or not.
  ghost predicate Finished(s: State, id: nat)
  {
    id in s.known && (id in s.rows ==> Terminal(s.rows[id]))
  }

  lemma KnownRun(c: Config, s: State, trace: seq<Event>)
    requires AllKnown(s) && Legal(c, s, trace)
    ensures AllKnown(Run(c, s, trace))
    decreases |trace|
  {
    if trace != [] {
      KnownStep(c, s, trace[0]);
      KnownRun(c, Apply(c, s, trace[0]), trace[1..]);
    }
  }

  ghost predicate AllKnown(s: State)
  {
    s.rows.Keys <= s.known && forall r :: r in s.inFlight ==> s.inFlight[r].delivery in s.known
  }

  lemma KnownStep(c: Config, s: State, e: Event)
    requires AllKnown(s) && Enabled(c, s, e)
    ensures AllKnown(Apply(c, s, e))
  {
    if e.step.ClaimDue? {
      AllClaimed(Released(s.rows, e.step.now, c.stale), s.enabled, e.step.now, e.step.limit, e.step.ids);
    }
  }

  lemma FinishedIsNotClaimed(c: Config, s: State, claim: Event, id: nat)
    requires Finished(s, id) && Enabled(c, s, claim) && claim.step.ClaimDue?
    ensures id !in claim.step.ids
  {
    if i :| 0 <= i < |claim.step.ids| && claim.step.ids[i] == id {
      var now := claim.step.now;
      ClaimedRow(Released(s.rows, now, c.stale), s.enabled, now, claim.step.limit, claim.step.ids, i);
    }
  }

  lemma {:induction false} FinishedRun(c: Config, s: State, trace: seq<Event>, id: nat)
    requires c.maxAttempts <= 1 && Finished(s, id) && Legal(c, s, trace)
    ensures Finished(Run(c, s, trace), id)
    decreases |trace|
  {
    if trace != [] {
      if trace[0].step.ClaimDue? { FinishedIsNotClaimed(c, s, trace[0], id); }
      assert Finished(Apply(c, s, trace[0]), id);
      FinishedRun(c, Apply(c, s, trace[0]), trace[1..], id);
    }
  }

  lemma SingleAttemptIsNotRepeated(c: Config, before: seq<Event>, record: Event, after: seq<Event>, claim: Event)
    requires c.maxAttempts <= 1
    ensures !ClaimedAgain(c, before, record, after, claim)
  {
    if ClaimedAgain(c, before, record, after, claim) {
      var s := Run(c, EMPTY, before);
      KnownRun(c, EMPTY, before);
      var id := s.inFlight[record.step.claim].delivery;
      var t := Apply(c, s, record);
      FinishedRun(c, t, after, id);
      FinishedIsNotClaimed(c, Run(c, t, after), claim, id);
    }
  }

  // Two workers hold one delivery; both attempts fail, and the one that claimed first records last.
  function BothHold(c: Config): seq<Event> { Race(c)[..4] }

  function LateRecord(c: Config): seq<Event>
  {
    [Event(Max(c.stale, c.lag), Record(0, TransportError))]
  }

  function EarlyClaim(c: Config): Event
  {
    var now := Max(1000000, c.stale);
    Event(Max(now, c.lag), ClaimDue(now, 1, [0]))
  }

  function PulledBack(c: Config): State
  {
    State(map[0 := Delivery(0, Retry, 1, 1000000, 0, None, Some(Transport))], {0}, map[], 2, Max(c.stale, c.lag),
          {0}, map[0 := 2])
  }

  lemma BothHoldIsLegal(c: Config)
    requires c.stale <= c.bound + c.lag
    ensures Legal(c, EMPTY, BothHold(c)) && Run(c, EMPTY, BothHold(c)) == ClaimedTwice(c)
  {
    var e := Race(c);
    RaceBegins(c);
    RaceContinues(c);
    OneMore(c, ClaimedOnce(c), e[3], []);
    OneMore(c, Opened(), e[2], [e[3]] + []);
    OneMore(c, Apply(c, EMPTY, e[0]), e[1], [e[2]] + ([e[3]] + []));
    OneMore(c, EMPTY, e[0], [e[1]] + ([e[2]] + ([e[3]] + [])));
    assert BothHold(c) == [e[0]] + ([e[1]] + ([e[2]] + ([e[3]] + [])));
  }

  lemma LateRecordPullsBack(c: Config)
    requires c.stale <= c.bound + c.lag && c.maxAttempts >= 2
    ensures var first := Event(Max(c.stale, c.lag), Record(1, TransportError));
      && Enabled(c, ClaimedTwice(c), first)
      && Legal(c, Apply(c, ClaimedTwice(c), first), LateRecord(c))
      && Run(c, Apply(c, ClaimedTwice(c), first), LateRecord(c)) == PulledBack(c)
  {
    assert Backoff(1) == 1000000;
    var t := Apply(c, ClaimedTwice(c), Event(Max(c.stale, c.lag), Record(1, TransportError)));
    assert t.inFlight == map[0 := Claim(0, 0, 0, c.lag)] && t.records == map[0 := 1];
    var e := LateRecord(c)[0];
    var u := Apply(c, t, e);
    assert u.inFlight == map[] && u.records == map[0 := 2] && u.rows == PulledBack(c).rows;
    OneMore(c, t, e, []);
    assert LateRecord(c) == [e] + [];
  }

  lemma EarlyClaimIsEnabled(c: Config)
    ensures Enabled(c, PulledBack(c), EarlyClaim(c))
  {
    var rows, now := PulledBack(c).rows, Max(1000000, c.stale);
    assert Released(rows, now, c.stale) == rows;
    assert DueTimes(rows, {0}, now) == map[0 := 1000000];
  }

  lemma RaceForgetsBackoff(c: Config)
    requires 1 <= c.stale <= c.bound + c.lag && c.maxAttempts >= 2
    ensures var first := Event(Max(c.stale, c.lag), Record(1, TransportError));
      ClaimedAgain(c, BothHold(c), first, LateRecord(c), EarlyClaim(c)) && !BacksOff(c, BothHold(c), 1, EarlyClaim(c))
  {
    BothHoldIsLegal(c);
    LateRecordPullsBack(c);
    EarlyClaimIsEnabled(c);
    assert Pow2(0) == 1;
  }

  // The constructor makes the stale limit positive. Then retries back off in every run exactly when no
  // claim can outlive the stale limit, or nothing is retried.
  lemma BackOffIffStaleExceedsBound(c: Config)
    requires c.stale >= 1
    ensures RetriesAlwaysBackOff(c) <==> c.stale > c.bound + c.lag || c.maxAttempts <= 1
  {
    if c.stale > c.bound + c.lag {
      forall before, record, after, claim | ClaimedAgain(c, before, record, after, claim)
        ensures BacksOff(c, before, record.step.claim, claim)
      {
        RetriesBackOff(c, before, record, after, claim);
      }
    } else if c.maxAttempts <= 1 {
      forall before, record, after, claim ensures !ClaimedAgain(c, before, record, after, claim) {
        SingleAttemptIsNotRepeated(c, before, record, after, claim);
      }
    } else {
      RaceForgetsBackoff(c);
      var first := Event(Max(c.stale, c.lag), Record(1, TransportError));
      assert !BacksOff(c, BothHold(c), first.step.claim, EarlyClaim(c));
    }
  }
}
