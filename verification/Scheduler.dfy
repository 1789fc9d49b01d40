// The interval scheduler: claims with stale recovery, bounded retries and unconditional finalisation.
// Times are integers in microseconds; ids stand for their rank in text order.
module Scheduler {
  import opened Arithmetic
  import opened Common
  import opened DueOrder
  import opened Store

  datatype Schedule = Schedule(interval: nat, enabled: bool, running: bool, nextRunAt: int,
                               lastRunAt: Option<int>, updatedAt: int)

  type Rows = map<nat, Schedule>

  datatype RunStatus = Running | Interrupted | Ended(status: Status)

  // One execution in the history; deleting its schedule empties the reference.
  datatype JobRun = JobRun(schedule: Option<nat>, status: RunStatus, attempt: nat, startedAt: int,
                           finishedAt: Option<int>)

  type Runs = map<nat, JobRun>

  datatype Tables = Tables(schedules: Rows, runs: Runs)

  const MIN_INTERVAL := 10000000

  predicate Eligible(m: Rows, now: int, id: nat)
  {
    id in m && m[id].enabled && !m[id].running && m[id].nextRunAt <= now
  }

  function DueTimes(m: Rows, now: int): map<nat, int>
  {
    map id | id in m && Eligible(m, now, id) :: m[id].nextRunAt
  }

  // The rows SELECT ... ORDER BY next_run_at, id LIMIT ... returns.
  ghost predicate FirstDue(m: Rows, now: int, limit: nat, ids: seq<nat>)
  {
    First(DueTimes(m, now), limit, ids)
  }

  function Released(m: Rows, now: int, stale: int): Rows
  {
    map id | id in m :: if m[id].running && m[id].updatedAt <= now - stale
                        then m[id].(running := false, updatedAt := now) else m[id]
  }

  function Claimed(m: Rows, now: int, ids: seq<nat>): Rows
  {
    map id | id in m :: if id in ids then m[id].(running := true, updatedAt := now) else m[id]
  }

  function Switched(m: Rows, id: nat, enabled: bool, now: int): Rows
  {
    if id !in m then m else m[id := m[id].(enabled := enabled, updatedAt := now)]
  }

  function Finalised(m: Rows, id: nat, startedAt: int, finishedAt: int): Rows
  {
    if id !in m then m else
      m[id := m[id].(running := false, lastRunAt := Some(startedAt),
                     nextRunAt := startedAt + m[id].interval, updatedAt := finishedAt)]
  }

  // A stale claim also ends the history row of its execution.
  function MarkedInterrupted(m: Runs, now: int, stale: int): Runs
  {
    map run | run in m :: if m[run].status.Running? && m[run].startedAt <= now - stale
                          then m[run].(status := Interrupted, finishedAt := Some(now)) else m[run]
  }

  function Opened(m: Runs, run: nat, id: nat, startedAt: int): Runs
  {
    m[run := JobRun(Some(id), Running, 1, startedAt, None)]
  }

  // Whatever the row says by then, it takes the result of its execution.
  function Closed(m: Runs, run: nat, status: Status, attempt: nat, finishedAt: int): Runs
  {
    if run !in m then m
    else m[run := m[run].(status := Ended(status), attempt := attempt, finishedAt := Some(finishedAt))]
  }

  function Orphaned(m: Runs, id: nat): Runs
  {
    map run | run in m :: if m[run].schedule == Some(id) then m[run].(schedule := None) else m[run]
  }

  // ---- the table operations ----

  class Scheduler {
    const store: RuntimeStore<Tables>
    const stale: int

    constructor (store: RuntimeStore<Tables>, stale: int)
      ensures this.store == store && this.stale == stale
    {
      this.store, this.stale := store, stale;
    }

    method ClaimDue(now: int, limit: nat) returns (ok: bool, ids: seq<nat>)
      requires store.saved == None
      modifies store
      ensures store.saved == None && store.connected == old(store.connected) && ok == store.connected
      ensures !ok ==> store.tables == old(store.tables)
      ensures ok ==> FirstDue(Released(old(store.tables).schedules, now, stale), now, limit, ids)
      ensures ok ==> store.tables == Tables(Claimed(Released(old(store.tables).schedules, now, stale), now, ids),
                                            MarkedInterrupted(old(store.tables).runs, now, stale))
      ensures ok ==> var before, after := old(store.tables).schedules, store.tables.schedules;
        && after.Keys == before.Keys
        && (forall id :: id in ids ==> id in before && after[id] == before[id].(running := true, updatedAt := now))
        && (forall id :: id in before && id !in ids && before[id].running && before[id].updatedAt <= now - stale ==>
              after[id] == before[id].(running := false, updatedAt := now))
        && (forall id :: id in before && id !in ids && (!before[id].running || before[id].updatedAt > now - stale) ==>
              after[id] == before[id])
      ensures ok ==> var before, after := old(store.tables).runs, store.tables.runs;
        && after.Keys == before.Keys
        && (forall run :: run in before && before[run].status.Running? && before[run].startedAt <= now - stale ==>
              after[run] == before[run].(status := Interrupted, finishedAt := Some(now)))
        && (forall run :: run in before && (!before[run].status.Running? || before[run].startedAt > now - stale) ==>
              after[run] == before[run])
    {
      ids := [];
      ok := store.Begin();
      if !ok { return; }
      var runs := MarkedInterrupted(store.tables.runs, now, stale);
      var rows := Released(store.tables.schedules, now, stale);
      ids := SelectFirst(DueTimes(rows, now), limit);
      AllDue(rows, now, limit, ids);
      rows := MarkClaimed(rows, now, ids);
      store.tables := Tables(rows, runs);
      store.Commit();
    }

    static method MarkClaimed(rows: Rows, now: int, ids: seq<nat>) returns (claimed: Rows)
      requires forall i :: 0 <= i < |ids| ==> ids[i] in rows
      ensures claimed == Claimed(rows, now, ids)
    {
      claimed := rows;
      var i := 0;
      while i < |ids|
        invariant 0 <= i <= |ids|
        invariant claimed == Claimed(rows, now, ids[..i])
      {
        claimed := claimed[ids[i] := claimed[ids[i]].(running := true, updatedAt := now)];
        assert ids[..i + 1] == ids[..i] + [ids[i]];
        i := i + 1;
      }
      assert ids[..i] == ids;
    }

    method ClaimNow(now: int, id: nat) returns (ok: bool)
      requires store.saved == None
      modifies store
      ensures store.saved == None && store.connected == old(store.connected)
      ensures ok <==> store.connected && id in old(store.tables).schedules && !old(store.tables).schedules[id].running
      ensures store.tables.runs == old(store.tables).runs
      ensures store.tables.schedules ==
        if ok then Claimed(old(store.tables).schedules, now, [id]) else old(store.tables).schedules
      ensures ok ==> var before := old(store.tables).schedules;
        store.tables.schedules == before[id := before[id].(running := true, updatedAt := now)]
    {
      ok := store.Begin();
      if !ok { return; }
      var rows := store.tables.schedules;
      ok := id in rows && !rows[id].running;
      if !ok {
        store.Rollback();
        return;
      }
      store.tables := store.tables.(schedules := rows[id := rows[id].(running := true, updatedAt := now)]);
      store.Commit();
    }

    method SetEnabled(now: int, id: nat, enabled: bool) returns (ok: bool)
      requires store.saved == None
      modifies store
      ensures store.saved == None && store.connected == old(store.connected)
      ensures ok <==> store.connected && id in old(store.tables).schedules
      ensures store.tables.runs == old(store.tables).runs
      ensures store.tables.schedules ==
        if ok then Switched(old(store.tables).schedules, id, enabled, now) else old(store.tables).schedules
      ensures ok ==> var before := old(store.tables).schedules;
        store.tables.schedules == before[id := before[id].(enabled := enabled, updatedAt := now)]
    {
      ok := store.Begin();
      if !ok { return; }
      var rows := store.tables.schedules;
      ok := id in rows;
      if ok { store.tables := store.tables.(schedules := rows[id := rows[id].(enabled := enabled, updatedAt := now)]); }
      store.Commit();
    }

    // A running schedule stays.
    method Delete(id: nat) returns (ok: bool)
      requires store.saved == None
      modifies store
      ensures store.saved == None && store.connected == old(store.connected)
      ensures ok <==> store.connected && id in old(store.tables).schedules && !old(store.tables).schedules[id].running
      ensures store.tables ==
        if ok then Tables(old(store.tables).schedules - {id}, Orphaned(old(store.tables).runs, id))
        else old(store.tables)
      ensures ok ==> var before, after := old(store.tables).runs, store.tables.runs;
        && after.Keys == before.Keys
        && (forall run :: run in before && before[run].schedule == Some(id) ==>
              after[run] == before[run].(schedule := None))
        && (forall run :: run in before && before[run].schedule != Some(id) ==> after[run] == before[run])
    {
      ok := store.Begin();
      if !ok { return; }
      var t := store.tables;
      ok := id in t.schedules && !t.schedules[id].running;
      if ok { store.tables := Tables(t.schedules - {id}, Orphaned(t.runs, id)); }
      store.Commit();
    }

    // The history row of a new execution; it refers to a schedule that exists.
    method Open(run: nat, id: nat, startedAt: int) returns (ok: bool)
      requires store.saved == None
      modifies store
      ensures store.saved == None && store.connected == old(store.connected)
      ensures ok <==> store.connected && id in old(store.tables).schedules && run !in old(store.tables).runs
      ensures store.tables ==
        if ok then old(store.tables).(runs := Opened(old(store.tables).runs, run, id, startedAt)) else old(store.tables)
      ensures ok ==> store.tables.runs == old(store.tables).runs[run := JobRun(Some(id), Running, 1, startedAt, None)]
    {
      ok := store.Begin();
      if !ok { return; }
      ok := id in store.tables.schedules && run !in store.tables.runs;
      if !ok {
        store.Rollback();
        return;
      }
      store.tables := store.tables.(runs := store.tables.runs[run := JobRun(Some(id), Running, 1, startedAt, None)]);
      store.Commit();
    }

    method Finalise(run: nat, id: nat, startedAt: int, status: Status, attempt: nat, finishedAt: int) returns (ok: bool)
      requires store.saved == None
      modifies store
      ensures store.saved == None && store.connected == old(store.connected) && ok == store.connected
      ensures store.tables ==
        if ok then Tables(Finalised(old(store.tables).schedules, id, startedAt, finishedAt),
                          Closed(old(store.tables).runs, run, status, attempt, finishedAt))
        else old(store.tables)
      ensures ok && id in old(store.tables).schedules ==> var before := old(store.tables).schedules;
        store.tables.schedules == before[id := before[id].(running := false, lastRunAt := Some(startedAt),
                                                           nextRunAt := startedAt + before[id].interval,
                                                           updatedAt := finishedAt)]
      ensures ok && id !in old(store.tables).schedules ==> store.tables.schedules == old(store.tables).schedules
      ensures ok && run in old(store.tables).runs ==> var before := old(store.tables).runs;
        store.tables.runs == before[run := before[run].(status := Ended(status), attempt := attempt,
                                                        finishedAt := Some(finishedAt))]
      ensures ok && run !in old(store.tables).runs ==> store.tables.runs == old(store.tables).runs
    {
      ok := store.Begin();
      if !ok { return; }
      var rows, runs := store.tables.schedules, store.tables.runs;
      if run in runs {
        runs := runs[run := runs[run].(status := Ended(status), attempt := attempt, finishedAt := Some(finishedAt))];
      }
      if id in rows {
        var nextRun := startedAt + rows[id].interval;
        rows := rows[id := rows[id].(running := false, lastRunAt := Some(startedAt),
                                     nextRunAt := nextRun, updatedAt := finishedAt)];
      }
      store.tables := Tables(rows, runs);
      store.Commit();
    }

    // One execution alone with the database: open the history row, run the attempts, finalise.
    method Execute(run: nat, id: nat, startedAt: int, finishedAt: int, job: Job, limits: Limits, script: nat -> Attempt)
      returns (ok: bool, status: Status, attempt: nat, spent: nat)
      requires store.saved == None && Possible(script, limits)
      modifies store
      ensures store.saved == None && store.connected == old(store.connected)
      ensures ok <==> store.connected && id in old(store.tables).schedules && run !in old(store.tables).runs
      ensures !ok ==> store.tables == old(store.tables)
      ensures ok ==> EndsAs(job, limits, script, status, attempt, spent)
      ensures ok ==> store.tables.schedules == Finalised(old(store.tables).schedules, id, startedAt, finishedAt)
      ensures ok ==> AttemptsOf(job, limits, script, status, attempt)
      ensures ok ==> var row := JobRun(Some(id), Ended(status), attempt, startedAt, Some(finishedAt));
        store.tables.runs == old(store.tables).runs[run := row]
    {
      status, attempt, spent := FailedRun, 1, 0;
      ok := Open(run, id, startedAt);
      if !ok { return; }
      status, attempt, spent := RunAttempts(job, limits, script);
      AttemptsFollowJob(job, limits, script, status, attempt, spent);
      ok := Finalise(run, id, startedAt, status, attempt, finishedAt);
    }

    // run_due with executions that all finish and nothing else writing: claim, then execute each. The
    // history row of the execution of `id` is `runOf(id)`, a new one for each.
    method RunDue(now: int, limit: int, runOf: nat -> nat, finishedAt: nat -> int, jobs: nat -> Job, limits: Limits,
                  script: nat -> Attempt)
      returns (ok: bool, ids: seq<nat>)
      requires store.saved == None && Possible(script, limits)
      requires forall i, j :: i != j ==> runOf(i) != runOf(j)
      requires forall i :: runOf(i) !in store.tables.runs
      modifies store
      ensures store.saved == None && store.connected == old(store.connected) && ok == store.connected
      ensures !ok ==> store.tables == old(store.tables)
      ensures ok ==> FirstDue(Released(old(store.tables).schedules, now, stale), now, Max(1, Min(limit, 100)), ids)
      ensures ok ==>
        store.tables.schedules == AfterRound(old(store.tables).schedules, stale, Round(now, ids, finishedAt))
      ensures ok ==> forall id :: id in ids ==>
        runOf(id) in store.tables.runs && store.tables.runs[runOf(id)].status.Ended?
    {
      ok, ids := ClaimDue(now, Max(1, Min(limit, 100)));
      if !ok { return; }
      AllDue(Released(old(store.tables).schedules, now, stale), now, Max(1, Min(limit, 100)), ids);
      ExecuteAll(ids, now, runOf, finishedAt, jobs, limits, script);
    }

    method ExecuteAll(ids: seq<nat>, now: int, runOf: nat -> nat, finishedAt: nat -> int, jobs: nat -> Job,
                      limits: Limits, script: nat -> Attempt)
      requires store.saved == None && store.connected && Possible(script, limits) && Distinct(ids)
      requires forall i :: 0 <= i < |ids| ==> ids[i] in store.tables.schedules
      requires forall i, j :: i != j ==> runOf(i) != runOf(j)
      requires forall i :: runOf(i) !in store.tables.runs
      modifies store
      ensures store.saved == None && store.connected
      ensures store.tables.schedules == FinaliseAll(old(store.tables).schedules, ids, now, finishedAt)
      ensures forall id :: id in ids ==> runOf(id) in store.tables.runs && store.tables.runs[runOf(id)].status.Ended?
    {
      ghost var claimed := store.tables.schedules;
      var i := 0;
      while i < |ids|
        invariant 0 <= i <= |ids| && store.saved == None && store.connected
        invariant store.tables.schedules.Keys == claimed.Keys
        invariant FinaliseAll(store.tables.schedules, ids[i..], now, finishedAt)
               == FinaliseAll(claimed, ids, now, finishedAt)
        invariant forall id :: id !in ids[..i] ==> runOf(id) !in store.tables.runs
        invariant forall j :: 0 <= j < i ==>
          runOf(ids[j]) in store.tables.runs && store.tables.runs[runOf(ids[j])].status.Ended?
      {
        assert ids[i..][0] == ids[i] && ids[i..][1..] == ids[i + 1..];
        assert ids[..i + 1] == ids[..i] + [ids[i]] && ids[i] !in ids[..i];
        var done, status, attempt, spent :=
          Execute(runOf(ids[i]), ids[i], now, finishedAt(ids[i]), jobs(ids[i]), limits, script);
        i := i + 1;
      }
    }
  }

  lemma AllDue(m: Rows, now: int, limit: nat, ids: seq<nat>)
    requires FirstDue(m, now, limit, ids)
    ensures forall i :: 0 <= i < |ids| ==> ids[i] in m
  {
    forall i | 0 <= i < |ids| ensures ids[i] in m { assert ids[i] in DueTimes(m, now); }
  }

  // Enabled, its time has come, and idle or stale.
  predicate Claimable(x: Schedule, now: int, stale: int)
  {
    x.enabled && x.nextRunAt <= now && (x.running ==> x.updatedAt <= now - stale)
  }

  // What a pass takes: only claimable schedules, and it leaves one out only behind `limit` others that were
  // due before it, or as long and come first.
  lemma ClaimTakesDue(m: Rows, now: int, stale: int, limit: nat, ids: seq<nat>)
    requires FirstDue(Released(m, now, stale), now, limit, ids)
    ensures |ids| <= limit && forall i, j :: 0 <= i < j < |ids| ==> ids[i] != ids[j]
    ensures forall id :: id in ids ==> id in m && Claimable(m[id], now, stale)
    ensures forall id :: id in m && Claimable(m[id], now, stale) && id !in ids ==> |ids| == limit
    ensures forall id, i :: id in m && Claimable(m[id], now, stale) && id !in ids && 0 <= i < |ids| ==>
      m[ids[i]].nextRunAt < m[id].nextRunAt || (m[ids[i]].nextRunAt == m[id].nextRunAt && ids[i] < id)
  {
    var released := Released(m, now, stale);
    forall id | id in ids ensures id in DueTimes(released, now) {
      var i :| 0 <= i < |ids| && ids[i] == id;
      assert ids[i] in DueTimes(released, now);
    }
  }

  // ---- one execution: the retry loop ----

  // What attempt k of the handler does, and whether the pause after it is cut short by cancellation.
  datatype Outcome = Returned | Raised | Cancelled
  datatype Attempt = Attempt(outcome: Outcome, elapsed: nat, pauseCancelled: Option<nat>)
  datatype Job = Unavailable | InvalidArguments | Ready(retryable: bool)
  datatype Status = Succeeded | FailedRun | CancelledRun

  datatype Limits = Limits(maxAttempts: int, timeout: nat, initial: nat)

  function Allowed(job: Job, maxAttempts: int): nat
  {
    if job == Ready(true) then Max(1, maxAttempts) else 1
  }

  function Delay(initial: nat, attempt: nat): nat
    requires attempt >= 1
  {
    initial * Pow2(attempt - 1)
  }

  // The pauses after the first k attempts add up to d * (2^k - 1).
  function Worst(attempts: nat, timeout: nat, initial: nat): nat
  {
    if attempts == 0 then 0 else attempts * timeout + initial * (Pow2(attempts - 1) - 1)
  }

  lemma WorstStep(k: nat, timeout: nat, initial: nat)
    requires k >= 1
    ensures Worst(k, timeout, initial) + Delay(initial, k) + timeout == Worst(k + 1, timeout, initial)
  {
    var p := Pow2(k - 1);
    assert Pow2(k) == 2 * p;
    assert initial * (p - 1) + initial * p == initial * (2 * p - 1);
    assert (k + 1) * timeout == k * timeout + timeout;
  }

  // Time in the first n attempts when each is followed by its whole pause.
  function Elapsed(script: nat -> Attempt, initial: nat, n: nat): nat
  {
    if n == 0 then 0 else Elapsed(script, initial, n - 1) + script(n).elapsed + Delay(initial, n)
  }

  // The attempt an execution ends in, with its pause when that was cancelled.
  function LastPart(last: Attempt, status: Status): nat
  {
    last.elapsed + (if status == CancelledRun && last.outcome == Raised && last.pauseCancelled.Some?
                    then last.pauseCancelled.value else 0)
  }

  // A handler that always uses its whole timeout and fails reaches the worst case.
  lemma {:induction false} WorstIsReached(script: nat -> Attempt, timeout: nat, initial: nat, attempts: nat)
    requires attempts >= 1 && forall k :: script(k).elapsed == timeout
    ensures Elapsed(script, initial, attempts - 1) + script(attempts).elapsed == Worst(attempts, timeout, initial)
  {
    if attempts > 1 {
      WorstIsReached(script, timeout, initial, attempts - 1);
      WorstStep(attempts - 1, timeout, initial);
    }
  }

  // No call outlasts the timeout, and no pause its delay.
  ghost predicate Possible(script: nat -> Attempt, l: Limits)
  {
    && (forall k :: script(k).elapsed <= l.timeout)
    && (forall k: nat :: k >= 1 && script(k).pauseCancelled.Some? ==>
          script(k).pauseCancelled.value <= Delay(l.initial, k))
  }

  // A handler that always uses its whole timeout and fails.
  ghost predicate AlwaysTimesOut(script: nat -> Attempt, l: Limits)
  {
    forall k :: script(k) == Attempt(Raised, l.timeout, None)
  }

  // How an execution ends: in which attempt, why, and after how much time.
  ghost predicate EndsAs(job: Job, l: Limits, script: nat -> Attempt, status: Status, attempt: nat, spent: nat)
  {
    && 1 <= attempt <= Allowed(job, l.maxAttempts)
    && spent <= Worst(Allowed(job, l.maxAttempts), l.timeout, l.initial)
    && (!job.Ready? ==> status == FailedRun && spent == 0)
    && (job.Ready? ==> EndsIn(Allowed(job, l.maxAttempts), l.initial, script, status, attempt, spent))
  }

  ghost predicate EndsIn(allowed: nat, initial: nat, script: nat -> Attempt, status: Status, attempt: nat, spent: nat)
    requires attempt >= 1
  {
    && spent == Elapsed(script, initial, attempt - 1) + LastPart(script(attempt), status)
    && (forall k :: 1 <= k < attempt ==> script(k).outcome == Raised && script(k).pauseCancelled == None)
    && match status
       case Succeeded => script(attempt).outcome == Returned
       case FailedRun => script(attempt).outcome == Raised && attempt == allowed
       case CancelledRun =>
         || script(attempt).outcome == Cancelled
         || (script(attempt).outcome == Raised && script(attempt).pauseCancelled.Some? && attempt < allowed)
  }

  // How often a job is tried: once unless it is retryable, and a retryable one until an attempt does not raise,
  // its pause is cut short, or it was tried as often as the limit says.
  ghost predicate AttemptsOf(job: Job, l: Limits, script: nat -> Attempt, status: Status, attempt: nat)
  {
    && (job != Ready(true) ==> attempt == 1)
    && (job == Ready(true) && status.FailedRun? ==> attempt == l.maxAttempts || (attempt == 1 && l.maxAttempts < 1))
    && (job == Ready(true) && attempt < l.maxAttempts ==>
          script(attempt).outcome != Raised || script(attempt).pauseCancelled.Some?)
    && (job == Ready(true) ==> attempt <= l.maxAttempts || attempt == 1)
    && (job.Ready? ==> (status.Succeeded? <==> script(attempt).outcome == Returned))
    && (job.Ready? && script(attempt).outcome == Cancelled ==> status.CancelledRun?)
  }

  lemma AttemptsFollowJob(job: Job, l: Limits, script: nat -> Attempt, status: Status, attempt: nat, spent: nat)
    requires EndsAs(job, l, script, status, attempt, spent)
    ensures AttemptsOf(job, l, script, status, attempt)
  {
  }

  // The time of an execution: the attempts before the last with their whole pauses, the last attempt, and of its
  // pause as much as passed before it was cut short.
  lemma TimeIsSpent(job: Job, l: Limits, script: nat -> Attempt, status: Status, attempt: nat, spent: nat)
    requires job.Ready? && EndsAs(job, l, script, status, attempt, spent)
    ensures var last, before := script(attempt), Elapsed(script, l.initial, attempt - 1);
      if status == CancelledRun && last.outcome == Raised then
        last.pauseCancelled.Some? && spent == before + last.elapsed + last.pauseCancelled.value
      else spent == before + last.elapsed
  {
  }

  // The end of an execution is determined by the job, the limits and how the handler behaves.
  lemma EndIsDetermined(job: Job, l: Limits, script: nat -> Attempt, status: Status, attempt: nat, spent: nat,
                        status': Status, attempt': nat, spent': nat)
    requires EndsAs(job, l, script, status, attempt, spent) && EndsAs(job, l, script, status', attempt', spent')
    ensures status == status' && attempt == attempt' && spent == spent'
  {
  }

  // The `while True` loop of `_execute`. `script` decides how the handler behaves; `spent` is the time in
  // handler calls and pauses.
  method RunAttempts(job: Job, l: Limits, script: nat -> Attempt) returns (status: Status, attempt: nat, spent: nat)
    requires Possible(script, l)
    ensures EndsAs(job, l, script, status, attempt, spent)
  {
    attempt, spent := 1, 0;
    var allowed := Allowed(job, l.maxAttempts);
    if !job.Ready? {
      return FailedRun, 1, 0;
    }
    attempt := 0;
    while true
      invariant 0 <= attempt < allowed
      invariant forall k :: 1 <= k <= attempt ==> script(k).outcome == Raised && script(k).pauseCancelled == None
      invariant spent == Elapsed(script, l.initial, attempt)
      invariant spent + l.timeout <= Worst(attempt + 1, l.timeout, l.initial)
      decreases allowed - attempt
    {
      attempt := attempt + 1;
      var a := script(attempt);
      spent := spent + a.elapsed;
      WorstMonotone(attempt, allowed, l.timeout, l.initial);
      if a.outcome == Returned { return Succeeded, attempt, spent; }
      if a.outcome == Cancelled { return CancelledRun, attempt, spent; }
      if attempt >= allowed { return FailedRun, attempt, spent; }
      WorstStep(attempt, l.timeout, l.initial);
      WorstMonotone(attempt + 1, allowed, l.timeout, l.initial);
      var delay := l.initial * Pow2(attempt - 1);
      if a.pauseCancelled.Some? {
        spent := spent + a.pauseCancelled.value;
        return CancelledRun, attempt, spent;
      }
      spent := spent + delay;
    }
  }

  // The bound on an execution is reached: when every call uses its whole timeout, the loop ends failed
  // after exactly the worst time.
  lemma TimeoutsReachWorst(job: Job, l: Limits, script: nat -> Attempt, status: Status, attempt: nat, spent: nat)
    requires job.Ready? && AlwaysTimesOut(script, l) && EndsAs(job, l, script, status, attempt, spent)
    ensures status == FailedRun && spent == Worst(Allowed(job, l.maxAttempts), l.timeout, l.initial)
  {
    WorstIsReached(script, l.timeout, l.initial, attempt);
  }

  lemma {:induction false} WorstMonotone(a: nat, b: nat, timeout: nat, initial: nat)
    requires 1 <= a <= b
    ensures Worst(a, timeout, initial) <= Worst(b, timeout, initial)
    decreases b - a
  {
    if a < b {
      WorstMonotone(a, b - 1, timeout, initial);
      WorstStep(b - 1, timeout, initial);
    }
  }

  // ---- all interleavings ----

  // stale: stale_run_seconds. bound: the longest time from a claim's commit to its finalisation.
  // lag: how long before its transaction commits an operation may have read the clock.
  datatype Config = Config(stale: nat, bound: nat, lag: nat)

  datatype Execution = Execution(schedule: nat, startedAt: int, claimedAt: int)

  // `known` holds every schedule id ever used; ids are random and never reused.
  datatype State = State(rows: Rows, inFlight: map<nat, Execution>, issued: nat, clock: int, known: set<nat>)

  datatype Step =
    | ClaimDue(now: int, limit: nat, ids: seq<nat>)
    | RunNow(now: int, id: nat)
    | Finalise(run: nat, finishedAt: int)
    | Abandon(run: nat)  // the process died, or a transaction of the execution failed
    | SetEnabled(now: int, id: nat, enabled: bool)
    | Create(now: int, id: nat, interval: nat)
    | Delete(id: nat)

  datatype Event = Event(at: int, step: Step)

  const EMPTY := State(map[], map[], 0, 0, {})

  // The clock never goes back, and no execution is in flight longer than the bound.
  predicate Timely(c: Config, s: State, at: int)
  {
    s.clock <= at && forall r :: r in s.inFlight ==> at <= s.inFlight[r].claimedAt + c.bound
  }

  ghost predicate Enabled(c: Config, s: State, e: Event)
  {
    Timely(c, s, e.at) &&
    match e.step
    case ClaimDue(now, limit, ids) =>
      now <= e.at <= now + c.lag && FirstDue(Released(s.rows, now, c.stale), now, limit, ids)
    case RunNow(now, id) => now <= e.at <= now + c.lag && id in s.rows && !s.rows[id].running
    case Finalise(run, _) => run in s.inFlight
    case Abandon(run) => run in s.inFlight
    case SetEnabled(now, id, _) => now <= e.at <= now + c.lag && id in s.rows
    case Create(now, id, interval) => now <= e.at <= now + c.lag && id !in s.known && interval >= MIN_INTERVAL
    case Delete(id) => id in s.rows && !s.rows[id].running
  }

  function Launched(first: nat, ids: seq<nat>, now: int, at: int): (m: map<nat, Execution>)
    ensures forall r :: r in m <==> first <= r < first + |ids|
    ensures forall r :: r in m ==> m[r] == Execution(ids[r - first], now, at)
  {
    if ids == [] then map[]
    else var last := |ids| - 1;
      Launched(first, ids[..last], now, at)[first + last := Execution(ids[last], now, at)]
  }

  function Launch(s: State, ids: seq<nat>, now: int, at: int): State
  {
    s.(issued := s.issued + |ids|, inFlight := s.inFlight + Launched(s.issued, ids, now, at))
  }

  ghost function Apply(c: Config, s: State, e: Event): State
    requires Enabled(c, s, e)
  {
    var s := s.(clock := e.at);
    match e.step
    case ClaimDue(now, limit, ids) =>
      Launch(s.(rows := Claimed(Released(s.rows, now, c.stale), now, ids)), ids, now, e.at)
    case RunNow(now, id) => Launch(s.(rows := Claimed(s.rows, now, [id])), [id], now, e.at)
    case Finalise(run, finishedAt) =>
      var x := s.inFlight[run];
      s.(rows := Finalised(s.rows, x.schedule, x.startedAt, finishedAt), inFlight := s.inFlight - {run})
    case Abandon(run) => s.(inFlight := s.inFlight - {run})
    case SetEnabled(now, id, enabled) => s.(rows := Switched(s.rows, id, enabled, now))
    case Create(now, id, interval) =>
      s.(rows := s.rows[id := Schedule(interval, true, false, now, None, now)], known := s.known + {id})
    case Delete(id) => s.(rows := s.rows - {id})
  }

  ghost predicate Legal(c: Config, s: State, trace: seq<Event>)
    decreases |trace|
  {
    trace == [] || (Enabled(c, s, trace[0]) && Legal(c, Apply(c, s, trace[0]), trace[1..]))
  }

  ghost function Run(c: Config, s: State, trace: seq<Event>): State
    requires Legal(c, s, trace)
    decreases |trace|
  {
    if trace == [] then s else Run(c, Apply(c, s, trace[0]), trace[1..])
  }

  ghost predicate MutualExclusion(s: State)
  {
    forall r, q :: r in s.inFlight && q in s.inFlight && r != q ==> s.inFlight[r].schedule != s.inFlight[q].schedule
  }

  ghost predicate Holds(c: Config, s: State, r: nat)
    requires r in s.inFlight
  {
    var x := s.inFlight[r];
    && r < s.issued && x.claimedAt <= s.clock && x.startedAt <= x.claimedAt <= x.startedAt + c.lag
    && x.schedule in s.rows && s.rows[x.schedule].running
    && x.claimedAt - c.lag <= s.rows[x.schedule].updatedAt
  }

  ghost predicate Inv(c: Config, s: State)
  {
    && MutualExclusion(s)
    && s.rows.Keys <= s.known
    && (forall r :: r in s.inFlight ==> Holds(c, s, r))
  }

  // No row with an execution in flight is released as stale.
  lemma NotReleased(c: Config, s: State, at: int, now: int, r: nat)
    requires c.stale > c.bound + c.lag && Inv(c, s) && Timely(c, s, at) && now <= at && r in s.inFlight
    ensures Released(s.rows, now, c.stale)[s.inFlight[r].schedule] == s.rows[s.inFlight[r].schedule]
  {
    assert Holds(c, s, r);
  }

  // Claiming rows nobody works on, and starting one execution for each.
  lemma InvClaim(c: Config, s: State, rows: Rows, ids: seq<nat>, now: int, at: int)
    requires Inv(c, s) && s.clock <= at && now <= at <= now + c.lag && Distinct(ids) && rows.Keys == s.rows.Keys
    requires forall i :: 0 <= i < |ids| ==> ids[i] in rows && !rows[ids[i]].running
    requires forall r :: r in s.inFlight ==> rows[s.inFlight[r].schedule] == s.rows[s.inFlight[r].schedule]
    ensures Inv(c, Launch(s.(clock := at, rows := Claimed(rows, now, ids)), ids, now, at))
  {
    var t := Launch(s.(clock := at, rows := Claimed(rows, now, ids)), ids, now, at);
    forall r | r in s.inFlight
      ensures s.inFlight[r].schedule !in ids && r in t.inFlight && t.inFlight[r] == s.inFlight[r]
    {
      assert Holds(c, s, r);
    }
    forall r | r in t.inFlight ensures Holds(c, t, r) {
      if r in s.inFlight {
        assert Holds(c, s, r);
      } else {
        assert t.inFlight[r] == Execution(ids[r - s.issued], now, at);
      }
    }
  }

  lemma InvStep(c: Config, s: State, e: Event)
    requires c.stale > c.bound + c.lag && Inv(c, s) && Enabled(c, s, e)
    ensures Inv(c, Apply(c, s, e))
  {
    match e.step
    case ClaimDue(now, limit, ids) =>
      var released := Released(s.rows, now, c.stale);
      forall r | r in s.inFlight { NotReleased(c, s, e.at, now, r); }
      forall i | 0 <= i < |ids| ensures ids[i] in released && !released[ids[i]].running {
        assert ids[i] in DueTimes(released, now);
      }
      InvClaim(c, s, released, ids, now, e.at);
    case RunNow(now, id) => InvClaim(c, s, s.rows, [id], now, e.at);
    case _ => InvOther(c, s, e);
  }

  lemma InvOther(c: Config, s: State, e: Event)
    requires Inv(c, s) && Enabled(c, s, e) && !e.step.ClaimDue? && !e.step.RunNow?
    ensures Inv(c, Apply(c, s, e))
  {
    var t := Apply(c, s, e);
    forall r | r in t.inFlight ensures Holds(c, t, r) {
      assert Holds(c, s, r);
    }
  }

  lemma {:induction false} InvRun(c: Config, s: State, trace: seq<Event>)
    requires c.stale > c.bound + c.lag && Inv(c, s) && Legal(c, s, trace)
    ensures Inv(c, Run(c, s, trace))
    decreases |trace|
  {
    if trace != [] {
      InvStep(c, s, trace[0]);
      InvRun(c, Apply(c, s, trace[0]), trace[1..]);
    }
  }

  lemma OneMore(c: Config, s: State, e: Event, rest: seq<Event>)
    requires Enabled(c, s, e) && Legal(c, Apply(c, s, e), rest)
    ensures Legal(c, s, [e] + rest) && Run(c, s, [e] + rest) == Run(c, Apply(c, s, e), rest)
  {
    assert ([e] + rest)[1..] == rest;
  }

  // The runs below are about one schedule, with an interval that no execution outlasts.
  function Interval(c: Config): nat { Max(MIN_INTERVAL, c.bound) }

  function FreshRow(c: Config): Schedule { Schedule(Interval(c), true, false, 0, None, 0) }

  function Created(c: Config): State { State(map[0 := FreshRow(c)], map[], 0, 0, {0}) }

  function Create0(c: Config): Event { Event(0, Create(0, 0, Interval(c))) }

  lemma CreateIsLegal(c: Config)
    ensures Enabled(c, EMPTY, Create0(c)) && Apply(c, EMPTY, Create0(c)) == Created(c)
  {
  }

  // One row that is due is claimed; a running one must be stale by then.
  lemma ClaimOnly(c: Config, s: State, row: Schedule, now: int, at: int)
    requires s.rows == map[0 := row] && row.enabled && row.nextRunAt <= now
    requires Timely(c, s, at) && now <= at <= now + c.lag
    requires row.running ==> row.updatedAt <= now - c.stale
    ensures Enabled(c, s, Event(at, ClaimDue(now, 1, [0])))
    ensures Apply(c, s, Event(at, ClaimDue(now, 1, [0]))) ==
      State(map[0 := row.(running := true, updatedAt := now)], s.inFlight[s.issued := Execution(0, now, at)],
            s.issued + 1, at, s.known)
  {
    var e := Event(at, ClaimDue(now, 1, [0]));
    var released := Released(s.rows, now, c.stale);
    assert DueTimes(released, now) == map[0 := row.nextRunAt];
    assert FirstDue(released, now, 1, [0]);
    var t := Apply(c, s, e);
    assert t.rows == map[0 := row.(running := true, updatedAt := now)];
    assert t.inFlight == s.inFlight[s.issued := Execution(0, now, at)];
  }

  // The latest moment at which the first execution may still be in flight.
  function Latest(c: Config): nat { c.bound + c.lag }

  // Whenever the stale limit is within it: the first execution reads the clock at 0 and commits late, and
  // the second claims the schedule from it at the latest moment.
  function Overlap(c: Config): seq<Event>
  {
    [Create0(c), Event(c.lag, ClaimDue(0, 1, [0])), Event(Latest(c), ClaimDue(Latest(c), 1, [0]))]
  }

  function FirstClaim(c: Config): State
  {
    State(map[0 := FreshRow(c).(running := true)], map[0 := Execution(0, 0, c.lag)], 1, c.lag, {0})
  }

  function Overlapped(c: Config): State
  {
    State(map[0 := FreshRow(c).(running := true, updatedAt := Latest(c))],
          map[0 := Execution(0, 0, c.lag), 1 := Execution(0, Latest(c), Latest(c))], 2, Latest(c), {0})
  }

  lemma OverlapIsLegal(c: Config)
    requires c.stale <= Latest(c)
    ensures Legal(c, EMPTY, Overlap(c)) && Run(c, EMPTY, Overlap(c)) == Overlapped(c)
    ensures !MutualExclusion(Overlapped(c))
  {
    var e := Overlap(c);
    CreateIsLegal(c);
    ClaimOnly(c, Created(c), FreshRow(c), 0, c.lag);
    ClaimOnly(c, FirstClaim(c), FreshRow(c).(running := true), Latest(c), Latest(c));
    OneMore(c, FirstClaim(c), e[2], []);
    OneMore(c, Created(c), e[1], [e[2]] + []);
    OneMore(c, EMPTY, e[0], [e[1]] + ([e[2]] + []));
    assert e == [e[0]] + ([e[1]] + ([e[2]] + []));
    assert Overlapped(c).inFlight[0].schedule == Overlapped(c).inFlight[1].schedule;
  }

  // No schedule ever has two executions in flight, in any run, exactly when the stale limit exceeds
  // the claim-to-finalise bound plus the lag between reading the clock and committing.
  lemma MutualExclusionIffStaleExceedsBound(c: Config)
    ensures (forall trace :: Legal(c, EMPTY, trace) ==> MutualExclusion(Run(c, EMPTY, trace)))
       <==> c.stale > c.bound + c.lag
  {
    if c.stale > c.bound + c.lag {
      forall trace | Legal(c, EMPTY, trace) ensures MutualExclusion(Run(c, EMPTY, trace)) {
        InvRun(c, EMPTY, trace);
      }
    } else {
      OverlapIsLegal(c);
    }
  }

  // With the default settings (three attempts, 300 s timeout, 1 s initial delay) one execution may
  // take 903 s, but a claim counts as stale after 900 s: two executions of a schedule can overlap.
  lemma DefaultsAllowOverlap()
    ensures var c := Config(900000000, Worst(3, 300000000, 1000000), 0);
      c.bound == 903000000 && exists trace :: Legal(c, EMPTY, trace) && !MutualExclusion(Run(c, EMPTY, trace))
  {
    assert Pow2(2) == 4;
    OverlapIsLegal(Config(900000000, 903000000, 0));
  }

  // ---- spacing ----

  // What holds however executions overlap.
  ghost predicate Sane(c: Config, s: State)
  {
    forall r :: r in s.inFlight ==>
      var x := s.inFlight[r];
      && r < s.issued && x.startedAt <= x.claimedAt <= x.startedAt + c.lag && x.claimedAt <= s.clock
      && x.schedule in s.known
  }

  lemma SaneStep(c: Config, s: State, e: Event)
    requires Sane(c, s) && s.rows.Keys <= s.known && Enabled(c, s, e)
    ensures Sane(c, Apply(c, s, e)) && Apply(c, s, e).rows.Keys <= Apply(c, s, e).known
  {
    if e.step.ClaimDue? { AllDue(Released(s.rows, e.step.now, c.stale), e.step.now, e.step.limit, e.step.ids); }
  }

  lemma {:induction false} SaneRun(c: Config, s: State, trace: seq<Event>)
    requires Sane(c, s) && s.rows.Keys <= s.known && Legal(c, s, trace)
    ensures Sane(c, Run(c, s, trace)) && Run(c, s, trace).rows.Keys <= Run(c, s, trace).known
    decreases |trace|
  {
    if trace != [] {
      SaneStep(c, s, trace[0]);
      SaneRun(c, Apply(c, s, trace[0]), trace[1..]);
    }
  }

  // Everything schedule `id` will be given starts no earlier than `base`.
  ghost predicate NotBefore(s: State, id: nat, interval: nat, base: int)
  {
    && base <= s.clock && id in s.known
    && (id in s.rows ==> s.rows[id].interval == interval && s.rows[id].nextRunAt >= base + interval)
    && (forall r :: r in s.inFlight && s.inFlight[r].schedule == id ==> s.inFlight[r].startedAt >= base)
  }

  lemma {:induction false} NotBeforeRun(c: Config, s: State, trace: seq<Event>, id: nat, interval: nat, base: int)
    requires Legal(c, s, trace) && NotBefore(s, id, interval, base) && base + c.lag <= s.clock
    ensures NotBefore(Run(c, s, trace), id, interval, base)
    decreases |trace|
  {
    if trace != [] {
      assert NotBefore(Apply(c, s, trace[0]), id, interval, base);
      NotBeforeRun(c, Apply(c, s, trace[0]), trace[1..], id, interval, base);
    }
  }

  // A run in which an execution is finalised and later a due-claim takes its schedule again.
  ghost predicate ClaimedAgain(c: Config, before: seq<Event>, finalise: Event, after: seq<Event>, claim: Event)
  {
    && Legal(c, EMPTY, before) && finalise.step.Finalise? && claim.step.ClaimDue?
    && var s := Run(c, EMPTY, before);
    && Enabled(c, s, finalise)
    && Legal(c, Apply(c, s, finalise), after)
    && Enabled(c, Run(c, Apply(c, s, finalise), after), claim)
    && s.inFlight[finalise.step.run].schedule in claim.step.ids
    && s.inFlight[finalise.step.run].schedule in s.rows
  }

  // The claim reads the clock an interval after the execution did, less `slack`.
  ghost predicate Spaced(c: Config, before: seq<Event>, run: nat, claim: Event, slack: nat)
    requires Legal(c, EMPTY, before) && run in Run(c, EMPTY, before).inFlight && claim.step.ClaimDue?
  {
    var s := Run(c, EMPTY, before);
    var x := s.inFlight[run];
    x.schedule in s.rows && claim.step.now >= x.startedAt + s.rows[x.schedule].interval - slack
  }

  ghost predicate SpacedWithin(c: Config, slack: nat)
  {
    forall before, finalise, after, claim ::
      ClaimedAgain(c, before, finalise, after, claim) ==> Spaced(c, before, finalise.step.run, claim, slack)
  }

  // What is lost of the interval: the lag, and with overlapping executions also the bound.
  function Loss(c: Config): nat
  {
    if c.stale > c.bound + c.lag then c.lag else c.bound + c.lag
  }

  // When an execution is finalised, others of its schedule in flight started at most the loss earlier.
  lemma FinaliseSetsBase(c: Config, before: seq<Event>, finalise: Event)
    requires Legal(c, EMPTY, before) && finalise.step.Finalise? && Enabled(c, Run(c, EMPTY, before), finalise)
    requires var s := Run(c, EMPTY, before); s.inFlight[finalise.step.run].schedule in s.rows
    ensures var s := Run(c, EMPTY, before);
      var x := s.inFlight[finalise.step.run];
      var t := Apply(c, s, finalise);
      && NotBefore(t, x.schedule, s.rows[x.schedule].interval, x.startedAt - Loss(c))
      && x.startedAt - Loss(c) + c.lag <= t.clock
  {
    var s := Run(c, EMPTY, before);
    SaneRun(c, EMPTY, before);
    if c.stale > c.bound + c.lag { InvRun(c, EMPTY, before); }
  }

  // After an execution finalises, every later due-claim of its schedule is made with a clock reading at
  // least one interval after the execution's own, less the loss: in every run of every configuration.
  lemma DueClaimsAreSpaced(c: Config, before: seq<Event>, finalise: Event, after: seq<Event>, claim: Event)
    requires ClaimedAgain(c, before, finalise, after, claim)
    ensures Spaced(c, before, finalise.step.run, claim, Loss(c))
  {
    var s := Run(c, EMPTY, before);
    var x := s.inFlight[finalise.step.run];
    var t := Apply(c, s, finalise);
    FinaliseSetsBase(c, before, finalise);
    NotBeforeRun(c, t, after, x.schedule, s.rows[x.schedule].interval, x.startedAt - Loss(c));
    var u := Run(c, t, after);
    assert x.schedule in DueTimes(Released(u.rows, claim.step.now, c.stale), claim.step.now);
  }

  // Finalising an execution that read the clock at `startedAt`, whatever ran last, makes the schedule due
  // an interval after that reading.
  function Pulled(c: Config, startedAt: int, finishedAt: int): Schedule
  {
    FreshRow(c).(lastRunAt := Some(startedAt), nextRunAt := startedAt + Interval(c), updatedAt := finishedAt)
  }

  function EarlyClaim(c: Config, clock: nat): Event
  {
    Event(Max(Interval(c), clock), ClaimDue(Interval(c), 1, [0]))
  }

  // An execution that read the clock at 0 is finalised last, at `clock`.
  lemma EarlyClaimIsEnabled(c: Config, clock: nat, issued: nat)
    requires clock <= Latest(c)
    ensures Enabled(c, State(map[0 := Pulled(c, 0, clock)], map[], issued, clock, {0}), EarlyClaim(c, clock))
  {
    ClaimOnly(c, State(map[0 := Pulled(c, 0, clock)], map[], issued, clock, {0}), Pulled(c, 0, clock),
              Interval(c), Max(Interval(c), clock));
  }

  // The lag is lost: a run-now that read the clock early and finalises last pulls the next due time
  // forward.
  function LateStart(c: Config): seq<Event>
  {
    [Create0(c), Event(c.lag, ClaimDue(c.lag, 1, [0]))]
  }

  function LateClaim(c: Config): State
  {
    State(map[0 := FreshRow(c).(running := true, updatedAt := c.lag)], map[0 := Execution(0, c.lag, c.lag)],
          1, c.lag, {0})
  }

  function RunNowPulls(c: Config): seq<Event>
  {
    [Event(c.lag, RunNow(0, 0)), Event(c.lag, Finalise(1, c.lag))]
  }

  lemma LateStartIsLegal(c: Config)
    ensures Legal(c, EMPTY, LateStart(c)) && Run(c, EMPTY, LateStart(c)) == LateClaim(c)
  {
    var e := LateStart(c);
    CreateIsLegal(c);
    ClaimOnly(c, Created(c), FreshRow(c), c.lag, c.lag);
    OneMore(c, Created(c), e[1], []);
    OneMore(c, EMPTY, e[0], [e[1]] + []);
    assert e == [e[0]] + ([e[1]] + []);
  }

  lemma RunNowIsLegal(c: Config)
    ensures var t := Apply(c, LateClaim(c), Event(c.lag, Finalise(0, c.lag)));
      && Legal(c, t, RunNowPulls(c))
      && Run(c, t, RunNowPulls(c)) == State(map[0 := Pulled(c, 0, c.lag)], map[], 2, c.lag, {0})
  {
    var e := RunNowPulls(c);
    var t := Apply(c, LateClaim(c), Event(c.lag, Finalise(0, c.lag)));
    assert t.inFlight == map[];
    var u := Apply(c, t, e[0]);
    assert u.inFlight == map[1 := Execution(0, 0, c.lag)];
    var v := Apply(c, u, e[1]);
    assert v.inFlight == map[] && v.rows == map[0 := Pulled(c, 0, c.lag)];
    OneMore(c, u, e[1], []);
    OneMore(c, t, e[0], [e[1]] + []);
    assert e == [e[0]] + ([e[1]] + []);
  }

  lemma LagIsLost(c: Config, slack: nat)
    requires slack < c.lag
    ensures ClaimedAgain(c, LateStart(c), Event(c.lag, Finalise(0, c.lag)), RunNowPulls(c), EarlyClaim(c, c.lag))
    ensures !Spaced(c, LateStart(c), 0, EarlyClaim(c, c.lag), slack)
  {
    LateStartIsLegal(c);
    RunNowIsLegal(c);
    EarlyClaimIsEnabled(c, c.lag, 2);
  }

  // The bound is lost as well when executions can overlap: the older one finalises after the newer one.
  function OlderFinalises(c: Config): seq<Event>
  {
    [Event(Latest(c), Finalise(0, Latest(c)))]
  }

  lemma OlderFinalisesIsLegal(c: Config)
    ensures var newer := Event(Latest(c), Finalise(1, Latest(c)));
      && Enabled(c, Overlapped(c), newer)
      && var t := Apply(c, Overlapped(c), newer);
      && Legal(c, t, OlderFinalises(c))
      && Run(c, t, OlderFinalises(c)) == State(map[0 := Pulled(c, 0, Latest(c))], map[], 2, Latest(c), {0})
  {
    var t := Apply(c, Overlapped(c), Event(Latest(c), Finalise(1, Latest(c))));
    assert t.inFlight == map[0 := Execution(0, 0, c.lag)];
    var e := OlderFinalises(c)[0];
    var u := Apply(c, t, e);
    assert u.inFlight == map[] && u.rows == map[0 := Pulled(c, 0, Latest(c))];
    OneMore(c, t, e, []);
    assert OlderFinalises(c) == [e] + [];
  }

  lemma OverlapLosesBound(c: Config, slack: nat)
    requires c.stale <= Latest(c) && slack < Latest(c)
    ensures var newer := Event(Latest(c), Finalise(1, Latest(c)));
      ClaimedAgain(c, Overlap(c), newer, OlderFinalises(c), EarlyClaim(c, Latest(c)))
    ensures !Spaced(c, Overlap(c), 1, EarlyClaim(c, Latest(c)), slack)
  {
    OverlapIsLegal(c);
    OlderFinalisesIsLegal(c);
    EarlyClaimIsEnabled(c, Latest(c), 2);
  }

  // How much of the interval is guaranteed, for every configuration: the loss suffices, and nothing less.
  lemma SpacingIsExact(c: Config, slack: nat)
    ensures SpacedWithin(c, slack) <==> slack >= Loss(c)
  {
    if slack >= Loss(c) {
      forall before, finalise, after, claim | ClaimedAgain(c, before, finalise, after, claim)
        ensures Spaced(c, before, finalise.step.run, claim, slack)
      {
        DueClaimsAreSpaced(c, before, finalise, after, claim);
      }
    } else if c.stale > c.bound + c.lag {
      LagIsLost(c, slack);
      var finalise := Event(c.lag, Finalise(0, c.lag));
      assert !Spaced(c, LateStart(c), finalise.step.run, EarlyClaim(c, c.lag), slack);
    } else {
      OverlapLosesBound(c, slack);
      var finalise := Event(Latest(c), Finalise(1, Latest(c)));
      assert !Spaced(c, Overlap(c), finalise.step.run, EarlyClaim(c, Latest(c)), slack);
    }
  }

  // Due-claims are a full interval apart in every run exactly when operations commit at the instant they
  // read the clock and no execution in flight can count as stale.
  lemma FullSpacingIffNoLagAndNoOverlap(c: Config)
    ensures SpacedWithin(c, 0) <==> c.lag == 0 && (c.stale > c.bound || c.bound == 0)
  {
    SpacingIsExact(c, 0);
  }

  // With the default settings 903 s of the interval may be lost even without lag: for a schedule of at
  // most that interval there is no spacing at all.
  lemma DefaultsLoseSpacing(slack: nat)
    ensures var c := Config(900000000, Worst(3, 300000000, 1000000), 0);
      SpacedWithin(c, slack) <==> slack >= 903000000
  {
    assert Pow2(2) == 4;
    SpacingIsExact(Config(900000000, 903000000, 0), slack);
  }

  // ---- a disabled schedule does not run ----

  ghost predicate Off(s: State, id: nat)
  {
    id in s.known && s.rows.Keys <= s.known && (id in s.rows ==> !s.rows[id].enabled)
  }

  lemma OffStep(c: Config, s: State, e: Event, id: nat)
    requires Off(s, id) && Enabled(c, s, e) && !(e.step.SetEnabled? && e.step.id == id && e.step.enabled)
    ensures Off(Apply(c, s, e), id)
  {
  }

  lemma {:induction false} StaysOff(c: Config, s: State, trace: seq<Event>, id: nat)
    requires Legal(c, s, trace) && Off(s, id)
    requires forall i :: 0 <= i < |trace| && trace[i].step.SetEnabled? && trace[i].step.id == id ==>
      !trace[i].step.enabled
    ensures Off(Run(c, s, trace), id)
    decreases |trace|
  {
    if trace != [] {
      OffStep(c, s, trace[0], id);
      StaysOff(c, Apply(c, s, trace[0]), trace[1..], id);
    }
  }

  // Once disabled, a schedule is claimed by no pass over the due ones until it is enabled again.
  lemma DisabledIsNotClaimed(c: Config, before: seq<Event>, off: Event, after: seq<Event>, claim: Event)
    requires off.step.SetEnabled? && !off.step.enabled && claim.step.ClaimDue?
    requires Legal(c, EMPTY, before) && Enabled(c, Run(c, EMPTY, before), off)
    requires Legal(c, Apply(c, Run(c, EMPTY, before), off), after)
    requires Enabled(c, Run(c, Apply(c, Run(c, EMPTY, before), off), after), claim)
    requires forall i :: 0 <= i < |after| && after[i].step.SetEnabled? && after[i].step.id == off.step.id ==>
      !after[i].step.enabled
    ensures off.step.id !in claim.step.ids
  {
    var s := Apply(c, Run(c, EMPTY, before), off);
    SaneRun(c, EMPTY, before);
    StaysOff(c, s, after, off.step.id);
    var t := Run(c, s, after);
    ClaimTakesDue(t.rows, claim.step.now, c.stale, claim.step.limit, claim.step.ids);
  }

  // ---- what is over stays over ----

  ghost predicate Gone(s: State, id: nat)
  {
    id in s.known && id !in s.rows
  }

  ghost predicate Over(s: State, run: nat)
  {
    run < s.issued && run !in s.inFlight
  }

  lemma {:induction false} GoneRun(c: Config, s: State, trace: seq<Event>, id: nat)
    requires Legal(c, s, trace) && Gone(s, id)
    ensures Gone(Run(c, s, trace), id)
    decreases |trace|
  {
    if trace != [] {
      assert Gone(Apply(c, s, trace[0]), id);
      GoneRun(c, Apply(c, s, trace[0]), trace[1..], id);
    }
  }

  lemma {:induction false} OverRun(c: Config, s: State, trace: seq<Event>, run: nat)
    requires Legal(c, s, trace) && Over(s, run)
    ensures Over(Run(c, s, trace), run)
    decreases |trace|
  {
    if trace != [] {
      assert Over(Apply(c, s, trace[0]), run);
      OverRun(c, Apply(c, s, trace[0]), trace[1..], run);
    }
  }

  // A deleted schedule is never claimed again, neither when due nor on request.
  lemma DeletedIsNotClaimed(c: Config, before: seq<Event>, at: int, id: nat, after: seq<Event>, claim: Event)
    requires Legal(c, EMPTY, before) && Enabled(c, Run(c, EMPTY, before), Event(at, Delete(id)))
    requires Legal(c, Apply(c, Run(c, EMPTY, before), Event(at, Delete(id))), after)
    requires Enabled(c, Run(c, Apply(c, Run(c, EMPTY, before), Event(at, Delete(id))), after), claim)
    ensures claim.step.ClaimDue? ==> id !in claim.step.ids
    ensures claim.step.RunNow? ==> claim.step.id != id
  {
    var s := Apply(c, Run(c, EMPTY, before), Event(at, Delete(id)));
    SaneRun(c, EMPTY, before);
    GoneRun(c, s, after, id);
    if claim.step.ClaimDue? {
      ClaimTakesDue(Run(c, s, after).rows, claim.step.now, c.stale, claim.step.limit, claim.step.ids);
    }
  }

  // An execution that was finalised or abandoned is not finalised again.
  lemma EndedIsNotFinalised(c: Config, before: seq<Event>, end: Event, after: seq<Event>, again: Event)
    requires end.step.Finalise? || end.step.Abandon?
    requires Legal(c, EMPTY, before) && Enabled(c, Run(c, EMPTY, before), end)
    requires Legal(c, Apply(c, Run(c, EMPTY, before), end), after)
    requires Enabled(c, Run(c, Apply(c, Run(c, EMPTY, before), end), after), again)
    ensures again.step.Finalise? ==> again.step.run != end.step.run
  {
    SaneRun(c, EMPTY, before);
    OverRun(c, Apply(c, Run(c, EMPTY, before), end), after, end.step.run);
  }

  // ---- no starvation under the serve loop ----

  // One iteration of serve: claim, run everything claimed to its end, finalise each.
  datatype Round = Round(now: int, ids: seq<nat>, finishedAt: nat -> int)

  function FinaliseAll(m: Rows, ids: seq<nat>, startedAt: int, finishedAt: nat -> int): Rows
  {
    if ids == [] then m
    else FinaliseAll(Finalised(m, ids[0], startedAt, finishedAt(ids[0])), ids[1..], startedAt, finishedAt)
  }

  function AfterRound(m: Rows, stale: int, r: Round): Rows
  {
    FinaliseAll(Claimed(Released(m, r.now, stale), r.now, r.ids), r.ids, r.now, r.finishedAt)
  }

  ghost predicate Served(m: Rows, stale: int, limit: nat, rounds: seq<Round>)
    decreases |rounds|
  {
    rounds == [] || (FirstDue(Released(m, rounds[0].now, stale), rounds[0].now, limit, rounds[0].ids)
                     && (|rounds| > 1 ==> rounds[0].now <= rounds[1].now)
                     && Served(AfterRound(m, stale, rounds[0]), stale, limit, rounds[1..]))
  }

  // What comes first in (next_run_at, id) order and can be claimed by then: enabled, and not running or so
  // long that it is released.
  function Before(m: Rows, id: nat, stale: int, last: int): set<nat>
    requires id in m
  {
    set j | j in m && m[j].enabled && (!m[j].running || m[j].updatedAt <= last - stale)
            && Precedes(m[j].nextRunAt, j, m[id].nextRunAt, id)
  }

  lemma {:induction false} FinaliseAllRows(m: Rows, ids: seq<nat>, startedAt: int, finishedAt: nat -> int)
    requires Distinct(ids) && forall i :: 0 <= i < |ids| ==> ids[i] in m
    ensures var f := FinaliseAll(m, ids, startedAt, finishedAt);
      && f.Keys == m.Keys
      && (forall j :: j in m && j !in ids ==> f[j] == m[j])
      && (forall j :: j in m && j in ids ==>
            f[j] == m[j].(running := false, lastRunAt := Some(startedAt), nextRunAt := startedAt + m[j].interval,
                          updatedAt := finishedAt(j)))
  {
    if ids != [] {
      var m1 := Finalised(m, ids[0], startedAt, finishedAt(ids[0]));
      assert forall i :: 0 <= i < |ids[1..]| ==> ids[1..][i] == ids[i + 1];
      FinaliseAllRows(m1, ids[1..], startedAt, finishedAt);
      assert forall j :: j in ids <==> j == ids[0] || j in ids[1..];
    }
  }

  // Executions that ended in another order leave the same rows.
  lemma FinaliseOrderIsIrrelevant(m: Rows, ids: seq<nat>, other: seq<nat>, startedAt: int, finishedAt: nat -> int)
    requires Distinct(ids) && Distinct(other) && forall id :: id in ids <==> id in other
    requires forall i :: 0 <= i < |ids| ==> ids[i] in m
    ensures FinaliseAll(m, ids, startedAt, finishedAt) == FinaliseAll(m, other, startedAt, finishedAt)
  {
    forall i | 0 <= i < |other| ensures other[i] in m { assert other[i] in ids; }
    FinaliseAllRows(m, ids, startedAt, finishedAt);
    FinaliseAllRows(m, other, startedAt, finishedAt);
  }

  // What a round leaves of each row.
  lemma AfterRoundRows(m: Rows, stale: int, limit: nat, r: Round)
    requires FirstDue(Released(m, r.now, stale), r.now, limit, r.ids)
    ensures var n := AfterRound(m, stale, r);
      && n.Keys == m.Keys
      && (forall j :: j in m ==> n[j].enabled == m[j].enabled && n[j].interval == m[j].interval)
      && (forall j :: j in r.ids ==> j in m)
      && (forall j :: j in r.ids ==>
            n[j] == m[j].(running := false, lastRunAt := Some(r.now), nextRunAt := r.now + m[j].interval,
                          updatedAt := r.finishedAt(j)))
      && (forall j :: j in m && j !in r.ids && m[j].running && m[j].updatedAt <= r.now - stale ==>
            n[j] == m[j].(running := false, updatedAt := r.now))
      && (forall j :: j in m && j !in r.ids && (!m[j].running || m[j].updatedAt > r.now - stale) ==> n[j] == m[j])
  {
    var released := Released(m, r.now, stale);
    forall i | 0 <= i < |r.ids| ensures r.ids[i] in m { assert r.ids[i] in DueTimes(released, r.now); }
    FinaliseAllRows(Claimed(released, r.now, r.ids), r.ids, r.now, r.finishedAt);
  }

  lemma TakenComeBefore(m: Rows, stale: int, limit: nat, r: Round, id: nat, last: int)
    requires FirstDue(Released(m, r.now, stale), r.now, limit, r.ids)
    requires Eligible(m, r.now, id) && id !in r.ids && r.now <= last
    ensures Members(r.ids) <= Before(m, id, stale, last) && |Members(r.ids)| == limit
  {
    var released := Released(m, r.now, stale);
    assert id in DueTimes(released, r.now);
    forall j | j in r.ids ensures j in Before(m, id, stale, last) {
      var i :| 0 <= i < |r.ids| && r.ids[i] == j;
      assert r.ids[i] in DueTimes(released, r.now);
    }
    DistinctSize(r.ids);
  }

  ghost predicate Intervals(m: Rows)
  {
    forall j :: j in m ==> m[j].interval >= MIN_INTERVAL
  }

  // A round that passes over a due schedule moves `limit` others from in front of it to behind it.
  lemma RoundMovesOthersBehind(m: Rows, stale: int, limit: nat, r: Round, id: nat, last: int)
    requires FirstDue(Released(m, r.now, stale), r.now, limit, r.ids)
    requires Eligible(m, r.now, id) && id !in r.ids && r.now <= last
    requires Intervals(m)
    ensures var n := AfterRound(m, stale, r);
      && n.Keys == m.Keys && Intervals(n)
      && n[id] == m[id] && |Before(m, id, stale, last)| >= limit
      && |Before(n, id, stale, last)| <= |Before(m, id, stale, last)| - limit
  {
    var n := AfterRound(m, stale, r);
    var taken, before := Members(r.ids), Before(m, id, stale, last);
    AfterRoundRows(m, stale, limit, r);
    TakenComeBefore(m, stale, limit, r, id, last);
    forall j | j in Before(n, id, stale, last) ensures j in before - taken {}
    SubsetSize(Before(n, id, stale, last), before - taken);
    SubsetSize(taken, before);
  }

  lemma {:induction false} SubsetSize(a: set<nat>, b: set<nat>)
    requires a <= b
    ensures |a| <= |b|
  {
    assert b == a + (b - a);
  }

  lemma {:induction false} RoundsAreInOrder(m: Rows, stale: int, limit: nat, rounds: seq<Round>, i: nat)
    requires Served(m, stale, limit, rounds) && i < |rounds|
    ensures rounds[0].now <= rounds[i].now
    decreases i
  {
    if i > 0 { RoundsAreInOrder(AfterRound(m, stale, rounds[0]), stale, limit, rounds[1..], i - 1); }
  }

  ghost predicate ClaimedBy(rounds: seq<Round>, id: nat, k: nat)
  {
    exists i :: 0 <= i <= k && i < |rounds| && id in rounds[i].ids
  }

  lemma ClaimedLater(rounds: seq<Round>, id: nat, k: nat)
    requires rounds != [] && ClaimedBy(rounds[1..], id, k)
    ensures ClaimedBy(rounds, id, k + 1)
  {
    var i :| 0 <= i <= k && i < |rounds[1..]| && id in rounds[1..][i].ids;
    assert id in rounds[i + 1].ids;
  }

  // A schedule passed over is due again in the next round, with fewer before it.
  lemma PassedOver(m: Rows, stale: int, limit: nat, rounds: seq<Round>, id: nat, last: int)
    requires Served(m, stale, limit, rounds) && Intervals(m) && rounds != [] && rounds[|rounds| - 1].now == last
    requires Eligible(m, rounds[0].now, id) && id !in rounds[0].ids
    ensures var n := AfterRound(m, stale, rounds[0]);
      && Served(n, stale, limit, rounds[1..]) && Intervals(n)
      && (|rounds| > 1 ==> Eligible(n, rounds[1].now, id))
      && id in n && |Before(n, id, stale, last)| + limit <= |Before(m, id, stale, last)|
  {
    RoundsAreInOrder(m, stale, limit, rounds, |rounds| - 1);
    RoundMovesOthersBehind(m, stale, limit, rounds[0], id, last);
  }

  lemma OneRoundLess(n: nat, after: nat, limit: nat, k: nat)
    requires n < limit * (k + 1) && after + limit <= n
    ensures k >= 1 && after < limit * k
  {
    assert limit * (k + 1) == limit * k + limit;
  }

  lemma {:induction false} ClaimedWithin(m: Rows, stale: int, limit: nat, rounds: seq<Round>, id: nat, k: nat,
                                         last: int)
    requires Served(m, stale, limit, rounds) && Intervals(m)
    requires |rounds| > k && rounds[|rounds| - 1].now == last && Eligible(m, rounds[0].now, id)
    requires |Before(m, id, stale, last)| < limit * (k + 1)
    ensures ClaimedBy(rounds, id, k)
    decreases k
  {
    if id !in rounds[0].ids {
      var n := AfterRound(m, stale, rounds[0]);
      PassedOver(m, stale, limit, rounds, id, last);
      OneRoundLess(|Before(m, id, stale, last)|, |Before(n, id, stale, last)|, limit, k);
      ClaimedWithin(n, stale, limit, rounds[1..], id, k - 1, last);
      ClaimedLater(rounds, id, k - 1);
    }
  }

  // Under the serve loop alone a due schedule is claimed within n / limit + 1 rounds, n being how many
  // before it in (next_run_at, id) order can be claimed by the last of the rounds.
  lemma NoStarvation(m: Rows, stale: int, limit: nat, rounds: seq<Round>, id: nat)
    requires limit >= 1 && Served(m, stale, limit, rounds) && Intervals(m)
    requires rounds != [] && Eligible(m, rounds[0].now, id)
    requires |rounds| >= |Before(m, id, stale, rounds[|rounds| - 1].now)| / limit + 1
    ensures ClaimedBy(rounds, id, |Before(m, id, stale, rounds[|rounds| - 1].now)| / limit)
  {
    var last := rounds[|rounds| - 1].now;
    var k := |Before(m, id, stale, last)| / limit;
    BelowNextMultiple(|Before(m, id, stale, last)|, limit);
    ClaimedWithin(m, stale, limit, rounds, id, k, last);
  }
}
