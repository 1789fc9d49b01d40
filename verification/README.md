# UniFi MCP server: verified core

This project models the stateful protocols and the algorithms at the core of the UniFi MCP server in
Dafny and proves what they are relied on for. `dafny verify dfyconfig.toml` checks all of it.

An object whose methods change it is a class; every such method is tied to a function of the old
state, and the properties are proved about those functions. Where operations interleave (requests
around awaits, transactions of several workers), the same functions are the steps of a transition
system and the theorems speak about every legal run from the empty state: each run is a sequence of
steps, each of which was enabled when it was taken. A database transaction is one atomic step.

- `ReadCache`, `CacheKeys`: the read cache shared by all clients, guarded by a generation, and its keys.
- `Store`, `DueOrder`, `IsoTime`: transactions, `ORDER BY ... LIMIT`, and why comparing timestamps as
  text is right.
- `Scheduler`, `Webhooks`, `WebhookBatches`: claim, execute, finalise, with recovery of stale claims.
- `EventStore`, `Polling`: deduplicated ingestion with fan-out, fed by overlapping polls.
- `Prefixes`, `Dhcp`: DHCP pools in prefix blocks, and what network creation and update send.
- `PortOverrides`: merging requested port changes into a device's overrides.
- `Trends`: bucketing observations in one pass.
- `Json`, `JsonTexts`, `Utf8`, `UtcText`, `SnapshotModels`, `SnapshotCodec`: canonical snapshots and their checksum.
- `Plugins`: staged registration of plugins.
- `Jwks`: the key-set cache of the OIDC verifier.
- `Ordering`, `Arithmetic`, `Common`: text and tuple order, sorting, small arithmetic.

Some properties one would expect hold only under a condition. Each is proved with its exact condition
and with a run or an input on which it fails otherwise. In the first three, "bound" is the longest time
from a claim to its final write, and "lag" the time between reading the clock and committing:

- Executions of a schedule exclude each other, and finished webhook deliveries stay finished, exactly
  when the stale limit exceeds bound plus lag. For schedules the default settings do not meet this
  (903 s against 900 s). For webhooks, whose batches are delivered row by row inside a job, the bound is
  the smaller of rows times time per row and the job timeout, and the condition is exact among runs of
  such batches too; the default timeout of 300 s meets it.
- Due-claims of a schedule are an interval apart less the lag when the stale limit exceeds bound plus
  lag, and less bound plus lag otherwise; nothing less is lost. A full interval is guaranteed exactly
  without lag and with a stale limit above the bound, so not with the default settings.
- Webhook retries back off as the formula says exactly when the stale limit exceeds bound plus lag (or
  nothing is retried): of two workers holding one delivery, the slower one can pull the next attempt
  forward.
- A Protect event is never skipped exactly when it becomes visible within the overlap and one
  millisecond more, and a first poll without a watermark reaches back 24 hours only. A Network event can
  be missed by polls that begin while a page without it is still in the read cache, and by no others.
- The mean of a trend bucket lies between its samples as long as no partial sum is rounded, as for
  integers with sums up to 2^53; three samples of 0.1 have a mean above 0.1.
- Repeating a port update changes nothing exactly when no change lacks its `port_idx`. The docstring
  requires one, but the code lets a change without it through when the port table has an entry without
  one, and appends it again each time.
- A cache key does not tell `1` from `True`, nor an empty mapping from an empty list, nor a mapping
  from a list that looks like its sorted items, at any depth; otherwise keys are exact.
- A DHCP pool may contain the gateway address, as long as it is not one of its ends.

Times are integers in microseconds (milliseconds for polling, as the source has them). Hash functions,
timestamp formats other than the printed one and the parsing of IP addresses are parameters.

## Model

| member | source | states |
|---|---|---|
| `IsoTime.TextOrderIsTimeOrder` | src/unifi_mcp/runtime/scheduler.py:197-223 | For all UTC datetimes of years 1 to 9999, text order of `isoformat()` strings is exactly order in time (strict and non-strict), and equal text is the equal datetime, although the fraction is present only when non-zero |
| `IsoTime.IsoTextOrder` | src/unifi_mcp/runtime/observations.py:78-79 | Text order of two timestamps is the lexicographic order of their date and clock fields |
| `IsoTime.TailOrder` | src/unifi_mcp/runtime/webhooks.py:258-283 | Because `+` sorts before `.`, the seconds-only form comes before every form with a fraction, and fractions compare as numbers |
| `IsoTime.YearsFit` | src/unifi_mcp/runtime/services.py:270-286 | A later year starts after every day of an earlier one (Gregorian leap years), so the order of date fields is the order of instants |
| `IsoTime.TickIsOneLater` | src/unifi_mcp/runtime/services.py:270-286 | Every valid datetime but the last is followed, as clock and calendar go on, by a valid one whose instant is a microsecond later |
| `IsoTime.KnownYears` | src/unifi_mcp/runtime/services.py:270-286 | Day counts of three years as Python has them |
| `ReadCache.AppContext.BeginRequest` | src/unifi_mcp/clients/base.py:183-208 | Up to the first await: a hit exactly for a cacheable, not fresh request whose key is present; otherwise a mutation or fresh read clears the cache and bumps the generation, a cached read changes nothing, and the request carries the generation it then sees |
| `ReadCache.AppContext.FinishRequest` | src/unifi_mcp/clients/base.py:235-253 | From `finally` on: a mutation always clears and bumps; a fresh read does so and stores only if its generation still stands; a successful cached read whose generation stands adds its response and leaves every other entry and the generation alone; any other end changes nothing |
| `ReadCache.InvStep` | src/unifi_mcp/clients/base.py:160-253 | Every step (dispatch, controller change, response, 401 retry, success, failure, cancellation, eviction) keeps: every cached value, and every response that could still be stored, is a value the controller held at or after the end of the latest mutation |
| `ReadCache.CachedReadsAreCoherent` | src/unifi_mcp/clients/base.py:183-253 | In every run, every cached value was the controller's value no earlier than the end of the latest mutation; with no mutation in flight it is the controller's current value |
| `ReadCache.StoredReadsHit` | src/unifi_mcp/clients/base.py:201-253 | In every run, after a successful cached read whose generation stands, and until its entry is invalidated, evicted or replaced, every read of its key is answered from the cache with its response; entries of other keys stay in the same way |
| `ReadCache.OnlyStoresAdd` | src/unifi_mcp/clients/base.py:235-253 | No other step puts an entry into the cache or changes one |
| `ReadCache.OvertakenReadIsDropped` | src/unifi_mcp/clients/base.py:205-253 | The run in which a mutation overtakes a read: the old answer is not stored, and the next read sends its own request and gets the new value, which is |
| `ReadCache.OlderRequestsNeverStore` | src/unifi_mcp/clients/base.py:205-253 | After a fresh read has stored its response, whatever happens next, no request dispatched before that moment puts anything in the cache |
| `CacheKeys.SameArgumentsSameKey` | src/unifi_mcp/clients/base.py:73-91 | Arguments that are equal as Python values get equal keys: insertion order of mappings is forgotten at every depth |
| `CacheKeys.SameKeySameArguments` | src/unifi_mcp/clients/base.py:73-91 | Equal keys mean equal arguments, when no list inside reads like a sorted list of name-value pairs |
| `CacheKeys.KeysAreExact` | src/unifi_mcp/clients/base.py:73-91 | For such arguments two keys are equal if and only if the arguments are |
| `CacheKeys.ScalarsShareKeyIffEqual` | src/unifi_mcp/clients/base.py:86-91 | Two scalars share a key if and only if they are equal in Python: integers when they are the same integer, flags and floats by their numeric value, texts when they are the same text |
| `CacheKeys.KeyIsOwnIffUnambiguous` | src/unifi_mcp/clients/base.py:73-91 | The condition is exact at every depth: an argument shares its key only with equal arguments, among those without such lists, if and only if it has no list inside, nested anywhere, that reads like sorted name-value pairs |
| `CacheKeys.RereadKeepsKey` | src/unifi_mcp/clients/base.py:76-84 | Reading every such list as the mapping it looks like keeps the key and leaves nothing ambiguous |
| `CacheKeys.RequestsShareKeyIffSame` | src/unifi_mcp/clients/base.py:189-200 | Two reads share a cache entry if and only if base URL, device and endpoint agree and their arguments are equal |
| `CacheKeys.ListCollidesWithMapping` | src/unifi_mcp/clients/base.py:76-84 | A list has the key of some mapping if and only if it reads like sorted name-value pairs |
| `CacheKeys.DifferentRequestsOneKey` | src/unifi_mcp/clients/base.py:73-91 | Two concrete collisions: `limit=1` with `limit=True`, and an empty mapping with an empty list |
| `Store.RuntimeStore.Begin` | src/unifi_mcp/runtime/store.py:332-340 | A transaction opens only on an open store and remembers the tables |
| `Store.RuntimeStore.Rollback` | src/unifi_mcp/runtime/store.py:341-345 | A rollback restores the tables of the beginning |
| `DueOrder.SelectFirst` | src/unifi_mcp/runtime/scheduler.py:214-224 | The rows selected are at most `limit`, in (time, id) order, and every due row left out comes after a full selection |
| `DueOrder.FirstIsUnique` | src/unifi_mcp/runtime/webhooks.py:267-284 | That description determines the selection, so the query's answer is a function of the rows |
| `Scheduler.Scheduler.ClaimDue` | src/unifi_mcp/runtime/scheduler.py:195-231 | One transaction: running history rows that started before the stale limit are marked interrupted, stale running schedules are released, the first due schedules are returned and marked running at the clock reading, everything else is unchanged; on a closed store nothing changes |
| `Scheduler.ClaimTakesDue` | src/unifi_mcp/runtime/scheduler.py:197-223 | What a pass claims: enabled schedules whose time has come and that are idle or stale; one of those is left out only behind `limit` others that come first by time and id |
| `Scheduler.DisabledIsNotClaimed` | src/unifi_mcp/runtime/scheduler.py:155-223 | In every run, no pass claims a disabled schedule until it is enabled again |
| `Scheduler.DeletedIsNotClaimed` | src/unifi_mcp/runtime/scheduler.py:164-223 | In every run, a deleted schedule is claimed by no later pass or run-now call |
| `Scheduler.EndedIsNotFinalised` | src/unifi_mcp/runtime/scheduler.py:284-316 | In every run, an execution that was finalised or abandoned is not finalised again |
| `Scheduler.Scheduler.ClaimNow` | src/unifi_mcp/runtime/scheduler.py:339-359 | Run-now claims exactly an existing row that is not running, due or not, and otherwise changes nothing |
| `Scheduler.Scheduler.SetEnabled` | src/unifi_mcp/runtime/scheduler.py:155-162 | Sets `enabled` and `updated_at` of an existing row and reports whether there was one |
| `Scheduler.Scheduler.Delete` | src/unifi_mcp/runtime/scheduler.py:164-170 | Deletes exactly a schedule that is not running; its history rows lose the reference |
| `Scheduler.Scheduler.Finalise` | src/unifi_mcp/runtime/scheduler.py:284-316 | The unconditional final write: the history row takes the result whatever it says by then, the schedule is not running and next due one interval after the start of this execution |
| `Scheduler.Scheduler.Execute` | src/unifi_mcp/runtime/scheduler.py:233-329 | One execution alone with the database: its history row ends with the status and attempt the retry loop ends with, its schedule is finalised, nothing else changes |
| `Scheduler.Scheduler.RunDue` | src/unifi_mcp/runtime/scheduler.py:331-337 | A pass with the limit clamped to 1..100 that claims and then executes every claimed schedule leaves exactly the schedules of one round of the serve loop, and an ended history row for each |
| `Scheduler.FinaliseOrderIsIrrelevant` | src/unifi_mcp/runtime/scheduler.py:335-337 | In whatever order the executions of a pass end, they leave the same schedules |
| `Scheduler.RunAttempts` | src/unifi_mcp/runtime/scheduler.py:248-282 | The retry loop: which attempt it ends in and why, its exact time in handler calls and pauses, and that this is at most A*T + d*(2^(A-1)-1); an unavailable job or invalid arguments fail without a call; how often a job is tried is in Scheduler.AttemptsFollowJob |
| `Scheduler.AttemptsFollowJob` | src/unifi_mcp/runtime/scheduler.py:262-282 | A job that is not retryable is tried once; a retryable one is given up as failed only in attempt max(1, max_attempts), and an attempt before that which raises is followed by another unless its pause is cut short |
| `Scheduler.TimeIsSpent` | src/unifi_mcp/runtime/scheduler.py:261-282 | The time of an execution: the attempts before the last with their whole pauses, the last attempt, and as much of its pause as passed before it was cut short |
| `Scheduler.EndIsDetermined` | src/unifi_mcp/runtime/scheduler.py:248-282 | Job, limits and behaviour of the handler determine status, attempt and time |
| `Scheduler.WorstIsReached` | src/unifi_mcp/runtime/scheduler.py:261-282 | Full timeouts and full pauses add up to exactly that bound |
| `Scheduler.TimeoutsReachWorst` | src/unifi_mcp/runtime/scheduler.py:261-282 | The retry loop of a handler that always uses its whole timeout ends failed after exactly that bound |
| `Scheduler.InvStep` | src/unifi_mcp/runtime/scheduler.py:195-231 | Every step keeps: no schedule has two executions in flight and each one's row is running and recent, when the stale limit exceeds bound plus lag |
| `Scheduler.MutualExclusionIffStaleExceedsBound` | src/unifi_mcp/runtime/scheduler.py:195-359 | No run of claims, run-now calls, toggles, creations, deletions, finalisations and crashes ever has two executions of one schedule in flight, if and only if the stale limit exceeds the claim-to-finalise bound plus the lag between reading the clock and committing |
| `Scheduler.DefaultsAllowOverlap` | src/unifi_mcp/config.py:169-172 | With the default settings the bound is 903 s against a stale limit of 900 s, and some run overlaps |
| `Scheduler.DueClaimsAreSpaced` | src/unifi_mcp/runtime/scheduler.py:214-316 | In every run of every configuration, after an execution finalises, every later due-claim of its schedule reads the clock at least one interval after the execution's own reading, less the loss: the lag when the stale limit exceeds bound plus lag, and bound plus lag otherwise |
| `Scheduler.SpacingIsExact` | src/unifi_mcp/runtime/scheduler.py:195-316 | The loss is exact for every configuration: spacing within a slack holds in all runs if and only if the slack is at least the loss |
| `Scheduler.FullSpacingIffNoLagAndNoOverlap` | src/unifi_mcp/runtime/scheduler.py:195-316 | Due-claims are a full interval apart in all runs if and only if the lag is zero and the stale limit exceeds the bound (or the bound is zero) |
| `Scheduler.DefaultsLoseSpacing` | src/unifi_mcp/config.py:169-172 | With the default settings 903 s of the interval can be lost, and no more, without any lag |
| `Scheduler.LagIsLost` | src/unifi_mcp/runtime/scheduler.py:339-359 | The run that loses the lag: a run-now that read the clock early and finalises last pulls the next due time forward |
| `Scheduler.OverlapLosesBound` | src/unifi_mcp/runtime/scheduler.py:195-316 | The run that loses the bound: of two overlapping executions the older one finalises last |
| `Scheduler.RoundMovesOthersBehind` | src/unifi_mcp/runtime/scheduler.py:331-337 | A round that passes over a due schedule moves `limit` enabled others from before it to behind it and leaves its row unchanged |
| `Scheduler.NoStarvation` | src/unifi_mcp/runtime/scheduler.py:361-365 | Under the serve loop alone, a due schedule with n schedules before it in (next_run_at, id) order that can be claimed by the last of the rounds (enabled, and not running or stale by then) is claimed within n / limit + 1 rounds |
| `Webhooks.WebhookService.ClaimDue` | src/unifi_mcp/runtime/webhooks.py:256-291 | One transaction: stale delivering rows return to retry, are due at once and noted as stale claims, the first due rows of enabled destinations are returned and marked delivering, everything else is unchanged |
| `Webhooks.ClaimTakesDue` | src/unifi_mcp/runtime/webhooks.py:258-283 | What a claim takes: deliveries to enabled destinations that are pending or in retry with a next attempt not after now, or stale; one of those is left out only behind `limit` others that come first by next attempt and id |
| `Webhooks.OffIsNotClaimed` | src/unifi_mcp/runtime/webhooks.py:265-283 | In every run, no delivery is claimed while its destination is off |
| `Webhooks.RemovedIsNotClaimed` | src/unifi_mcp/runtime/webhooks.py:265-291 | In every run, a removed delivery is not claimed again |
| `Webhooks.EndedIsNotRecorded` | src/unifi_mcp/runtime/webhooks.py:293-321 | In every run, a claim that was recorded or abandoned is not recorded again |
| `Webhooks.WebhookService.RecordResult` | src/unifi_mcp/runtime/webhooks.py:293-321 | The unconditional write of status, attempt count, HTTP status, error code and next attempt min(300, 2^(k-1)) s after the claim's clock reading |
| `Webhooks.WebhookService.Deliver` | src/unifi_mcp/runtime/webhooks.py:323-404 | One attempt: what is stored for each outcome, dead_letter with attempts_exhausted exactly on the last retryable failure, no error code exactly when delivered, and that `delivered` and `retry` are reported exactly for a 2xx answer and for a retryable failure with attempts left |
| `Webhooks.WebhookService.DeliverDue` | src/unifi_mcp/runtime/webhooks.py:406-412 | A pass with the limit clamped to 1..1000, ended by an exception after any number of rows: every row up to there has exactly one more attempt recorded, the other claimed rows stay claimed, every other row is as the claim left it |
| `Webhooks.PassLeaves` | src/unifi_mcp/runtime/webhooks.py:323-412 | Row by row what a pass leaves: attempted rows have one more attempt, the state that their outcome and the attempts left call for, and their next attempt after the backoff; claimed rows it did not get to are delivering; all others are untouched |
| `Webhooks.AttemptsStayWithinLimit` | src/unifi_mcp/runtime/webhooks.py:386-402 | In every run, races of stale claims included: unfinished rows have fewer than max_attempts attempts, terminal rows 1 to max_attempts, dead_letter rows exactly max_attempts |
| `Webhooks.EndsWithinMaxAttempts` | src/unifi_mcp/runtime/webhooks.py:256-402 | Without stale overlap a delivery was recorded exactly as often as its row says, at most max_attempts times, and is terminal when that many |
| `Webhooks.TerminalStableIffStaleExceedsBound` | src/unifi_mcp/runtime/webhooks.py:256-321 | Terminal rows never change in any run if and only if the stale limit exceeds the claim-to-record bound plus lag |
| `Webhooks.RaceOverwrites` | src/unifi_mcp/runtime/webhooks.py:293-321 | The run that shows it: two workers hold one delivery, the first records delivered, the second overwrites it |
| `Webhooks.RetriesBackOff` | src/unifi_mcp/runtime/webhooks.py:304-321 | When the stale limit exceeds bound plus lag, every claim after attempt k reads the clock at least min(300, 2^(k-1)) s after attempt k's claim did |
| `Webhooks.BackOffIffStaleExceedsBound` | src/unifi_mcp/runtime/webhooks.py:256-321 | With the positive stale limit of the constructor, this holds in all runs if and only if the stale limit exceeds bound plus lag or only a single attempt is allowed |
| `Webhooks.RaceForgetsBackoff` | src/unifi_mcp/runtime/webhooks.py:304-321 | The run that shows it: two workers hold one delivery, both fail, and the one that claimed first records last |
| `WebhookBatches.TerminalStableIffBatchesEndInTime` | src/unifi_mcp/runtime/webhooks.py:406-412 | In the runs whose claims are batches, of up to `limit` rows recorded one after the other within the time per row, by jobs with a timeout, finished deliveries stay finished if and only if the stale limit exceeds rows times time per row, or the job timeout, plus lag; `deliver_due` makes the limit at least one |
| `WebhookBatches.BatchBoundIsReached` | src/unifi_mcp/runtime/webhooks.py:411-412 | The smaller of rows times time per row and the job timeout is reached by some batch |
| `WebhookBatches.BatchWithinBound` | src/unifi_mcp/runtime/webhooks.py:411-412 | No row is recorded later than that before its job is cancelled |
| `WebhookBatches.BatchesAreLegal` | src/unifi_mcp/runtime/webhooks.py:406-412 | In every run of such batches, with rows given up by failed or cancelled workers, each claim is held no longer than the smaller of rows times time per row and the job timeout |
| `WebhookBatches.LongBatchOverwrites` | src/unifi_mcp/runtime/webhooks.py:293-321 | The run of batches that shows the other half: one worker claims all rows and records all but the last, a second one takes the last row over when it is stale and finishes it, and the first one, still in time, overwrites it |
| `WebhookBatches.DefaultBatchesEndInTime` | src/unifi_mcp/config.py:169-179 | In runs of batches the default job timeout of 300 s meets the condition for batches of any size; a timeout of an hour does not for 100 rows of 10 s |
| `EventStore.EventRepository.InsertBatch` | src/unifi_mcp/runtime/events.py:26-108 | Commits the whole batch (new events, their deliveries, the cursor) or, at whatever statement the database fails, leaves everything as it was; inserted is the growth of the table and inserted + duplicates the length of the batch |
| `EventStore.EventRepository.EnqueueFor` | src/unifi_mcp/runtime/events.py:69-86 | One pending delivery for each enabled destination without categories or with the event's category, in order |
| `EventStore.IngestionIsExactlyOnce` | src/unifi_mcp/runtime/events.py:37-108 | Over every history of batches with duplicates inside and across them, aborts and changes of destinations: the table is the map from key to first arrival, and each stored event has exactly one delivery for each destination that was enabled and matched at that moment, and no other |
| `EventStore.ReplayedBatchIsIgnored` | src/unifi_mcp/runtime/events.py:50-70 | Ingesting events that are all stored already changes no event and no delivery |
| `EventStore.CursorIsLastCommitted` | src/unifi_mcp/runtime/events.py:88-122 | Over every history the cursor read for a scope is that of its last committed batch: aborted batches and those of other scopes leave no trace, and without any there is none |
| `Polling.EventPoller.PollSource` | src/unifi_mcp/events/poller.py:69-110 | One isolated source, Protect or Network, each with its page limit: ok exactly for an open store, a page below the limit and a batch that commits, and then the page and the new cursor are committed and counted; timeout exactly for an open store and no answer in time; otherwise an error; without ok the tables are unchanged and the counts zero |
| `Polling.CursorFor` | src/unifi_mcp/events/sources.py:31-37 | An empty page keeps the watermark; otherwise it is the largest rounded event time of the page, and that of one of its events |
| `Polling.RoundMsIsNearest` | src/unifi_mcp/events/sources.py:36 | The rounding is to the nearest millisecond, ties to even |
| `Polling.StepsAreIsolated` | src/unifi_mcp/events/poller.py:70-116 | Only a commit of a source moves its cursor, a failed poll leaves the tables and all other polls as they were, and another source's commit stores its events and its cursor |
| `Polling.NoEventIsSkipped` | src/unifi_mcp/events/sources.py:82-92 | In every run of failing, refused and overlapping polls, an event that becomes visible within the overlap and one millisecond more (a Network event with any delay) is stored by the first commit of a poll begun after it is visible (for Network, whose pages may come from the read cache, by at least the cache lifetime and the longest request, less a millisecond), and until it is stored the committed watermark still asks for it |
| `Polling.OverlapIsExact` | src/unifi_mcp/events/sources.py:82-92 | For Protect the delay bound is exact: an event is kept in every run if and only if it becomes visible within the overlap and one millisecond more |
| `Polling.LateEventIsSkipped` | src/unifi_mcp/events/sources.py:31-37 | The run that loses a later event: another event moves the watermark past it before it is visible |
| `Polling.CacheDelayIsExact` | src/unifi_mcp/clients/base.py:183-253 | For Network the delay is exact: every poll begun that long after an event is visible stores it with its commit, in every run, if and only if nothing is ever cached or the delay is at least the lifetime of the read cache and the longest request, less a millisecond |
| `Polling.CachedPageMisses` | src/unifi_mcp/clients/network.py:762-785 | The run that shows it: a poll just before the event is visible fills the cache, and the next one, begun as late as a shorter delay allows, is answered from there and commits without the event |
| `Polling.CommitStoresIffInWindow` | src/unifi_mcp/events/sources.py:82-92 | Whatever its delay, an event visible when the poll's page was read is stored after a commit if and only if it was stored before, or the source is Network, or it is not older than the start of the poll's window |
| `Polling.FirstPollStoresIffWithinDay` | src/unifi_mcp/events/sources.py:85 | A poll that found no watermark stores an event visible when its page was read if and only if, for Protect, it began within 24 h of it |
| `Prefixes.AndMask` | src/unifi_mcp/tools/network/sites.py:284-300 | Masking with leading ones clears the host bits |
| `Prefixes.KnownBlocks` | src/unifi_mcp/tools/network/sites.py:284-311 | Four addresses in an IPv4 /30 and in an IPv6 /126 |
| `Prefixes.BlockIsInterval` | src/unifi_mcp/tools/network/sites.py:298-307 | Membership by mask is agreement of the prefix bits, and a prefix block (section 3.1 of RFC 4632) is the interval from network to broadcast address |
| `Dhcp.ValidationIsExact` | src/unifi_mcp/tools/network/sites.py:284-311 | The range is accepted if and only if every address from start to stop is a host of the subnet's block (for IPv4 strictly between network and broadcast address), start <= stop, and neither end is the interface address |
| `Dhcp.RangeErrorsAreTrue` | src/unifi_mcp/tools/network/sites.py:284-311 | Each error says of the range what it claims, in terms of the prefix block |
| `Dhcp.GatewayMayLieInside` | src/unifi_mcp/tools/network/sites.py:300-301 | Only the ends are kept off the gateway: an accepted pool may contain it |
| `Dhcp.PlanUpdate` | src/unifi_mcp/tools/network/sites.py:518-643 | A payload is sent if and only if the arguments pass and, when the update touches the pool, the record overlaid with the payload has a usable pool; the payload has exactly the asked fields; otherwise the refusal given is the first, in the order of the code, that is true of the update |
| `Dhcp.SentIffNothingRefuses` | src/unifi_mcp/tools/network/sites.py:518-643 | An update is sent if and only if no refusal is true of it |
| `Dhcp.PlanCreate` | src/unifi_mcp/tools/network/sites.py:356-415 | When a create payload is sent, its exact fields, and that it establishes a valid pool; otherwise the first refusal that is true of the arguments |
| `Dhcp.PoolIsCheckedWhenTouched` | src/unifi_mcp/tools/network/sites.py:586-643 | An update is refused for its pool if and only if the pool is not usable and the update sets an end of it, or gives a subnet and no end while DHCP is on or an end is set |
| `Dhcp.CreatedIffNothingRefuses` | src/unifi_mcp/tools/network/sites.py:356-415 | A network is created if and only if no refusal is true of the request |
| `Dhcp.OnlyGivenFieldsChange` | src/unifi_mcp/tools/network/sites.py:602-625 | An update changes no field it was not given |
| `Dhcp.GivenFieldsAreSet` | src/unifi_mcp/tools/network/sites.py:602-643 | After an update that was sent, every field that was given is as given; VLAN -1 switches VLANs off, both pool ends switch DHCP on and both cleared switch it off |
| `Dhcp.PayloadIsWhatWasGiven` | src/unifi_mcp/tools/network/sites.py:602-625 | The payload has what was given, and nothing that was not |
| `Dhcp.StripIsExact` | src/unifi_mcp/tools/network/sites.py:602-604 | Names lose the white space at both ends and nothing else |
| `Dhcp.UpdateKeepsPoolValid` | src/unifi_mcp/tools/network/sites.py:586-643 | For every combination of given, omitted and empty fields, an update keeps: DHCP enabled implies a pool usable in the record's subnet |
| `Dhcp.PoolStaysValid` | src/unifi_mcp/tools/network/sites.py:586-643 | Hence any sequence of updates keeps it |
| `PortOverrides.UpdateDevicePorts` | src/unifi_mcp/clients/network.py:485-542 | A payload exactly for an acceptable request, equal to the overlay by port number; each refusal's reason is true of the request |
| `PortOverrides.AcceptableIffNothingApplies` | src/unifi_mcp/clients/network.py:485-542 | A request is acceptable if and only if no reason for a refusal is true of it |
| `PortOverrides.MergeChanges` | src/unifi_mcp/clients/network.py:513-541 | The list with its position index computes the overlay, and stops exactly when a requested index is not in the port table |
| `PortOverrides.DistinctNonNull` | src/unifi_mcp/clients/network.py:500-508 | Accepts exactly lists whose non-null port indexes are distinct |
| `PortOverrides.ExistingEntriesKeepUnrequested` | src/unifi_mcp/clients/network.py:513-535 | Existing entries keep their place, index and every field not requested for that index |
| `PortOverrides.RequestedFieldsAreSet` | src/unifi_mcp/clients/network.py:527-538 | Every requested field is in force in an entry with the requested index |
| `PortOverrides.NewEntriesHaveOnlyRequested` | src/unifi_mcp/clients/network.py:527-539 | An added entry has the port index and the requested fields, as requested, and nothing else |
| `PortOverrides.IndexesStayUnique` | src/unifi_mcp/clients/network.py:500-541 | Port indexes stay unique |
| `PortOverrides.RepeatingChangesNothingIffIndexed` | src/unifi_mcp/clients/network.py:521-541 | Repeating a request changes nothing if and only if no change in it lacks a port index |
| `PortOverrides.UnindexedRequestRepeats` | src/unifi_mcp/clients/network.py:497-538 | An accepted request without a port index, possible when the port table has an entry without one |
| `Trends.QueryTrend` | src/unifi_mcp/runtime/observations.py:54-113 | Valid queries, and only those, return one bucket per index, each equal to filtering the rows for its interval; its count is the number of rows there with the kind, source, controller, site and a number for the metric, and its value times its count is what they add up to; a query is valid for a known metric, 60 to 86400 s per bucket and 1 to 1000 buckets |
| `Trends.CollectValues` | src/unifi_mcp/runtime/observations.py:91-98 | The one-pass index map holds for every bucket exactly its samples, in row order |
| `Trends.BucketsTile` | src/unifi_mcp/runtime/observations.py:100-104 | Buckets tile from the start without gap or overlap, and the rest of the range is less than one bucket |
| `Trends.ExactlyOneBucket` | src/unifi_mcp/runtime/observations.py:93-95 | A numeric sample of the span is in the bucket its index names and in no other |
| `Trends.CountsAddUp` | src/unifi_mcp/runtime/observations.py:102-112 | The sample counts of the first n buckets add up to the number of numeric samples in their span |
| `Trends.ValuesAddUp` | src/unifi_mcp/runtime/observations.py:102-112 | Values times counts of the first n buckets add up to the sum of the numeric samples in their span |
| `Trends.BucketForgetsOrder` | src/unifi_mcp/runtime/observations.py:90-112 | Rows in another order give the same buckets |
| `Trends.ValueIsBetweenSamples` | src/unifi_mcp/runtime/observations.py:106-112 | A bucket is present, has a value and a positive count exactly when a sample falls in it, and the exact value lies between any bounds on its samples |
| `Trends.FloatValueIsBetweenSamples` | src/unifi_mcp/runtime/observations.py:109 | So does the float value, for bounds that are floats and any rounding that keeps order, when no partial sum needs rounding |
| `Trends.IntegersSumExactly` | src/unifi_mcp/runtime/observations.py:97-110 | No partial sum needs rounding when the samples are integers and their sums stay where every integer is a float |
| `Trends.TenthsExceed` | src/unifi_mcp/runtime/observations.py:109 | Otherwise the value can exceed every sample: three samples of 0.1 added one after the other have the mean 0.10000000000000002 |
| `Ordering.AscendingSorts` | src/unifi_mcp/snapshots/codec.py:15-21 | The keys of an object are printed in strictly increasing text order |
| `Ordering.TextLessAtFirstDifference` | src/unifi_mcp/snapshots/codec.py:15-21 | Text order is decided where two texts first differ |
| `Ordering.SortForgetsOrder` | src/unifi_mcp/snapshots/models.py:94-98 | Sorting by an identity that is distinct for all items forgets the arrangement it started from |
| `SnapshotModels.SnapshotContent.SortAndRequireUniqueIdentities` | src/unifi_mcp/snapshots/models.py:78-99 | Succeeds exactly when every collection has distinct identities, and then each is the stable sort by identity |
| `SnapshotModels.AcceptedIffAllDiffer` | src/unifi_mcp/snapshots/models.py:78-99 | A content is accepted if and only if no two items of a collection agree in the fields that name them: sources in source, device and site, limitations in the code too, devices in service, controller, site and id, networks and WLANs in controller, site and id, firewall items in the kind too |
| `SnapshotModels.CollectionsAreInOrder` | src/unifi_mcp/snapshots/models.py:78-95 | In an accepted content every collection is strictly in text order of those fields, compared one after the other |
| `SnapshotModels.HasUniqueIdentities` | src/unifi_mcp/snapshots/models.py:96-98 | Comparing the number of identities with the size of their set finds a repeated identity exactly when there is one |
| `SnapshotModels.NormaliseForgetsOrder` | src/unifi_mcp/snapshots/models.py:78-99 | Contents whose collections are permutations of each other are both refused or become the same content |
| `SnapshotModels.NormaliseIsIdempotent` | src/unifi_mcp/snapshots/models.py:78-99 | Normalising keeps every item, and doing it again changes nothing |
| `Json.ValueReadsBack` | src/unifi_mcp/snapshots/codec.py:15-21 | Parsing a canonically printed value tree (sorted keys, escapes, any nesting) gives the value and the rest of the text |
| `Json.StringReadsBack` | src/unifi_mcp/snapshots/codec.py:15-21 | The escapes of a string literal read back as the string, for all characters |
| `Json.HexDigitsRead` | src/unifi_mcp/snapshots/codec.py:52 | A hexadecimal digit reads as its value in either case |
| `Json.Hex4Reads` | src/unifi_mcp/snapshots/codec.py:52 | Four digits read as the number they write |
| `Json.CodeReads` | src/unifi_mcp/snapshots/codec.py:52 | A character outside the surrogates reads by its code |
| `Json.SurrogatePairReads` | src/unifi_mcp/snapshots/codec.py:52 | A character beyond 0xFFFF reads by its two codes |
| `Json.ShortEscapesRead` | src/unifi_mcp/snapshots/codec.py:52 | After a backslash there is one of the eight short escapes, each read as what it stands for, or a code |
| `Json.PlainCharactersRead` | src/unifi_mcp/snapshots/codec.py:52 | Any other character stands for itself, and control characters are refused |
| `Json.IntReadsBack` | src/unifi_mcp/snapshots/codec.py:15-21 | A printed integer reads back, whatever follows that is not a digit |
| `Json.PrintIsInjective` | src/unifi_mcp/snapshots/codec.py:15-21 | Different value trees print differently |
| `Json.EscapeIsShortest` | src/unifi_mcp/snapshots/codec.py:15-21 | Escapes have two characters for the seven short ones, six with lower-case digits for other control characters, and one, the character itself, otherwise |
| `Json.PrintIsCompact` | src/unifi_mcp/snapshots/codec.py:15-21 | Nothing is printed between the parts, as in the examples |
| `Utf8.TextReadsBack` | src/unifi_mcp/snapshots/codec.py:15-21 | Every text reads back from its UTF-8 bytes |
| `Utf8.BytesAreUnique` | src/unifi_mcp/snapshots/codec.py:47-52 | Bytes that read as a text are the bytes of that text: overlong forms and surrogates are refused |
| `UtcText.UtcReadsBack` | src/unifi_mcp/snapshots/models.py:105-114 | The JSON form of a UTC datetime reads back as the datetime |
| `SnapshotCodec.RejectDuplicateKeys` | src/unifi_mcp/snapshots/codec.py:38-44 | The object hook's loop computes the dictionary of the pairs or names a repeated key |
| `Json.DictIffNoRepeat` | src/unifi_mcp/snapshots/codec.py:38-44 | Pairs become a dictionary with each of them in it if and only if no key is repeated |
| `Json.FirstRepeatIsNamed` | src/unifi_mcp/snapshots/codec.py:38-44 | Otherwise the first repeated key is the one named |
| `JsonTexts.TextLoads` | src/unifi_mcp/snapshots/codec.py:38-52 | A text with the pairs of its objects in any order loads as its value, or is refused for the repeated key of the object that ends first |
| `JsonTexts.RefusedIffRepeats` | src/unifi_mcp/snapshots/codec.py:38-44 | It is refused if and only if some object, at whatever depth, repeats a key, and the key named is one of those |
| `JsonTexts.TrailingTextIsRefused` | src/unifi_mcp/snapshots/codec.py:52 | A value followed by anything but white space is refused |
| `JsonTexts.MemberNeedsQuotesAndColon` | src/unifi_mcp/snapshots/codec.py:52 | So is a member whose key is not quoted or not followed by a colon |
| `SnapshotCodec.RepeatedKeyIsRefused` | src/unifi_mcp/snapshots/codec.py:47-61 | The bytes of such a text are refused for a repeated key, unless for their size |
| `SnapshotCodec.ContentReadsBack` | src/unifi_mcp/snapshots/models.py:70-99 | Validating a dumped content within the limits gives the same content |
| `SnapshotCodec.DeviceKeepsFields` | src/unifi_mcp/snapshots/models.py:29-37 | A device is validated only with its required fields and no unknown one, and dumped again it has every field it was read from; so it is with the other five kinds of record, in the lemmas beside this one |
| `SnapshotCodec.DeviceDefaults` | src/unifi_mcp/snapshots/models.py:29-37 | The optional fields of a device may be missing and are then empty; so it is with the other kinds, each with its own defaults |
| `SnapshotCodec.ContentKeepsItems` | src/unifi_mcp/snapshots/models.py:70-99 | Validation of a content knows no other collections, keeps every item, and reads a missing collection as empty |
| `SnapshotCodec.DocumentKeepsFields` | src/unifi_mcp/snapshots/models.py:102-114 | A document has no unknown field, and its constant fields, checksum, time and content are those it was read from |
| `SnapshotCodec.DocumentDefaults` | src/unifi_mcp/snapshots/models.py:102-114 | The constant fields may be missing, and the checksum when there is none |
| `SnapshotCodec.DigestCharacters` | src/unifi_mcp/snapshots/models.py:106 | A checksum is 64 lower-case hexadecimal digits |
| `SnapshotCodec.ContentIsValid` | src/unifi_mcp/snapshots/models.py:70-99 | Whatever validation lets through is within every limit and normalised |
| `SnapshotCodec.ChecksumForgetsOrderAndTime` | src/unifi_mcp/snapshots/codec.py:24-29 | Contents that are permutations of each other get the same `content_sha256`, whatever `generated_at` is |
| `SnapshotCodec.ChecksumCoversContent` | src/unifi_mcp/snapshots/codec.py:24-29 | The bytes that are hashed tell any two different contents apart |
| `SnapshotCodec.ChecksumLeavesOutTimeAndItself` | src/unifi_mcp/snapshots/codec.py:24-29 | The checksum is taken over the dumped document without `generated_at` and `content_sha256` |
| `SnapshotCodec.WrittenDocument` | src/unifi_mcp/snapshots/codec.py:47-61 | The exact verdict on any written document: too large, checksum missing, checksum mismatch, or accepted as the document written |
| `SnapshotCodec.EncodedVerifies` | src/unifi_mcp/snapshots/codec.py:32-35 | Verifying the bytes of an encoded snapshot of at most 16 MiB returns the sealed document; more bytes are refused for their size |
| `SnapshotCodec.AcceptedIsSealed` | src/unifi_mcp/snapshots/codec.py:47-61 | Any accepted bytes hold a valid document that carries the checksum of its content |
| `Plugins.PluginRegistry.Register` | src/unifi_mcp/plugins.py:51-123 | An extension is registered exactly when its name is valid, not reserved and not taken and it conforms; otherwise nothing changes |
| `Plugins.PluginRegistry.Merge` | src/unifi_mcp/plugins.py:125-141 | A staged registry is taken over whole, or on a conflict with a core tool or a registered extension not at all |
| `Plugins.RegistryIsTheUnion` | src/unifi_mcp/plugins.py:157-217 | The registry is the disjoint union of the staged registries of exactly the loaded plugins and holds no core tool name |
| `Plugins.ContributorIsUnique` | src/unifi_mcp/plugins.py:157-217 | Each registered extension comes from exactly one loaded plugin, so a plugin that failed anywhere contributed nothing |
| `Plugins.LoadedIffNotFailing` | src/unifi_mcp/plugins.py:184-213 | An allowed plugin found once is loaded if and only if it loads, has the right API version, registers, shadows no core tool and clashes with no plugin loaded before it |
| `Plugins.ReportedIffLoaded` | src/unifi_mcp/plugins.py:184-213 | A name is reported loaded if and only if a plugin of that name was loaded |
| `Plugins.StatusesAreInOrder` | src/unifi_mcp/plugins.py:166-213 | After the duplicated names every other entry point has one status, in the order found: skipped, loaded, or failed for the first reason that applies |
| `Plugins.DuplicatesAreReported` | src/unifi_mcp/plugins.py:166-183 | The first statuses are those of the allowed names found more than once, each once |
| `Plugins.RegistryIsInOrder` | src/unifi_mcp/plugins.py:51-141 | When plugins register through the registry, every extension in it has a valid name, is no core job or core renderer, and passed its checks |
| `Plugins.Load` | src/unifi_mcp/plugins.py:157-217 | On return, the registry and the exact list of statuses, and every required plugin found once and loaded if allowed; on an error, a required plugin for which that is not so |
| `Plugins.RequiredAreReported` | src/unifi_mcp/plugins.py:157-217 | With required plugins allowed, a normal return means each is reported loaded |
| `Jwks.OIDCTokenVerifier.GetJwks` | src/unifi_mcp/auth/oidc.py:142-162 | Both cache checks and the cooldown shortcut answer from the cache without change; otherwise the fetched set is stored with its expiry, a forced one also starts the cooldown, and a failure changes nothing |
| `Jwks.OIDCTokenVerifier.KeyById` | src/unifi_mcp/auth/oidc.py:135-140 | The first object with the key id, or None exactly when there is none |
| `Jwks.FetchesAreSpaced` | src/unifi_mcp/auth/oidc.py:142-162 | In every run successful forced fetches are at least the cooldown apart, and a non-forced one comes at least one lifetime after the success before it |
| `Jwks.ForcedFetchesAreBounded` | src/unifi_mcp/auth/oidc.py:36-41 | However many successful forced fetches of a run one picks, there are at most span / cooldown + 1 of them from the first to the last |
| `Jwks.AnswersAreFresh` | src/unifi_mcp/auth/oidc.py:142-162 | No lookup answered from the cache gets an expired key set, the cooldown shortcut included, because cooldown <= lifetime |
| `Jwks.FailedFetchChangesNothing` | src/unifi_mcp/auth/oidc.py:151-162 | A failed fetch leaves the cache and the cooldown alone and releases the lock |
| `Jwks.RotationIsSeen` | src/unifi_mcp/auth/oidc.py:142-162 | The run of a key rotation: a forced fetch replaces the keys, and a lookup forced again within the cooldown gets the new ones from the cache |
| `Jwks.FetchedKeysAreKept` | src/unifi_mcp/auth/oidc.py:151-162 | In every run, the keys of a successful fetch are those in the cache until another fetch succeeds |

## Left out

Stated with less than the source has:

- ReadCache.CachedReadsAreCoherent: the controller may change only between a mutation's dispatch and its end, so changes made elsewhere (another administrator, the controller itself) are not covered; TTL and size eviction are an arbitrary removal step.
- ReadCache.AppContext.BeginRequest: the cached object itself is a value, so a caller that mutates the dictionary it got from the cache is not modelled.
- CacheKeys.SameArgumentsSameKey: mappings have string keys; sets, `repr` of unhashable values and NaN are not modelled, here and in the other results about keys.
- CacheKeys.SameKeySameArguments: no sets and no other than string keys, as above.
- CacheKeys.KeysAreExact: no sets and no other than string keys, as above.
- CacheKeys.KeyIsOwnIffUnambiguous: no sets and no other than string keys, as above.
- CacheKeys.RequestsShareKeyIffSame: no sets and no other than string keys, as above.
- CacheKeys.ListCollidesWithMapping: about the list itself; for lists at any depth see CacheKeys.KeyIsOwnIffUnambiguous.
- Scheduler.Scheduler.ClaimDue: names of schedules and jobs, their arguments and the error text of an interrupted history row are not modelled.
- Scheduler.Scheduler.Finalise: of a history row the job name, the result and the error text are not modelled.
- Scheduler.Scheduler.Execute: alone with the database; how executions interleave is in the transition system, which has the schedules but not the history rows. The result payload, the error code and the cancellation that is raised again are not modelled.
- Scheduler.Scheduler.SetEnabled: the other writes of a schedule are its creation, of which only the row and the minimal interval are modelled, and the pass over due ones.
- Webhooks.WebhookService.DeliverDue: alone with the database; the races of several workers are in the transition system.
- Scheduler.Scheduler.RunDue: the executions of one pass run concurrently in the source; the method takes them in the order claimed, which does not matter for the schedules (Scheduler.FinaliseOrderIsIrrelevant), and none fails.
- Scheduler.NoStarvation: under the serve loop alone; run-now calls and toggles in between are not part of it.
- Webhooks.WebhookService.Deliver: signing, URL checks and the HTTP exchange are one outcome.
- EventStore.IngestionIsExactlyOnce: no pruning and no deletion of destinations happens in the history (a pruned event still in the polling window would be ingested again); event ids are numbers counted up instead of random UUIDs.
- Polling.NoEventIsSkipped: a page read from the controller is assumed complete for what was visible then (in its window, for Protect), so a controller without the events endpoint (a 404 reads as no events) is not covered; event times are exact microseconds, without the float error of `timestamp()`; the times of Network polls and of the cache are in milliseconds.
- WebhookBatches.DefaultBatchesEndInTime: the time of one row is a parameter; it may cover several addresses of a destination, each with the HTTP client's own timeouts.
- Polling.EventPoller.PollSource: jitter, the concurrency limit and the sums of `PollSummary` are not modelled.
- Dhcp.ValidationIsExact: IPv6 scope ids are not part of an address.
- Dhcp.PlanUpdate: the `confirm` flag, the lookup of the network by name or id and the check of the result after sending are not modelled; a boolean passed as VLAN id is ruled out by the type.
- Dhcp.PlanCreate: the `confirm` flag is not modelled; a boolean passed as VLAN id is ruled out by the type.
- Dhcp.SentIffNothingRefuses: what is refused for the `confirm` flag or a failing lookup of the network is not among the refusals.
- PortOverrides.UpdateDevicePorts: the check of the API mode and a failing lookup of the device are not modelled; dictionaries are values, so that the inputs are not changed holds by construction; `True` and `1` are different port indexes here.
- Trends.QueryTrend: sums and means are exact instead of rounded floats, and the check for a time zone is not modelled; rows come in the order of the query.
- Trends.ValueIsBetweenSamples: of the exact mean; for floats see Trends.FloatValueIsBetweenSamples. From Python 3.12 on `sum` compensates rounding, which changes nothing where no partial sum is rounded.
- Json.ValueReadsBack: numbers are integers; a float literal, NaN, an unpaired surrogate escape and nesting beyond the interpreter's limit are not modelled. White space, escapes and surrogate pairs are read as Python's parser reads them.
- SnapshotCodec.WrittenDocument: of the other encodings that Python's JSON reader detects, and byte order marks, nothing is modelled; validation is strict, without pydantic's coercions such as `"12"` for 12.
- SnapshotCodec.AcceptedIsSealed: validation is strict and the encoding UTF-8, as above.
- SnapshotCodec.EncodedVerifies: a reader of timestamps may take other forms, but is assumed to read the printed form as it was meant.
- Plugins.PluginRegistry.Register: the interface checks of each kind of extension are one flag, the five dictionaries are one map keyed by kind and name, and in which order several faults are noticed is not modelled.
- Plugins.Load: an entry point's load and registration are given by what they leave behind; the message of an error names one of the required plugins concerned.
- Jwks.OIDCTokenVerifier.GetJwks: the discovery document's cache (the same without cooldown), token decoding and claims are not modelled.

Not modelled at all:

- HTTP transport, sessions and login, retries of the HTTP layer, rate-limit errors.
- SQL text, schema migration and the file store; a table is a map with the uniqueness its constraints give.
- `ObservationRepository.insert_batch`: the same insert-or-ignore as event ingestion, without fan-out.
- Retention pruning, notification of sinks, reports, export, metrics and the MCP tool wrappers.
- Collection of snapshots, and their comparison and reports.
