# Garage door policy engine, in Dafny

A model of the door-status policy engine of the garage-door monitor. A sensor
reports the door's position over HTTP. The engine keeps one record: the
position (`Open`, `Closed` or `Missing`), the instant of the last open or close
report, the instant the door was opened, the number of alerts sent and the
current back-off interval. From that record it decides when a reported door
has gone stale and when an "open for" or "missing for" alert is due. After
each alert the back-off interval doubles.

Files:

- `state.dfy`, module `DoorState`: the record, the constants
  (`BasePingInterval` = 10 s, `MissingTimeout` = 60 s), the operations
  `open`, `close`, `missing`, `check_timeout`, `check_send_ping` and
  `ping_sent`, and the invariant `Valid` with its single-step lemmas.
- `web.dfy`, module `Ingress`: the dispatch of an inbound report's first body
  byte to a transition and an HTTP response.
- `lifecycle.dfy`, module `Lifecycle`: whole histories. These are sequences
  of reports, staleness ticks, alert checks and alert commits. The alert loop
  decides under the lock, releases it while the alert is delivered, and then
  commits on the state as it is by then. So the check and the commit are two
  separate steps, and other steps may run between them. The module proves
  lemmas over any such history: the invariant, last-write-wins, the open clock
  surviving until a close, and the alert counter matching the commits.

Every operation is a pure function on an immutable `State` value. The wall
clock is an explicit `now : int` argument, in seconds. The Rust code calls
`Local::now()` inside the operations instead.

The operations are named `OpenDoor`, `CloseDoor` and `MarkMissing` because
`Open`, `Closed` and `Missing` are already the names of the position's
constructors.

Three behaviours of the code worth noting:

- `missing` does not clear `open_time`. A door that times out while open and
  is then reported open again keeps its first open time
  (`MissingKeepsEverythingElse`, `OpenTimeSurvivesUntilClose`). The open time
  runs from the first open report after a close until the next close.
- Alerts are measured from the open time, not from the previous alert. After
  an open at 0 and an alert at 11, the interval is 20, and a second alert is
  due at 25 because 25 − 0 > 20 (`Scenario`).
- A close that arrives while an alert is being delivered is followed by that
  alert's commit. The door is then closed with one alert counted and the
  interval doubled, so the back-off is not fully reset (`CommitAfterClose`).

## Model

| member | source | states |
|---|---|---|
| DoorState.InitialState | src/state.rs:24-32 | the initial record is missing, has no timestamps, no alerts sent, the base interval, and satisfies the invariant |
| DoorState.OpenDoor | src/state.rs:35-41 | status becomes Open and the last update becomes `now`; the open time is set to `now` only if it was unset, otherwise kept; back-off untouched; the invariant is preserved |
| DoorState.CloseDoor | src/state.rs:42-48 | from any state: Closed, last update `now`, no open time, zero alerts, base interval; the result always satisfies the invariant |
| DoorState.MarkMissing | src/state.rs:49-51 | only the status changes, to Missing; timestamps and back-off untouched; the invariant is preserved |
| DoorState.CheckTimeout | src/state.rs:52-64 | demotes to Missing exactly when the door is not already missing, has a last update, and strictly more than the timeout has passed; otherwise the state is unchanged |
| DoorState.CheckSendPing | src/state.rs:65-90 | never an alert when closed; an alert exactly when strictly more than the current interval has passed since the anchor (last update when missing, open time when open); the alert kind follows the status and carries the current interval |
| DoorState.PingSent | src/state.rs:91-95 | the alert count goes up by one and the interval doubles; nothing else changes; the invariant is preserved |
| DoorState.PingSentTimesDoubles | src/state.rs:91-95 | after n commits the interval is the old one times 2^n and the count is the old one plus n |
| DoorState.BackoffFromBase | src/state.rs:30 | starting from the base interval, n commits give base times 2^n |
| DoorState.IntervalAtLeastBase | src/state.rs:30 | in any valid state the interval is at least the base interval |
| DoorState.InitialStateIsQuiet | src/state.rs:24-32 | the initial state raises no alert and is never demoted, at any time |
| DoorState.ReopenKeepsOpenTime | src/state.rs:38-40 | a second open report leaves the open time set by the first |
| DoorState.CloseForgetsHistory | src/state.rs:42-48 | the result of a close does not depend on the prior state, and it is never alerting |
| DoorState.MissingKeepsEverythingElse | src/state.rs:49-51 | restoring the old status undoes a missing mark; marking missing is idempotent; a reopen after going missing keeps the old open time |
| DoorState.CheckTimeoutIdempotent | src/state.rs:52-64 | two staleness checks at the same instant act as one |
| DoorState.CheckTimeoutMonotone | src/state.rs:57-58 | a door stale at some instant is stale at every later instant |
| DoorState.CheckTimeoutBoundary | src/state.rs:57-58 | the comparison is strict: no change exactly at the timeout, demotion one second after it |
| DoorState.AlertDueMonotone | src/state.rs:65-90 | an alert due at some instant is still due later for the same state |
| DoorState.AlertBoundary | src/state.rs:70 | the comparison is strict: no alert exactly one interval after the anchor, an alert one second later |
| DoorState.PingSentPostponesAlert | src/state.rs:91-95 | after a commit, the next alert needs twice the old interval since the same anchor |
| Ingress.Classify | src/web.rs:73-91 | '1' selects close with 200 "Status updated to closed\n", '0' selects open with 200 "Status updated to open\n", any other first byte selects missing with an empty 418 |
| Ingress.Apply | src/web.rs:74-91 | each transition leaves the door in its target position and preserves the invariant |
| Ingress.Update | src/web.rs:71-92 | '1' closes the door at `now` and answers the closed text, '0' opens it at `now` and answers the open text, any other byte marks it missing and answers an empty 418; the reply is 200 exactly when the door ends up not missing |
| Ingress.OnlyFirstByteMatters | src/web.rs:73 | bytes after the first change neither the transition, the reply nor the new state |
| Ingress.RecognisedBytes | src/web.rs:74-91 | the bytes that do not lead to missing are exactly 0x30 and 0x31 |
| Lifecycle.AlertCheckOnlyReads | src/discord.rs:41-43 | the decision half of an alert-loop tick leaves the state unchanged and hands out exactly what `check_send_ping` decides |
| Lifecycle.RunPreservesValid | src/state.rs:35-95 | every sequence of reports, staleness ticks, alert checks and alert commits preserves the invariant |
| Lifecycle.ReachableStatesValid | src/state.rs:24-95 | every state of the process is valid, its interval is base times 2^(alerts sent), and at least the base |
| Lifecycle.LastReportWins | src/web.rs:74-91 | after the most recent report, with only alert checks and commits following, the door is where that report put it |
| Lifecycle.OpenTimeSurvivesUntilClose | src/state.rs:35-51 | without a close, an open time once set survives every report, timeout and alert |
| Lifecycle.LastUpdateOnlyByReports | src/state.rs:35-51 | only open and close reports move the last update |
| Lifecycle.PingsCountCommitsUntilClose | src/state.rs:91-95 | between closes the alert count grows by exactly the number of commits, and the interval is multiplied by 2 to that number |
| Lifecycle.IntervalNonDecreasingUntilClose | src/state.rs:91-95 | between closes the interval never shrinks |
| Lifecycle.CommitAfterClose | src/discord.rs:51-62 | a close during delivery is followed by the commit: the door ends closed with one alert counted and interval 20, and after a reopen at 13 no alert is due at 24, where one would be without that commit |
| Lifecycle.Scenario | src/state.rs:35-95 | open at 0, nothing at 5, alert at 11 (interval 20 once committed), alert at 25, close at 40 resets the back-off |

## Left out

- Wall-clock reads: time is an integer argument in whole seconds. `open` reads
  the clock twice, so in the source `last_update` and `open_time` may differ
  by a few nanoseconds; the model uses one `now` for both.
- Sub-second resolution of `chrono::TimeDelta` is not modelled, because the
  comparisons are the same at any time unit.
- DoorState.PingSent: models the interval as an unbounded integer, so
  `TimeDelta * 2` panicking on overflow is not modelled. That overflow needs
  about fifty doublings of ten seconds.
- DoorState.PingSent: models `pings_sent` as a natural number, so `u32`
  overflow is not modelled. The interval overflows long before it.
- The alert text ("Door is missing for …", "Door is open for …") is
  abstracted to `MissingFor(interval)` / `OpenFor(interval)`. Duration
  formatting is out of scope.
- Ingress.Classify: requires a non-empty body. The source indexes byte 0
  and panics on an empty body.
- The tokio mutex, the HTTP listener and framing, the JSON status read, the
  Discord client, logging and startup wiring. Each engine operation is one
  atomic step, because each runs under the lock. The alert loop's tick is two
  steps, a check and a commit, because the lock is released between them.
- Delivery of alerts is external. A `PingCommit` step is allowed anywhere in
  a history, so the history lemmas hold for every interleaving. The model
  does not state the loop's own order: one commit after each firing check.
  The commit does not depend on the delivery outcome, as in the ping loop.
- `State::new()` and `consts()`, which `src/main.rs` and `src/timeout.rs`
  call, do not exist in `src/state.rs`. The model uses `initial_state()` and
  the hard-coded constants.
