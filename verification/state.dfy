/**
 The door-status policy engine: one record holding the door's position, the
 instants of the last explicit report and of the door opening, and the
 exponential back-off of the "door is open / missing" alerts.

 Every operation is a pure function from the old record to the new one; the
 wall clock is an explicit `now` argument, counted in whole seconds.
 */
module DoorState {

  /** An optional value, as Rust's `Option`. */
  datatype Option<T> = None | Some(value: T)

  /** An instant, in seconds. */
  type Time = int

  /** A length of time, in seconds. */
  type Duration = int

  /** The first quiet period before an alert, and the value a close resets to. */
  const BasePingInterval: Duration := 10

  /** How long an open or closed door may go unreported before it counts as missing. */
  const MissingTimeout: Duration := 60

  /** The three positions the door can be in; an unrecognised report is `Missing`. */
  datatype DoorPosition = Open | Closed | Missing

  datatype State = State(
    status: DoorPosition,
    lastUpdate: Option<Time>,   // last explicit open or close report
    openTime: Option<Time>,     // when the door was first reported open since the last close
    pingsSent: nat,             // alerts committed since the last close
    currentPingInterval: Duration)

  /** What an alert reports: the door is missing, or open, for at least `interval`. */
  datatype Alert = MissingFor(interval: Duration) | OpenFor(interval: Duration)

  /** 2 to the power `n`. */
  function Pow2(n: nat): (r: nat)
    ensures r >= 1
  {
    if n == 0 then 1 else 2 * Pow2(n - 1)
  }

  /** Doubling a multiple of 2^n gives the same multiple of 2^(n+1). */
  lemma DoublePow2(a: int, n: nat)
    ensures 2 * (a * Pow2(n)) == a * Pow2(n + 1)
  {
  }

  /**
   The invariant every state reachable from `InitialState` keeps: the back-off
   interval is the base doubled once per committed alert, a closed door has no
   open time, a door reported open or closed has a last update, an open door
   has an open time, and an open time is never recorded without a last update.
   */
  predicate Valid(s: State) {
    && s.currentPingInterval == BasePingInterval * Pow2(s.pingsSent)
    && (s.status == Closed ==> s.openTime.None?)
    && (s.status != Missing ==> s.lastUpdate.Some?)
    && (s.status == Open ==> s.openTime.Some?)
    && (s.openTime.Some? ==> s.lastUpdate.Some?)
  }

  /** The state at process start: missing, never reported, no alerts sent. */
  function InitialState(): (s: State)
    ensures s.status == Missing && s.lastUpdate == None && s.openTime == None
    ensures s.pingsSent == 0 && s.currentPingInterval == BasePingInterval
    ensures Valid(s)
  {
    State(Missing, None, None, 0, BasePingInterval)
  }

  /** The door reports open: the open time is only started, never restarted. */
  function OpenDoor(s: State, now: Time): (r: State)
    ensures r.status == Open && r.lastUpdate == Some(now)
    ensures r.openTime == (if s.openTime.Some? then s.openTime else Some(now))
    ensures r.pingsSent == s.pingsSent && r.currentPingInterval == s.currentPingInterval
    ensures Valid(s) ==> Valid(r)
  {
    var openTime := if s.openTime.None? then Some(now) else s.openTime;
    s.(status := Open, lastUpdate := Some(now), openTime := openTime)
  }

  /** The door reports closed: the open time is cleared and the back-off reset. */
  function CloseDoor(s: State, now: Time): (r: State)
    ensures r.status == Closed && r.lastUpdate == Some(now) && r.openTime == None
    ensures r.pingsSent == 0 && r.currentPingInterval == BasePingInterval
    ensures Valid(r)
  {
    State(Closed, Some(now), None, 0, BasePingInterval)
  }

  /** The door is marked missing; nothing but the position changes. */
  function MarkMissing(s: State): (r: State)
    ensures r.status == Missing
    ensures r.lastUpdate == s.lastUpdate && r.openTime == s.openTime
    ensures r.pingsSent == s.pingsSent && r.currentPingInterval == s.currentPingInterval
    ensures Valid(s) ==> Valid(r)
  {
    s.(status := Missing)
  }

  /** A reported door whose last report is more than `MissingTimeout` old at `now`. */
  predicate Stale(s: State, now: Time) {
    s.status != Missing && s.lastUpdate.Some? && now - s.lastUpdate.value > MissingTimeout
  }

  /**
   The periodic staleness check: a door that was reported open or closed, and
   has not been reported for strictly more than `MissingTimeout`, is demoted to
   missing. A door that has never been reported is left alone.
   */
  function CheckTimeout(s: State, now: Time): (r: State)
    ensures Stale(s, now) ==> r == MarkMissing(s)
    ensures !Stale(s, now) ==> r == s
    ensures r.status == Missing <==> s.status == Missing || Stale(s, now)
    ensures Valid(s) ==> Valid(r)
  {
    if s.status != Missing then
      match s.lastUpdate
      case None => s
      case Some(lastUpdate) =>
        if now - lastUpdate > MissingTimeout then MarkMissing(s) else s
    else
      s
  }

  /**
   The instant an alert's quiet period is measured from: the last report while
   the door is missing, the open time while it is open, none while it is closed.
   */
  function AlertAnchor(s: State): Option<Time> {
    match s.status
    case Missing => s.lastUpdate
    case Open => s.openTime
    case Closed => None
  }

  /** An alert is due when more than the current back-off interval has passed since the anchor. */
  predicate AlertDue(s: State, now: Time) {
    AlertAnchor(s).Some? && now - AlertAnchor(s).value > s.currentPingInterval
  }

  /**
   Decides, without changing the state, whether an alert is due at `now` and
   which: never for a closed door; for a missing door measured from the last
   report, for an open door measured from the open time. The alert names the
   current back-off interval, not the elapsed time.
   */
  function CheckSendPing(s: State, now: Time): (r: Option<Alert>)
    ensures s.status == Closed ==> r == None
    ensures r.Some? <==> AlertDue(s, now)
    ensures r.Some? ==> r.value.interval == s.currentPingInterval
    ensures r.Some? ==> (r.value.MissingFor? <==> s.status == Missing)
  {
    match s.status
    case Missing =>
      if s.lastUpdate.Some? && now - s.lastUpdate.value > s.currentPingInterval
      then Some(MissingFor(s.currentPingInterval))
      else None
    case Open =>
      if s.openTime.Some? && now - s.openTime.value > s.currentPingInterval
      then Some(OpenFor(s.currentPingInterval))
      else None
    case Closed => None
  }

  /** Commits an alert: one more alert counted, and the back-off interval doubled. */
  function PingSent(s: State): (r: State)
    ensures r.pingsSent == s.pingsSent + 1
    ensures r.currentPingInterval == 2 * s.currentPingInterval
    ensures r.status == s.status && r.lastUpdate == s.lastUpdate && r.openTime == s.openTime
    ensures Valid(s) ==> Valid(r)
  {
    s.(pingsSent := s.pingsSent + 1, currentPingInterval := s.currentPingInterval * 2)
  }

  /** `PingSent` applied `n` times. */
  function PingSentTimes(s: State, n: nat): State {
    if n == 0 then s else PingSent(PingSentTimes(s, n - 1))
  }

  /** After `n` committed alerts the interval is the old one times 2^n, and nothing but the back-off has changed. */
  lemma {:induction false} PingSentTimesDoubles(s: State, n: nat)
    ensures PingSentTimes(s, n).currentPingInterval == s.currentPingInterval * Pow2(n)
    ensures PingSentTimes(s, n).pingsSent == s.pingsSent + n
    ensures PingSentTimes(s, n).status == s.status
    ensures PingSentTimes(s, n).lastUpdate == s.lastUpdate
    ensures PingSentTimes(s, n).openTime == s.openTime
  {
    if n > 0 {
      PingSentTimesDoubles(s, n - 1);
      DoublePow2(s.currentPingInterval, n - 1);
    }
  }

  /** From the base interval, `n` committed alerts give an interval of base times 2^n. */
  lemma BackoffFromBase(s: State, n: nat)
    requires s.currentPingInterval == BasePingInterval
    ensures PingSentTimes(s, n).currentPingInterval == BasePingInterval * Pow2(n)
  {
    PingSentTimesDoubles(s, n);
  }

  /** In a valid state the back-off interval is never below the base interval. */
  lemma IntervalAtLeastBase(s: State)
    requires Valid(s)
    ensures s.currentPingInterval >= BasePingInterval
  {
  }

  /** The initial state raises no alert and is not demoted, whatever the time. */
  lemma InitialStateIsQuiet(now: Time)
    ensures CheckSendPing(InitialState(), now) == None
    ensures CheckTimeout(InitialState(), now) == InitialState()
  {
  }

  /** A second open report does not move the open time set by the first. */
  lemma ReopenKeepsOpenTime(s: State, t1: Time, t2: Time)
    ensures OpenDoor(OpenDoor(s, t1), t2).openTime == OpenDoor(s, t1).openTime
    ensures OpenDoor(OpenDoor(s, t1), t2).openTime.Some?
  {
  }

  /** A close forgets the whole history: its result depends only on `now`. */
  lemma CloseForgetsHistory(s1: State, s2: State, now: Time)
    ensures CloseDoor(s1, now) == CloseDoor(s2, now)
    ensures CheckSendPing(CloseDoor(s1, now), now) == None
  {
  }

  /**
   Marking missing is undone by restoring the old position, and a door that
   goes missing while open and is then reported open again keeps its original
   open time.
   */
  lemma MissingKeepsEverythingElse(s: State, now: Time)
    ensures MarkMissing(s).(status := s.status) == s
    ensures MarkMissing(MarkMissing(s)) == MarkMissing(s)
    ensures s.openTime.Some? ==> OpenDoor(MarkMissing(s), now).openTime == s.openTime
  {
  }

  /** The staleness check applied twice at the same instant acts once. */
  lemma CheckTimeoutIdempotent(s: State, now: Time)
    ensures CheckTimeout(CheckTimeout(s, now), now) == CheckTimeout(s, now)
  {
  }

  /** Once a door is stale it stays stale later, as long as it is not reported again. */
  lemma CheckTimeoutMonotone(s: State, now: Time, later: Time)
    requires now <= later
    ensures CheckTimeout(s, now).status == Missing ==> CheckTimeout(s, later).status == Missing
  {
  }

  /** The timeout is strict: exactly `MissingTimeout` after the last report nothing happens, one second later the door is missing. */
  lemma CheckTimeoutBoundary(s: State)
    requires s.status != Missing && s.lastUpdate.Some?
    ensures CheckTimeout(s, s.lastUpdate.value + MissingTimeout) == s
    ensures CheckTimeout(s, s.lastUpdate.value + MissingTimeout + 1) == MarkMissing(s)
  {
  }

  /** An alert due at `now` is still due later, as long as the state does not change. */
  lemma AlertDueMonotone(s: State, now: Time, later: Time)
    requires now <= later
    ensures CheckSendPing(s, now).Some? ==> CheckSendPing(s, later).Some?
  {
  }

  /** The alert is strict too: exactly one interval after the anchor nothing is due, one second later it is. */
  lemma AlertBoundary(s: State)
    requires AlertAnchor(s).Some?
    ensures CheckSendPing(s, AlertAnchor(s).value + s.currentPingInterval) == None
    ensures CheckSendPing(s, AlertAnchor(s).value + s.currentPingInterval + 1).Some?
  {
  }

  /** After committing an alert, the next one is due only once twice the old interval has passed since the same anchor. */
  lemma PingSentPostponesAlert(s: State, now: Time)
    ensures CheckSendPing(PingSent(s), now).Some? <==>
              AlertAnchor(s).Some? && now - AlertAnchor(s).value > 2 * s.currentPingInterval
  {
  }
}
