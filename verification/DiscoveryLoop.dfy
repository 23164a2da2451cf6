/** The loop that decides when a discovery runs: triggers, retries of failed discoveries with
    growing delays, and a bounded number of re-updates. Times are in seconds. */
module DiscoveryLoop {
  import opened Common

  const MIN_RETRY_DELAY: int := 30
  const MAX_RETRY_DELAY: int := 600
  const MIN_REUPDATE_DELAY: int := 30

  // ---------------------------------------------------------------------------
  // Exponential backoff
  // ---------------------------------------------------------------------------

  function Power(factor: real, n: nat): real {
    if n == 0 then 1.0 else factor * Power(factor, n - 1)
  }

  function Seconds(base: real, factor: real, n: int): real {
    base * Power(factor, if n < 1 then 0 else n - 1)
  }

  function Capped(seconds: real, max: real): int {
    (if seconds > max then max else seconds).Floor
  }

  /** base * factor ^ (n - 1), capped, in whole seconds. */
  function Exponential(base: real, factor: real, n: int, max: real): int {
    Capped(Seconds(base, factor, n), max)
  }

  lemma {:induction false} PowerGrows(factor: real, n: nat, m: nat)
    requires 1.0 <= factor && n <= m
    ensures 1.0 <= Power(factor, n) <= Power(factor, m)
    decreases m
  {
    if n < m {
      PowerGrows(factor, n, m - 1);
      Stretch(factor, Power(factor, m - 1));
    } else if n > 0 {
      PowerGrows(factor, n - 1, m - 1);
      Stretch(factor, Power(factor, m - 1));
    }
  }

  lemma Stretch(factor: real, x: real)
    requires 1.0 <= factor && 1.0 <= x
    ensures x <= factor * x
  {
    assert 0.0 <= (factor - 1.0) * x;
  }

  lemma Scale(base: real, x: real, y: real)
    requires 0.0 <= base && x <= y
    ensures base * x <= base * y
  {
  }

  lemma SecondsGrow(base: real, factor: real, n: int, m: int)
    requires 0.0 <= base && 1.0 <= factor && n <= m
    ensures base <= Seconds(base, factor, n) <= Seconds(base, factor, m)
  {
    var i, j := if n < 1 then 0 else n - 1, if m < 1 then 0 else m - 1;
    PowerGrows(factor, 0, i);
    PowerGrows(factor, i, j);
    Scale(base, 1.0, Power(factor, i));
    Scale(base, Power(factor, i), Power(factor, j));
  }

  lemma CappedGrows(base: real, x: real, y: real, max: real)
    requires base <= x <= y && base <= max
    ensures base.Floor <= Capped(x, max) <= Capped(y, max) <= max.Floor
  {
  }

  /** Over growing n the delay never decreases, and it lies between base and the cap. */
  lemma BackoffGrows(base: real, factor: real, n: int, m: int, max: real)
    requires 0.0 <= base <= max && 1.0 <= factor && n <= m
    ensures base.Floor <= Exponential(base, factor, n, max) <= Exponential(base, factor, m, max) <= max.Floor
  {
    SecondsGrow(base, factor, n, m);
    CappedGrows(base, Seconds(base, factor, n), Seconds(base, factor, m), max);
  }

  function RetryDelay(failures: nat): int {
    Exponential(MIN_RETRY_DELAY as real, 2.0, failures, MAX_RETRY_DELAY as real)
  }

  lemma RetryDelayBounds(failures: nat)
    ensures MIN_RETRY_DELAY <= RetryDelay(failures) <= RetryDelay(failures + 1) <= MAX_RETRY_DELAY
  {
    BackoffGrows(30.0, 2.0, failures, failures + 1, 600.0);
  }

  /** Each failure after the first multiplies the delay by the factor, up to the cap. */
  lemma BackoffStep(base: real, factor: real, n: int, max: real)
    ensures n <= 1 ==> Exponential(base, factor, n, max) == (if base > max then max else base).Floor
    ensures n >= 1 ==> Seconds(base, factor, n + 1) == factor * Seconds(base, factor, n)
    ensures Exponential(base, factor, n, max) ==
            (if Seconds(base, factor, n) > max then max else Seconds(base, factor, n)).Floor
  {
    assert n <= 1 ==> Seconds(base, factor, n) == base;
    assert n >= 1 ==> base * (factor * Power(factor, n - 1)) == factor * (base * Power(factor, n - 1));
  }

  /** Half a minute after the first failure, then twice as long each time, ten minutes at most. */
  lemma RetryDelays(failures: nat)
    ensures RetryDelay(1) == 30 && RetryDelay(2) == 60 && RetryDelay(3) == 120 && RetryDelay(4) == 240 && RetryDelay(5) == 480
    ensures failures >= 6 ==> RetryDelay(failures) == 600
  {
    assert Power(2.0, 0) == 1.0 && Power(2.0, 1) == 2.0 && Power(2.0, 2) == 4.0;
    assert Power(2.0, 3) == 8.0 && Power(2.0, 4) == 16.0 && Power(2.0, 5) == 32.0;
    if failures >= 6 {
      PowerGrows(2.0, 5, failures - 1);
    }
  }

  // ---------------------------------------------------------------------------
  // The timers
  // ---------------------------------------------------------------------------

  /** The four variables of Run; a zero time is None. */
  datatype Timers = Timers(wanted: Option<int>, updates: nat, retryAt: Option<int>, failures: nat)

  /** What a discovery returned (possibly a wanted next update along with an error), and the
      time at which it had finished. */
  datatype Outcome = Outcome(next: Option<int>, failed: bool, finished: int)

  /** A trigger, or a tick of the ticker; the outcome matters only if a discovery runs. */
  datatype Event =
    | Triggered(outcome: Outcome)
    | Tick(now: int, outcome: Outcome)

  datatype Reason = ByTrigger | ByRetry | ByReupdate

  const INITIAL := Timers(None, 0, None, 0)

  function OnResult(t: Timers, o: Outcome): Timers {
    if !o.failed then t.(retryAt := None, failures := 0)
    else
      t.(failures := t.failures + 1,
      retryAt := Some(o.finished + RetryDelay(t.failures + 1)),
      wanted := None)
  }

  /** Why the event runs a discovery, if it does. */
  function Runs(t: Timers, e: Event): Option<Reason> {
    match e
    case Triggered(_) => Some(ByTrigger)
    case Tick(now, _) =>
      if t.retryAt.Some? && t.retryAt.value <= now then Some(ByRetry)
      else if t.wanted.Some? && t.wanted.value <= now then Some(ByReupdate)
      else None
  }

  function Step(t: Timers, e: Event): Timers {
    var o := e.outcome;
    match Runs(t, e)
    case None => t
    case Some(ByReupdate) =>
      var t' := OnResult(t.(wanted := o.next, updates := t.updates + 1), o);
      if t'.wanted.None? then t'
      else if t'.updates == 1 then
        if t'.wanted.value - o.finished < MIN_REUPDATE_DELAY
        then t'.(wanted := Some(o.finished + MIN_REUPDATE_DELAY)) else t'
      else t'.(wanted := None)
    case Some(_) => OnResult(t.(wanted := o.next, updates := 0), o)
  }

  function After(events: seq<Event>): Timers {
    if events == [] then INITIAL else Step(After(events[..|events| - 1]), events[|events| - 1])
  }

  /** A discovery that ran: why, when it started (for a tick), how it ended, the next update it wanted
      and, when it failed, the delay after which it will be retried. */
  datatype Attempt = Attempt(reason: Reason, started: Option<int>, failed: bool, finished: int, next: Option<int>, delay: int)

  function AttemptOf(failures: nat, e: Event, reason: Reason): Attempt {
    Attempt(reason, if e.Tick? then Some(e.now) else None, e.outcome.failed, e.outcome.finished, e.outcome.next,
            if e.outcome.failed then RetryDelay(failures + 1) else 0)
  }

  function Log(events: seq<Event>): seq<Attempt> {
    if events == [] then []
    else
      var front, last := events[..|events| - 1], events[|events| - 1];
      match Runs(After(front), last)
      case None => Log(front)
      case Some(reason) => Log(front) + [AttemptOf(After(front).failures, last, reason)]
  }

  /** The loop over the events, with its local variables. */
  method Run(events: seq<Event>) returns (log: seq<Attempt>)
    ensures log == Log(events)
  {
    log := [];
    var wanted: Option<int>, retryAt: Option<int> := None, None;
    var updates: nat, failures: nat := 0, 0;
    for i := 0 to |events|
      invariant Timers(wanted, updates, retryAt, failures) == After(events[..i])
      invariant log == Log(events[..i])
    {
      TakeSnoc(events, i);
      var e := events[i];
      var o := e.outcome;
      var reason;
      if e.Triggered? {
        reason := ByTrigger;
        wanted, updates := o.next, 0;
      } else if retryAt.Some? && !(e.now < retryAt.value) {
        reason := ByRetry;
        wanted, updates := o.next, 0;
      } else if wanted.None? || e.now < wanted.value {
        continue;
      } else {
        reason := ByReupdate;
        wanted, updates := o.next, updates + 1;
      }
      log := log + [AttemptOf(failures, e, reason)];
      if o.failed {
        failures := failures + 1;
        retryAt := Some(o.finished + RetryDelay(failures));
        wanted := None;
      } else {
        retryAt, failures := None, 0;
      }
      if reason == ByReupdate && wanted.Some? {
        if updates == 1 {
          if wanted.value - o.finished < MIN_REUPDATE_DELAY {
            wanted := Some(o.finished + MIN_REUPDATE_DELAY);
          }
        } else {
          wanted := None;
        }
      }
    }
    assert events[..|events|] == events;
  }

  // ---------------------------------------------------------------------------
  // What holds in every run
  // ---------------------------------------------------------------------------

  /** How many of the last discoveries failed in a row. */
  ghost function Streak(log: seq<Attempt>): nat {
    if log == [] || !log[|log| - 1].failed then 0 else 1 + Streak(log[..|log| - 1])
  }

  /** When the next re-update is due: when the last discovery wanted it if that was triggered or a retry;
      after a first re-update half a minute later at least; never after a second one. */
  ghost function NextDue(log: seq<Attempt>): Option<int> {
    if log == [] then None
    else
      var n := |log| - 1;
      if log[n].failed || log[n].next.None? then None
      else if log[n].reason != ByReupdate then log[n].next
      else if n > 0 && log[n - 1].reason == ByReupdate then None
      else if log[n].next.value < log[n].finished + 30 then Some(log[n].finished + 30)
      else log[n].next
  }

  /** The timers, as determined by the discoveries that ran. */
  ghost predicate Fits(t: Timers, log: seq<Attempt>) {
    && (t.retryAt.Some? <==> t.failures > 0)
    && t.failures == Streak(log) && t.wanted == NextDue(log)
    && !(t.retryAt.Some? && t.wanted.Some?)
    && t.updates <= 2
    && (t.updates == 2 ==> t.wanted.None?)
    && t.updates <= |log|
    && (forall i | |log| - t.updates <= i < |log| :: log[i].reason == ByReupdate)
    && (|log| > t.updates ==> log[|log| - t.updates - 1].reason != ByReupdate)
    && (|log| == t.updates ==> log == [] && t == INITIAL)
    && (log != [] ==>
          var last := log[|log| - 1];
          && (last.failed <==> t.retryAt.Some?)
          && (last.failed ==> last.delay == RetryDelay(t.failures)
                              && t.retryAt == Some(last.finished + last.delay))
          && (t.updates > 0 && t.wanted.Some? ==> last.finished + MIN_REUPDATE_DELAY <= t.wanted.value))
  }

  /** How an attempt may follow another. */
  ghost predicate Follows(a: Attempt, b: Attempt) {
    && (a.failed ==> b.reason != ByReupdate)
    && (b.reason == ByRetry ==> a.failed && b.started.Some? && a.finished + a.delay <= b.started.value)
    && (a.reason == ByReupdate && b.reason == ByReupdate
        ==> b.started.Some? && a.finished + MIN_REUPDATE_DELAY <= b.started.value)
    && (a.failed && b.failed ==> a.delay <= b.delay)
  }

  ghost predicate OrderlyAt(log: seq<Attempt>, i: nat) {
    i < |log| ==>
      && (if i == 0 then log[0].reason == ByTrigger else Follows(log[i - 1], log[i]))
      && (i > 1 ==> !(log[i - 2].reason == log[i - 1].reason == log[i].reason == ByReupdate))
      && (log[i].failed ==> MIN_RETRY_DELAY <= log[i].delay <= MAX_RETRY_DELAY)
  }

  ghost predicate Orderly(log: seq<Attempt>) {
    forall i: nat :: OrderlyAt(log, i)
  }

  lemma StepFits(t: Timers, log: seq<Attempt>, e: Event, reason: Reason)
    requires Fits(t, log) && Runs(t, e) == Some(reason)
    ensures Fits(Step(t, e), log + [AttemptOf(t.failures, e, reason)])
  {
    var log' := log + [AttemptOf(t.failures, e, reason)];
    assert forall i | 0 <= i < |log| :: log'[i] == log[i];
    assert log'[|log'| - 1] == AttemptOf(t.failures, e, reason) && log'[..|log|] == log;
  }

  lemma NextFollows(t: Timers, log: seq<Attempt>, e: Event, reason: Reason)
    requires Fits(t, log) && Runs(t, e) == Some(reason) && log != []
    ensures Follows(log[|log| - 1], AttemptOf(t.failures, e, reason))
  {
    RetryDelayBounds(t.failures);
  }

  lemma OrderlySnoc(log: seq<Attempt>, b: Attempt)
    requires Orderly(log)
    requires if log == [] then b.reason == ByTrigger else Follows(log[|log| - 1], b)
    requires |log| > 1 ==> !(log[|log| - 2].reason == log[|log| - 1].reason == b.reason == ByReupdate)
    requires b.failed ==> MIN_RETRY_DELAY <= b.delay <= MAX_RETRY_DELAY
    ensures Orderly(log + [b])
  {
    forall i: nat
      ensures OrderlyAt(log + [b], i)
    {
      assert OrderlyAt(log, i);
    }
  }

  lemma StepOrderly(t: Timers, log: seq<Attempt>, e: Event, reason: Reason)
    requires Fits(t, log) && Orderly(log) && Runs(t, e) == Some(reason)
    ensures Orderly(log + [AttemptOf(t.failures, e, reason)])
  {
    if log != [] {
      NextFollows(t, log, e, reason);
    }
    RetryDelayBounds(t.failures + 1);
    OrderlySnoc(log, AttemptOf(t.failures, e, reason));
  }

  /** In every run the timers fit the discoveries made, and these are orderly. In particular:
      the retry timer is armed exactly when the last discovery failed, never together with a
      wanted update; no three re-updates follow each other; retry delays over consecutive
      failures never decrease and stay between their bounds. */
  lemma {:induction false} EveryRunIsOrderly(events: seq<Event>)
    ensures Fits(After(events), Log(events)) && Orderly(Log(events))
  {
    if events != [] {
      var front, last := events[..|events| - 1], events[|events| - 1];
      EveryRunIsOrderly(front);
      var reason := Runs(After(front), last);
      if reason.Some? {
        StepFits(After(front), Log(front), last, reason.value);
        StepOrderly(After(front), Log(front), last, reason.value);
      }
    }
  }

  // ---------------------------------------------------------------------------
  // When a discovery does run
  // ---------------------------------------------------------------------------

  lemma TimersFit(events: seq<Event>)
    ensures Fits(After(events), Log(events))
  {
    EveryRunIsOrderly(events);
  }

  /** The log grew by one discovery that ran for this event and this reason. */
  ghost predicate RanFor(log: seq<Attempt>, log': seq<Attempt>, e: Event, reason: Reason) {
    && |log'| == |log| + 1 && log'[..|log|] == log
    && var a := log'[|log|];
       && a.reason == reason && a.started == (if e.Tick? then Some(e.now) else None)
       && a.failed == e.outcome.failed && a.finished == e.outcome.finished && a.next == e.outcome.next
  }

  lemma LogSnoc(events: seq<Event>, e: Event)
    ensures match Runs(After(events), e)
            case None => Log(events + [e]) == Log(events)
            case Some(reason) => RanFor(Log(events), Log(events + [e]), e, reason)
  {
    assert (events + [e])[..|events|] == events;
  }

  lemma DueFromLog(t: Timers, log: seq<Attempt>, e: Event)
    requires Fits(t, log) && e.Tick?
    ensures Runs(t, e) ==
            if log == [] then None
            else
              var last := log[|log| - 1];
              if last.failed then (if last.finished + last.delay <= e.now then Some(ByRetry) else None)
              else if NextDue(log).Some? && NextDue(log).value <= e.now then Some(ByReupdate) else None
  {
  }

  /** In every run each trigger runs a discovery. */
  lemma TriggerRuns(events: seq<Event>, o: Outcome)
    ensures RanFor(Log(events), Log(events + [Triggered(o)]), Triggered(o), ByTrigger)
  {
    LogSnoc(events, Triggered(o));
  }

  /** In every run, after a failed discovery a tick retries it once the delay is over, and no earlier
      tick runs anything. After one that did not fail a tick runs the wanted update once it is due, and
      nothing before or if there is none. */
  lemma TickRunsIff(events: seq<Event>, now: int, o: Outcome)
    ensures var log, log', e := Log(events), Log(events + [Tick(now, o)]), Tick(now, o);
            if log == [] then log' == log
            else
              var last := log[|log| - 1];
              if last.failed then
                if last.finished + last.delay <= now then RanFor(log, log', e, ByRetry) else log' == log
              else
                if NextDue(log).Some? && NextDue(log).value <= now then RanFor(log, log', e, ByReupdate) else log' == log
  {
    TimersFit(events);
    DueFromLog(After(events), Log(events), Tick(now, o));
    LogSnoc(events, Tick(now, o));
  }

  /** So an update wanted at t by a triggered discovery or a retry runs at the first tick from t on. */
  lemma WantedUpdateRuns(events: seq<Event>, now: int, o: Outcome, t: int)
    requires Log(events) != []
    requires var last := Log(events)[|Log(events)| - 1];
             !last.failed && last.reason != ByReupdate && last.next == Some(t)
    ensures if t <= now then RanFor(Log(events), Log(events + [Tick(now, o)]), Tick(now, o), ByReupdate)
            else Log(events + [Tick(now, o)]) == Log(events)
  {
    TickRunsIff(events, now, o);
  }

  /** In every run the delay before a retry is half a minute after the first failure in a row, and twice
      the one before after every other, ten minutes at most. */
  lemma DelaysDouble(events: seq<Event>)
    requires Log(events) != [] && Log(events)[|Log(events)| - 1].failed
    ensures var log := Log(events); var last := log[|log| - 1];
            && (Streak(log) == 1 ==> last.delay == 30)
            && (Streak(log) == 2 ==> last.delay == 60) && (Streak(log) == 3 ==> last.delay == 120)
            && (Streak(log) == 4 ==> last.delay == 240) && (Streak(log) == 5 ==> last.delay == 480)
            && (Streak(log) >= 6 ==> last.delay == 600)
  {
    EveryRunIsOrderly(events);
    RetryDelays(Streak(Log(events)));
  }
}
