/** The agent's trigger flags and the debouncer that runs their handler: two locks, a delayed
    goroutine, and no request lost between them. Times are in milliseconds. */
module TriggerDebounce {
  import opened Common

  datatype Flag = Discovery | SendFacts | SystemUpdateMetric | Sighup

  const SECOND_DISCOVERY_DELAY: int := 60_000

  // ---------------------------------------------------------------------------
  // The debouncer
  // ---------------------------------------------------------------------------

  datatype Timing = Timing(delay: int, period: int) {

    /** How long Trigger makes its goroutine sleep. */
    function Wait(now: int, lastRun: Option<int>): int {
      if lastRun.Some? && now - lastRun.value < period then period - (now - lastRun.value) else delay
    }

    /** A negative duration does not sleep at all. */
    function WakeAt(now: int, lastRun: Option<int>): int {
      var wait := Wait(now, lastRun);
      if wait < 0 then now else now + wait
    }

    /** The longer of delay and period (and 0). */
    function Longest(): nat {
      if delay < 0 && period < 0 then 0 else if delay < period then period else delay
    }
  }

  /** The fields of the debouncer, and when its sleeping goroutine may wake, if there is one. */
  datatype Bouncer = Bouncer(runPending: bool, lastRun: Option<int>, wakeAt: Option<int>) {

    function Trigger(timing: Timing, now: int): Bouncer {
      if runPending then this
      else this.(runPending := true, wakeAt := Some(timing.WakeAt(now, lastRun)))
    }

    /** The locked section of the goroutine once it has slept. */
    function Wake(now: int): Bouncer {
      Bouncer(false, Some(now), None)
    }
  }

  class Debouncer {
    const timing: Timing
    var runPending: bool
    var lastRun: Option<int>
    ghost var wakeAt: Option<int>

    ghost function State(): Bouncer
      reads this
    {
      Bouncer(runPending, lastRun, wakeAt)
    }

    constructor (timing: Timing)
      ensures this.timing == timing && State() == Bouncer(false, None, None)
    {
      this.timing, runPending, lastRun, wakeAt := timing, false, None, None;
    }

    /** Returns for how long the goroutine it starts, if any, has to sleep. */
    method Trigger(now: int) returns (sleep: Option<int>)
      modifies this
      ensures State() == old(State()).Trigger(timing, now)
      ensures sleep == if old(runPending) then None else Some(timing.Wait(now, old(lastRun)))
    {
      if runPending {
        return None;
      }
      runPending := true;
      var startDelay := timing.delay;
      if lastRun.Some? {
        var runAgo := now - lastRun.value;
        if runAgo < timing.period {
          startDelay := timing.period - runAgo;
        }
      }
      wakeAt := Some(timing.WakeAt(now, lastRun));
      sleep := Some(startDelay);
    }

    method Wake(now: int)
      requires wakeAt.Some? && wakeAt.value <= now
      modifies this
      ensures State() == old(State()).Wake(now)
    {
      runPending := false;
      lastRun := Some(now);
      wakeAt := None;
    }
  }

  /** The flags the agent guards with its own lock. Firing and misc-task ticks set flags and
      call the debouncer with that lock held; cleaning takes it on its own. */
  class Agent {
    const handler: Debouncer
    var flags: set<Flag>
    var triggerDiscAt: Option<int>

    constructor (handler: Debouncer)
      ensures this.handler == handler && flags == {} && triggerDiscAt.None?
    {
      this.handler, flags, triggerDiscAt := handler, {}, None;
    }

    method FireTrigger(requested: set<Flag>, secondDiscovery: bool, now: int)
      modifies this, handler
      ensures flags == old(flags) + requested
      ensures triggerDiscAt == if secondDiscovery then Some(now + SECOND_DISCOVERY_DELAY) else old(triggerDiscAt)
      ensures handler.State() == old(handler.State()).Trigger(handler.timing, now)
    {
      flags := flags + requested;
      if secondDiscovery {
        triggerDiscAt := Some(now + SECOND_DISCOVERY_DELAY);
      }
      var _ := handler.Trigger(now);
    }

    method MiscTick(now: int)
      modifies this, handler
      ensures if old(triggerDiscAt.Some? && triggerDiscAt.value < now) then
                && triggerDiscAt.None? && flags == old(flags) + {Discovery}
                && handler.State() == old(handler.State()).Trigger(handler.timing, now)
              else
                triggerDiscAt == old(triggerDiscAt) && flags == old(flags) && handler.State() == old(handler.State())
    {
      if triggerDiscAt.Some? && triggerDiscAt.value < now {
        triggerDiscAt := None;
        flags := flags + {Discovery};
        var _ := handler.Trigger(now);
      }
    }

    method CleanTrigger() returns (taken: set<Flag>)
      modifies this
      ensures taken == old(flags) && flags == {} && triggerDiscAt == old(triggerDiscAt)
    {
      taken := flags;
      flags := {};
    }
  }

  /** The debouncer of the agent's triggers, in milliseconds. */
  const AGENT_TIMING := Timing(5_000, 10_000)

  // ---------------------------------------------------------------------------
  // All interleavings
  // ---------------------------------------------------------------------------

  /** firing: somebody holds the agent's lock, has set flags and not yet called Trigger.
      started: runs past the debouncer's lock that have not cleaned the flags yet. */
  datatype State = State(timing: Timing, now: int, live: bool, flags: set<Flag>, discAt: Option<int>,
                         firing: bool, bouncer: Bouncer, started: nat)

  datatype Event =
    | Elapse(now: int)
    | SetFlags(requested: set<Flag>, secondDiscovery: bool)  // FireTrigger, up to its call of Trigger
    | SetDue                                                 // the misc task finding a due second discovery
    | CallTrigger                                            // that call, and the release of the agent's lock
    | Wake
    | Clean
    | Cancel                                                 // of the context
    | Abandon                                                // a started run finding the context cancelled

  function Init(timing: Timing, now: int): State {
    State(timing, now, true, {}, None, false, Bouncer(false, None, None), 0)
  }

  predicate Enabled(s: State, e: Event) {
    match e
    case Elapse(now) => s.now <= now
    case SetFlags(_, _) => !s.firing
    case SetDue => !s.firing && s.discAt.Some? && s.discAt.value < s.now
    case CallTrigger => s.firing
    case Wake => s.bouncer.wakeAt.Some? && s.bouncer.wakeAt.value <= s.now
    case Clean => !s.firing && s.started > 0
    case Cancel => true
    case Abandon => !s.live && s.started > 0
  }

  function Step(s: State, e: Event): State
    requires Enabled(s, e)
  {
    match e
    case Elapse(now) => s.(now := now)
    case SetFlags(requested, second) =>
      s.(firing := true, flags := s.flags + requested,
      discAt := if second then Some(s.now + SECOND_DISCOVERY_DELAY) else s.discAt)
    case SetDue => s.(firing := true, flags := s.flags + {Discovery}, discAt := None)
    case CallTrigger => s.(firing := false, bouncer := s.bouncer.Trigger(s.timing, s.now))
    case Wake => s.(bouncer := s.bouncer.Wake(s.now), started := s.started + 1)
    case Clean => s.(flags := {}, started := s.started - 1)
    case Cancel => s.(live := false)
    case Abandon => s.(started := s.started - 1)
  }

  predicate CanRun(s: State, es: seq<Event>)
    decreases |es|
  {
    es == [] || (Enabled(s, es[0]) && CanRun(Step(s, es[0]), es[1..]))
  }

  function After(s: State, es: seq<Event>): State
    requires CanRun(s, es)
    decreases |es|
  {
    if es == [] then s else After(Step(s, es[0]), es[1..])
  }

  // ---------------------------------------------------------------------------
  // What every step keeps
  // ---------------------------------------------------------------------------

  ghost predicate Inv(s: State) {
    && (s.bouncer.runPending <==> s.bouncer.wakeAt.Some?)
    // No wake-up is lost: a set flag has a run to come.
    && (s.live && s.flags != {} ==> s.firing || s.bouncer.runPending || s.started > 0)
    && (s.bouncer.lastRun.Some? ==> s.bouncer.lastRun.value <= s.now)
    && (s.bouncer.wakeAt.Some? ==> s.bouncer.wakeAt.value <= s.now + s.timing.Longest())
    && (s.bouncer.wakeAt.Some? && s.bouncer.lastRun.Some?
        ==> s.bouncer.lastRun.value + s.timing.period <= s.bouncer.wakeAt.value)
  }

  lemma StepKeepsInv(s: State, e: Event)
    requires Inv(s) && Enabled(s, e)
    ensures Inv(Step(s, e)) && Step(s, e).timing == s.timing
  {
  }

  lemma {:induction false} RunKeepsInv(s: State, es: seq<Event>)
    requires Inv(s) && CanRun(s, es)
    ensures Inv(After(s, es)) && After(s, es).timing == s.timing
    decreases |es|
  {
    if es != [] {
      StepKeepsInv(s, es[0]);
      RunKeepsInv(Step(s, es[0]), es[1..]);
    }
  }

  /** In every run from the start, while the context is live, a set flag implies that a run is
      pending, or started and yet to clean, or about to be requested by the lock's holder. */
  lemma NoRequestIsLost(timing: Timing, now: int, es: seq<Event>)
    requires CanRun(Init(timing, now), es)
    ensures var s := After(Init(timing, now), es);
            s.live && s.flags != {} ==> s.firing || s.bouncer.runPending || s.started > 0
  {
    RunKeepsInv(Init(timing, now), es);
  }

  /** The flags taken by the cleanings of a run. */
  function Taken(s: State, es: seq<Event>): set<Flag>
    requires CanRun(s, es)
    decreases |es|
  {
    if es == [] then {}
    else (if es[0].Clean? then s.flags else {}) + Taken(Step(s, es[0]), es[1..])
  }

  /** A request once set, at any point, is taken by a cleaning or still set; never just dropped. */
  lemma {:induction false} RequestIsTakenOrKept(s: State, es: seq<Event>, f: Flag)
    requires CanRun(s, es) && f in s.flags
    ensures f in Taken(s, es) || f in After(s, es).flags
    decreases |es|
  {
    if es != [] && !es[0].Clean? {
      RequestIsTakenOrKept(Step(s, es[0]), es[1..], f);
    }
  }

  /** After every run from the start that leaves a flag set and the context live, at most four more
      events hand the flag to a run, and they need not wait longer than the longer of the delays. */
  lemma RequestCanBeServed(timing: Timing, now: int, es: seq<Event>, f: Flag) returns (more: seq<Event>)
    requires CanRun(Init(timing, now), es)
    requires After(Init(timing, now), es).live && f in After(Init(timing, now), es).flags
    ensures var s := After(Init(timing, now), es);
            && CanRun(s, more) && |more| <= 4 && f in Taken(s, more)
            && After(s, more).now <= s.now + timing.Longest()
  {
    RunKeepsInv(Init(timing, now), es);
    more := ServeFrom(After(Init(timing, now), es), f);
  }

  lemma ServeFrom(s: State, f: Flag) returns (es: seq<Event>)
    requires Inv(s) && s.live && f in s.flags
    ensures CanRun(s, es) && |es| <= 4 && f in Taken(s, es)
    ensures After(s, es).now <= s.now + s.timing.Longest()
  {
    var unlocked := if s.firing then [CallTrigger] else [];
    var s1 := if s.firing then Step(s, CallTrigger) else s;
    if s.firing {
      StepKeepsInv(s, CallTrigger);
    }
    var rest := ServeUnlocked(s1, f);
    es := unlocked + rest;
    assert s.firing ==> es[0] == CallTrigger && es[1..] == rest;
    assert !s.firing ==> es == rest;
  }

  lemma ServeUnlocked(s: State, f: Flag) returns (es: seq<Event>)
    requires Inv(s) && s.live && f in s.flags && !s.firing
    ensures CanRun(s, es) && |es| <= 3 && f in Taken(s, es)
    ensures After(s, es).now <= s.now + s.timing.Longest()
  {
    if s.started > 0 {
      es := [Clean];
      ServedBy(s, es, f);
    } else {
      var at := s.bouncer.wakeAt.value;
      var late := Elapse(if s.now <= at then at else s.now);
      es := [late, Wake, Clean];
      var s1 := Step(s, late);
      var s2 := Step(s1, Wake);
      assert es[1..] == [Wake, Clean] && es[1..][1..] == [Clean];
      ServedBy(s2, [Clean], f);
      assert CanRun(s1, [Wake, Clean]) && Taken(s1, [Wake, Clean]) == Taken(s2, [Clean]);
    }
  }

  lemma ServedBy(s: State, es: seq<Event>, f: Flag)
    requires es == [Clean] && Enabled(s, Clean) && f in s.flags
    ensures CanRun(s, es) && f in Taken(s, es) && After(s, es).now == s.now
  {
    assert es[1..] == [];
  }

  // ---------------------------------------------------------------------------
  // Spacing
  // ---------------------------------------------------------------------------

  /** When runs were stamped. */
  function Stamps(s: State, es: seq<Event>): seq<int>
    requires CanRun(s, es)
    decreases |es|
  {
    if es == [] then []
    else (if es[0].Wake? then [s.now] else []) + Stamps(Step(s, es[0]), es[1..])
  }

  /** In every run from the start, successive runs are stamped at least a period apart. */
  lemma RunsAreSpaced(timing: Timing, now: int, es: seq<Event>)
    requires CanRun(Init(timing, now), es)
    ensures var stamps := Stamps(Init(timing, now), es);
            forall i | 0 < i < |stamps| :: stamps[i - 1] + timing.period <= stamps[i]
  {
    SpacedFrom(Init(timing, now), es);
  }

  lemma {:induction false} SpacedFrom(s: State, es: seq<Event>)
    requires Inv(s) && CanRun(s, es)
    ensures s.bouncer.lastRun.Some? && Stamps(s, es) != []
            ==> s.bouncer.lastRun.value + s.timing.period <= Stamps(s, es)[0]
    ensures forall i | 0 < i < |Stamps(s, es)| :: Stamps(s, es)[i - 1] + s.timing.period <= Stamps(s, es)[i]
    decreases |es|
  {
    if es != [] {
      StepKeepsInv(s, es[0]);
      SpacedFrom(Step(s, es[0]), es[1..]);
    }
  }

  /** A scheduled wait never exceeds the longer of the delays. It is shorter than the delay,
      against the promise that a run comes no sooner than that after a quiet request, exactly
      when the last run ended less than a period but more than (period - delay) ago. */
  lemma WaitBounds(timing: Timing, now: int, lastRun: Option<int>)
    requires lastRun.Some? ==> lastRun.value <= now
    ensures timing.Wait(now, lastRun) <= timing.Longest()
    ensures timing.Wait(now, lastRun) < timing.delay <==>
            lastRun.Some? && timing.period - timing.delay < now - lastRun.value < timing.period
  {
  }

  /** With the agent's own timing, a request seven seconds after a run waits three seconds only. */
  lemma WaitCanBeShort(now: int)
    ensures AGENT_TIMING.Wait(now, Some(now - 7_000)) == 3_000 < AGENT_TIMING.delay
  {
  }

  /** The wait is the delay when there was no run yet or the last one is a period ago, and otherwise ends
      a period after that run. */
  lemma WaitIs(timing: Timing, now: int, lastRun: Option<int>)
    ensures lastRun.None? ==> timing.Wait(now, lastRun) == timing.delay
    ensures lastRun.Some? ==>
              if now >= lastRun.value + timing.period then timing.Wait(now, lastRun) == timing.delay
              else now + timing.Wait(now, lastRun) == lastRun.value + timing.period
  {
  }

  // ---------------------------------------------------------------------------
  // What a run makes of the requests
  // ---------------------------------------------------------------------------

  ghost predicate Requests(e: Event, f: Flag) {
    (e.SetFlags? && f in e.requested) || (e.SetDue? && f == Discovery)
  }

  ghost predicate NoClean(es: seq<Event>)
    decreases |es|
  {
    es == [] || (!es[0].Clean? && NoClean(es[1..]))
  }

  /** Some event requested the flag, and no later one cleaned. */
  ghost predicate RequestedSinceClean(es: seq<Event>, f: Flag)
    decreases |es|
  {
    es != [] && (RequestedSinceClean(es[1..], f) || (Requests(es[0], f) && NoClean(es[1..])))
  }

  lemma {:induction false} FlagSetFrom(s: State, es: seq<Event>, f: Flag)
    requires CanRun(s, es)
    ensures f in After(s, es).flags <==> RequestedSinceClean(es, f) || (f in s.flags && NoClean(es))
    decreases |es|
  {
    if es != [] {
      FlagSetFrom(Step(s, es[0]), es[1..], f);
    }
  }

  /** In every run from the start a flag is set exactly when it was requested since the last cleaning. */
  lemma FlagSetIff(timing: Timing, now: int, es: seq<Event>, f: Flag)
    requires CanRun(Init(timing, now), es)
    ensures f in After(Init(timing, now), es).flags <==> RequestedSinceClean(es, f)
  {
    FlagSetFrom(Init(timing, now), es, f);
  }

  lemma {:induction false} LastRunFrom(s: State, es: seq<Event>)
    requires CanRun(s, es)
    ensures After(s, es).bouncer.lastRun ==
            if Stamps(s, es) == [] then s.bouncer.lastRun else Some(Stamps(s, es)[|Stamps(s, es)| - 1])
    decreases |es|
  {
    if es != [] {
      LastRunFrom(Step(s, es[0]), es[1..]);
    }
  }

  /** In every run from the start, a request while no run is pending schedules one: after the delay if
      there was none yet or the last is a period ago, else a period after that one. While one is pending,
      a request changes nothing about it. */
  lemma RequestSchedules(timing: Timing, now: int, es: seq<Event>)
    requires CanRun(Init(timing, now), es) && After(Init(timing, now), es).firing
    ensures var s, stamps := After(Init(timing, now), es), Stamps(Init(timing, now), es);
            var s' := Step(s, CallTrigger);
            && !s'.firing && s'.bouncer.runPending && s'.flags == s.flags && s'.started == s.started
            && if s.bouncer.runPending then s'.bouncer.wakeAt == s.bouncer.wakeAt
               else if stamps != [] && s.now < stamps[|stamps| - 1] + timing.period then
                 s'.bouncer.wakeAt == Some(stamps[|stamps| - 1] + timing.period)
               else s'.bouncer.wakeAt == Some(s.now + if timing.delay < 0 then 0 else timing.delay)
  {
    RunKeepsInv(Init(timing, now), es);
    LastRunFrom(Init(timing, now), es);
  }

  /** A second discovery is due a minute after it was asked for, and is requested once that is past. */
  lemma SecondDiscovery(s: State, e: Event)
    requires Enabled(s, e)
    ensures e.SetFlags? && e.secondDiscovery ==> Step(s, e).discAt == Some(s.now + 60_000)
    ensures e.SetDue? ==> Step(s, e).discAt.None? && Discovery in Step(s, e).flags && s.discAt.Some? && s.discAt.value < s.now
    ensures !e.SetDue? && !(e.SetFlags? && e.secondDiscovery) ==> Step(s, e).discAt == s.discAt
    ensures !s.firing && s.discAt.Some? && s.discAt.value < s.now ==> Enabled(s, SetDue)
  {
  }

  /** The runs that started, less those that cleaned or gave up. */
  ghost function Unfinished(es: seq<Event>): int
    decreases |es|
  {
    if es == [] then 0
    else Unfinished(es[1..]) + if es[0].Wake? then 1 else if es[0].Clean? || es[0].Abandon? then -1 else 0
  }

  lemma {:induction false} StartedFrom(s: State, es: seq<Event>)
    requires CanRun(s, es)
    ensures After(s, es).started == s.started + Unfinished(es)
    ensures After(s, es).live <==> s.live && Cancel !in es
    decreases |es|
  {
    if es != [] {
      StartedFrom(Step(s, es[0]), es[1..]);
      assert es == [es[0]] + es[1..];
    }
  }

  /** In every run from the start each run that started has cleaned, given up, or is yet to; and the
      context is live until it is cancelled. */
  lemma StartedAreCounted(timing: Timing, now: int, es: seq<Event>)
    requires CanRun(Init(timing, now), es)
    ensures After(Init(timing, now), es).started == Unfinished(es)
    ensures After(Init(timing, now), es).live <==> Cancel !in es
  {
    StartedFrom(Init(timing, now), es);
  }
}
