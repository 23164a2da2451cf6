/** The cached facts: replaced under a lock, refreshed by one caller at a time. */
module FactsCache {
  import opened Common
  import opened FactsCleaning
  import opened FactStamp

  // ---------------------------------------------------------------------------
  // The provider
  // ---------------------------------------------------------------------------

  /** A facts map as callers get it: an object, which they may keep. */
  class FactsMap {
    var entries: Facts

    constructor (entries: Facts)
      ensures this.entries == entries
    {
      this.entries := entries;
    }
  }

  function Entries(m: FactsMap?): Facts
    reads m
  {
    if m == null then map[] else m.entries
  }

  ghost function Contents(maps: seq<FactsMap>): seq<Facts>
    reads maps
  {
    if maps == [] then [] else Contents(maps[..|maps| - 1]) + [maps[|maps| - 1].entries]
  }

  lemma ContentsLength(maps: seq<FactsMap>)
    ensures |Contents(maps)| == |maps|
    ensures maps != [] ==> Contents(maps)[|maps| - 1] == maps[|maps| - 1].entries
  {
  }

  lemma ContentsSnoc(maps: seq<FactsMap>, m: FactsMap)
    ensures Contents(maps + [m]) == Contents(maps) + [m.entries]
  {
    assert (maps + [m])[..|maps|] == maps;
  }

  /** What a full refresh collects: the facts of the system, of the auto-upgrade and of the cloud, the
      time at which the stamp is decided, and how stamps are read. */
  datatype Sources = Sources(system: Facts, upgrades: Facts, cloud: Facts, time: int, parse: Parser)

  ghost function CleanedOf(facts: Facts): Facts {
    map k | k in facts && CleanValue(facts[k]).Some? :: CleanValue(facts[k]).value
  }

  /** The facts after a full refresh: those of the system and those set by hand, then those of the
      auto-upgrade and of the cloud, cleaned and stamped. */
  ghost function Refresh(was: Facts, manual: Facts, sources: Sources): Facts {
    var own := CleanedOf(sources.system + manual);
    AfterFull(was, CleanedOf(own + sources.upgrades + sources.cloud), sources.time, sources.parse)
  }

  /** The cache: when the last full refresh started, the facts set by hand, the contents of all maps
      that were ever the current one, in order, and the full refresh each stems from. */
  datatype Cache = Cache(last: Option<int>, manual: Facts, versions: seq<Facts>, starts: seq<Option<int>>) {

    function Current(): Facts {
      if versions == [] then map[] else versions[|versions| - 1]
    }

    function Set(key: string, value: string): Cache {
      Cache(last, manual[key := value], versions + [Current()[key := value]], starts + [last])
    }

    function Updated(now: int, facts: Facts): Cache {
      Cache(Some(now), manual, versions + [facts], starts + [Some(now)])
    }

    /** Nothing is replaced when nothing changes. */
    ghost function WithUpgrades(upgrades: Facts, stamp: string): Cache {
      var facts := AfterUpgrades(Current(), upgrades, stamp);
      if facts == Current() then this else this.(versions := versions + [facts], starts := starts + [last])
    }
  }

  predicate IsFresh(last: Option<int>, cutoff: int) {
    last.Some? && last.value >= cutoff
  }

  lemma CleanedIs(cleaned: Facts, facts: Facts)
    requires Cleaned(cleaned, facts)
    ensures cleaned == CleanedOf(facts)
  {
  }

  method CollectFacts(was: Facts, manual: Facts, sources: Sources) returns (facts: Facts)
    ensures facts == Refresh(was, manual, sources)
  {
    var own := CleanFacts(sources.system + manual);
    CleanedIs(own, sources.system + manual);
    var newFacts := CleanFacts(own + sources.upgrades + sources.cloud);
    CleanedIs(newFacts, own + sources.upgrades + sources.cloud);
    var stamp := FactUpdatedAt(was, newFacts, sources.time, sources.parse);
    facts := newFacts[UPDATED_AT := stamp];
  }

  /** Every fact but the stamp has its cleaned value from the last of: the system, SetFact, the
      auto-upgrade and the cloud. */
  lemma RefreshAt(was: Facts, manual: Facts, sources: Sources, key: string)
    requires key != UPDATED_AT
    ensures Lookup(Refresh(was, manual, sources), key) ==
            if key in sources.cloud then CleanValue(sources.cloud[key])
            else if key in sources.upgrades then CleanValue(sources.upgrades[key])
            else if key in manual then CleanValue(manual[key])
            else if key in sources.system then CleanValue(sources.system[key])
            else None
  {
    var own := CleanedOf(sources.system + manual);
    var all := own + sources.upgrades + sources.cloud;
    AfterFullAt(was, CleanedOf(all), sources.time, sources.parse, key);
    if key !in sources.cloud && key !in sources.upgrades && key in own {
      CleanAgain((sources.system + manual)[key]);
      assert all[key] == own[key];
    }
  }

  /** So a fact set by hand is in the refresh, unless the auto-upgrade or the cloud gives the same fact. */
  lemma ManualFactsStay(was: Facts, manual: Facts, sources: Sources, key: string)
    requires key in manual && key !in sources.upgrades && key !in sources.cloud && key != UPDATED_AT
    ensures Lookup(Refresh(was, manual, sources), key) == CleanValue(manual[key])
  {
    RefreshAt(was, manual, sources, key);
  }

  /** Maps are replaced, never modified: the contents of all maps ever published stay as they are. */
  class FactProvider {
    var facts: FactsMap?
    var manualFact: Facts
    var lastFactsUpdate: Option<int>
    ghost var published: seq<FactsMap>
    ghost var starts: seq<Option<int>>

    ghost predicate Valid()
      reads this
    {
      if published == [] then facts == null else facts == published[|published| - 1]
    }

    ghost function View(): Cache
      reads this, published
    {
      Cache(lastFactsUpdate, manualFact, Contents(published), starts)
    }

    constructor ()
      ensures Valid() && View() == Cache(None, map[], [], [])
    {
      facts, manualFact, lastFactsUpdate, published, starts := null, map[], None, [], [];
    }

    /** The facts, and whether their refresh started at or after the cutoff. */
    method CurrentFacts(cutoff: int) returns (current: FactsMap?, recent: bool)
      requires Valid()
      ensures current == facts && Entries(current) == View().Current()
      ensures recent <==> IsFresh(lastFactsUpdate, cutoff)
    {
      ContentsLength(published);
      return facts, lastFactsUpdate.Some? && !(lastFactsUpdate.value < cutoff);
    }

    /** A new map becomes the current one; of: the full refresh it stems from. */
    method Replace(newFacts: Facts, ghost of: Option<int>)
      requires Valid()
      modifies `facts, `published, `starts
      ensures Valid()
      ensures View() == old(View()).(versions := old(View().versions) + [newFacts], starts := old(starts) + [of])
      ensures old(published) <= published && facts != null && fresh(facts) && facts.entries == newFacts
    {
      var replacement := new FactsMap(newFacts);
      ContentsSnoc(published, replacement);
      facts := replacement;
      published := published + [replacement];
      starts := starts + [of];
    }

    lemma CurrentIsLast()
      requires Valid()
      ensures Entries(facts) == View().Current()
    {
      ContentsLength(published);
    }

    method SetFact(key: string, value: string)
      requires Valid()
      modifies this
      ensures Valid() && View() == old(View()).Set(key, value)
      ensures old(published) <= published && facts != null && fresh(facts)
      ensures facts.entries == old(Entries(facts))[key := value] && manualFact == old(manualFact)[key := value]
      ensures lastFactsUpdate == old(lastFactsUpdate)
    {
      CurrentIsLast();
      Replace(Entries(facts)[key := value], lastFactsUpdate);
      manualFact := manualFact[key := value];
    }

    /** A full refresh that started at now. The facts set by hand stay set. */
    method UpdateFacts(now: int, sources: Sources, cancelled: bool)
      requires Valid()
      modifies this
      ensures Valid() && old(published) <= published && manualFact == old(manualFact)
      ensures cancelled ==> View() == old(View()) && facts == old(facts)
      ensures !cancelled ==> facts != null && fresh(facts) && View() == old(View()).Updated(now, facts.entries)
      ensures !cancelled ==> facts.entries == Refresh(old(Entries(facts)), old(manualFact), sources)
    {
      if cancelled {
        return;
      }
      CurrentIsLast();
      var newFacts := CollectFacts(Entries(facts), manualFact, sources);
      Replace(newFacts, Some(now));
      lastFactsUpdate := Some(now);
    }

    /** The locked part of an auto-upgrade refresh. */
    method MergeUpgrades(upgrades: Facts, stamp: string)
      requires Valid()
      modifies this
      ensures Valid() && old(published) <= published
      ensures View() == old(View()).WithUpgrades(upgrades, stamp)
      ensures Entries(facts) == AfterUpgrades(old(Entries(facts)), upgrades, stamp)
      ensures manualFact == old(manualFact) && lastFactsUpdate == old(lastFactsUpdate)
    {
      CurrentIsLast();
      var was := Entries(facts);
      var merged := MergeAutoUpgradeFacts(was, upgrades, stamp);
      if merged != was {
        Replace(merged, lastFactsUpdate);
      }
    }
  }

  // ---------------------------------------------------------------------------
  // Callers of Facts, interleaved
  // ---------------------------------------------------------------------------

  /** Where a caller is: before its first look at the cache; waiting to refresh; allowed to refresh,
      before its second look; collecting; refreshing under the inner lock; back with an answer: the
      number of the map returned. */
  datatype Phase =
    | Arrived
    | Waiting
    | Allowed
    | Collecting
    | Updating(started: int)
    | Returned(version: Option<nat>, failed: bool)

  datatype Caller = Caller(arrival: int, cutoff: int, phase: Phase) {

    predicate Refreshing() {
      phase.Allowed? || phase.Collecting? || phase.Updating?
    }

    /** The answer is as fresh as was asked for, or was made for this caller. */
    predicate Served(starts: seq<Option<int>>) {
      phase.Returned? && !phase.failed ==>
        && phase.version.Some? && phase.version.value < |starts| && starts[phase.version.value].Some?
        && (starts[phase.version.value].value >= cutoff || starts[phase.version.value].value >= arrival)
    }
  }

  /** Who holds the refresh lock: a caller, or a refresh of the auto-upgrade facts. */
  datatype Holder = Nobody | By(c: nat) | UpgradesRefresh

  /** inner: the caller that holds the inner lock across steps. */
  datatype State = State(clock: int, cache: Cache, refresher: Holder, inner: Option<nat>, callers: seq<Caller>)

  /** cancelled: whether the context of the caller has an error by then. */
  datatype Event =
    | Tick(now: int)
    | Arrive(maxAge: int)
    | FirstLook(c: nat, cancelled: bool)
    | Lock(c: nat)
    | SecondLook(c: nat, cancelled: bool)
    | BeginUpdate(c: nat)
    | EndUpdate(c: nat, sources: Sources, cancelled: bool, cancelledLater: bool)
    | BeginUpgrades
    | EndUpgrades(upgrades: Facts, stamp: string, cancelled: bool)
    | SetFact(key: string, value: string)

  ghost predicate Enabled(s: State, e: Event) {
    match e
    case Tick(now) => now >= s.clock
    case Arrive(_) => true
    case FirstLook(c, _) => c < |s.callers| && s.callers[c].phase.Arrived? && s.inner.None?
    case Lock(c) => c < |s.callers| && s.callers[c].phase.Waiting? && s.refresher.Nobody?
    case SecondLook(c, _) => c < |s.callers| && s.callers[c].phase.Allowed? && s.inner.None?
    case BeginUpdate(c) => c < |s.callers| && s.callers[c].phase.Collecting? && s.inner.None?
    case EndUpdate(c, _, _, _) => c < |s.callers| && s.callers[c].phase.Updating?
    case BeginUpgrades => s.refresher.Nobody?
    case EndUpgrades(_, _, _) => s.refresher.UpgradesRefresh? && s.inner.None?
    case SetFact(_, _) => s.inner.None?
  }

  /** The caller comes back with the current map. */
  function Answer(cache: Cache, failed: bool): Phase {
    Returned(if cache.versions == [] then None else Some(|cache.versions| - 1), failed)
  }

  function At(s: State, c: nat, phase: Phase): State
    requires c < |s.callers|
  {
    s.(callers := s.callers[c := s.callers[c].(phase := phase)])
  }

  ghost function Step(s: State, e: Event): State
    requires Enabled(s, e)
  {
    match e
    case Tick(now) => s.(clock := now)
    case Arrive(maxAge) => s.(callers := s.callers + [Caller(s.clock, s.clock - maxAge, Arrived)])
    case FirstLook(c, cancelled) =>
      if IsFresh(s.cache.last, s.callers[c].cutoff) then At(s, c, Answer(s.cache, cancelled)) else At(s, c, Waiting)
    case Lock(c) => At(s, c, Allowed).(refresher := By(c))
    case SecondLook(c, cancelled) =>
      if IsFresh(s.cache.last, s.callers[c].cutoff) then At(s, c, Answer(s.cache, cancelled)).(refresher := Nobody)
      else At(s, c, Collecting)
    case BeginUpdate(c) => At(s, c, Updating(s.clock)).(inner := Some(c))
    case EndUpdate(c, sources, cancelled, cancelledLater) =>
      var cache := if cancelled then s.cache
                   else s.cache.Updated(s.callers[c].phase.started, Refresh(s.cache.Current(), s.cache.manual, sources));
      At(s, c, Answer(cache, cancelled || cancelledLater)).(cache := cache, refresher := Nobody, inner := None)
    case BeginUpgrades => s.(refresher := UpgradesRefresh)
    case EndUpgrades(upgrades, stamp, cancelled) =>
      var cache := if cancelled || s.cache.last.None? then s.cache else s.cache.WithUpgrades(upgrades, stamp);
      s.(cache := cache, refresher := Nobody)
    case SetFact(key, value) => s.(cache := s.cache.Set(key, value))
  }

  ghost predicate CallerOk(s: State, c: nat) {
    c < |s.callers| ==>
      var caller := s.callers[c];
      && caller.arrival <= s.clock && caller.Served(s.cache.starts)
      && (caller.Refreshing() ==> s.refresher == By(c))
      && (caller.phase.Collecting? || caller.phase.Updating? ==> !IsFresh(s.cache.last, caller.cutoff))
      && (caller.phase.Updating? ==> caller.arrival <= caller.phase.started <= s.clock && s.inner == Some(c))
      && (caller.phase.Returned? && caller.phase.version.Some? ==> caller.phase.version.value < |s.cache.versions|)
  }

  /** The current map stems from the last full refresh. */
  predicate CacheOk(cache: Cache) {
    && |cache.versions| == |cache.starts|
    && (if cache.starts == [] then cache.last.None? else cache.starts[|cache.starts| - 1] == cache.last)
  }

  /** A refresh under way started after the one before. */
  ghost predicate Inv(s: State) {
    && CacheOk(s.cache)
    && (s.cache.last.Some? ==> s.cache.last.value <= s.clock && s.cache.versions != [])
    && (s.inner.Some? ==> s.inner.value < |s.callers| && s.callers[s.inner.value].phase.Updating?)
    && (s.refresher.By? ==> s.refresher.c < |s.callers| && s.callers[s.refresher.c].Refreshing())
    && (s.inner.Some? && s.cache.last.Some? ==> s.cache.last.value <= s.callers[s.inner.value].phase.started)
    && forall c: nat :: CallerOk(s, c)
  }

  /** The event belongs to a caller. */
  predicate IsCallers(e: Event) {
    e.FirstLook? || e.Lock? || e.SecondLook? || e.BeginUpdate? || e.EndUpdate?
  }

  lemma OwnEventKeepsCaller(s: State, e: Event)
    requires Inv(s) && Enabled(s, e) && IsCallers(e)
    ensures CallerOk(Step(s, e), e.c)
  {
    assert CallerOk(s, e.c);
  }

  lemma OtherEventKeepsCaller(s: State, e: Event, c: nat)
    requires Inv(s) && Enabled(s, e) && IsCallers(e) && e.c != c
    ensures CallerOk(Step(s, e), c)
  {
    assert CallerOk(s, c) && CallerOk(s, e.c);
  }

  lemma CommonEventKeepsCaller(s: State, e: Event, c: nat)
    requires Inv(s) && Enabled(s, e) && !IsCallers(e)
    ensures CallerOk(Step(s, e), c)
  {
    assert CallerOk(s, c);
  }

  lemma StepKeepsCaller(s: State, e: Event, c: nat)
    requires Inv(s) && Enabled(s, e)
    ensures CallerOk(Step(s, e), c)
  {
    if !IsCallers(e) {
      CommonEventKeepsCaller(s, e, c);
    } else if e.c == c {
      OwnEventKeepsCaller(s, e);
    } else {
      OtherEventKeepsCaller(s, e, c);
    }
  }

  lemma StepKeepsInv(s: State, e: Event)
    requires Inv(s) && Enabled(s, e)
    ensures Inv(Step(s, e))
    ensures s.cache.last.Some? ==> Step(s, e).cache.last.Some? && s.cache.last.value <= Step(s, e).cache.last.value
  {
    forall c: nat
      ensures CallerOk(Step(s, e), c)
    {
      StepKeepsCaller(s, e, c);
    }
    if e.EndUpdate? {
      assert CallerOk(s, e.c);
    }
  }

  ghost predicate Reaches(s: State, events: seq<Event>, s': State)
    decreases |events|
  {
    if events == [] then s == s'
    else Enabled(s, events[0]) && Reaches(Step(s, events[0]), events[1..], s')
  }

  lemma {:induction false} ReachesKeepsInv(s: State, events: seq<Event>, s': State)
    requires Inv(s) && Reaches(s, events, s')
    ensures Inv(s')
    ensures s.cache.last.Some? ==> s'.cache.last.Some? && s.cache.last.value <= s'.cache.last.value
    decreases |events|
  {
    if events != [] {
      StepKeepsInv(s, events[0]);
      ReachesKeepsInv(Step(s, events[0]), events[1..], s');
    }
  }

  function Start(clock: int): State {
    State(clock, Cache(None, map[], [], []), Nobody, None, [])
  }

  /** In every interleaving, facts returned without error come from a refresh that started no
      earlier than the caller's cutoff, if its maximum age is not negative. */
  lemma FactsAreFresh(clock: int, events: seq<Event>, s: State, c: nat)
    requires Reaches(Start(clock), events, s) && c < |s.callers|
    requires s.callers[c].phase.Returned? && !s.callers[c].phase.failed
    ensures s.callers[c].phase.version.Some?
    ensures var v, caller := s.callers[c].phase.version.value, s.callers[c];
            && v < |s.cache.versions| && v < |s.cache.starts| && s.cache.starts[v].Some?
            && (s.cache.starts[v].value >= caller.cutoff || s.cache.starts[v].value >= caller.arrival)
            && (caller.cutoff <= caller.arrival ==> s.cache.starts[v].value >= caller.cutoff)
  {
    ReachesKeepsInv(Start(clock), events, s);
    assert CallerOk(s, c);
  }

  /** No refresh is made in vain: in every interleaving, one that is under way was needed by its
      caller, whatever others refreshed while it waited. */
  lemma NoNeedlessRefresh(clock: int, events: seq<Event>, s: State, c: nat)
    requires Reaches(Start(clock), events, s) && c < |s.callers|
    requires s.callers[c].phase.Collecting? || s.callers[c].phase.Updating?
    ensures s.cache.last.None? || s.cache.last.value < s.callers[c].cutoff
  {
    ReachesKeepsInv(Start(clock), events, s);
    assert CallerOk(s, c);
  }

  /** Whoever comes back has the map that is current at that time, and an error exactly if its context
      has one; the facts are changed only by the refresh of that caller itself. */
  lemma AnswerIsCurrent(s: State, e: Event, c: nat)
    requires Enabled(s, e) && c < |s.callers| && !s.callers[c].phase.Returned?
    requires Step(s, e).callers[c].phase.Returned?
    ensures var s', answer := Step(s, e), Step(s, e).callers[c].phase;
            && answer.version == (if s'.cache.versions == [] then None else Some(|s'.cache.versions| - 1))
            && IsCallers(e) && e.c == c && !e.Lock? && !e.BeginUpdate?
            && (answer.failed <==> e.cancelled || (e.EndUpdate? && e.cancelledLater))
            && (!e.EndUpdate? || e.cancelled ==> s'.cache == s.cache)
  {
  }

  /** A look at the cache sends the caller back exactly if the facts are fresh enough for it: the first
      without waiting for anybody, the second without refreshing again. */
  lemma LooksDecide(s: State, e: Event)
    requires Enabled(s, e) && (e.FirstLook? || e.SecondLook?)
    ensures var s', caller := Step(s, e), s.callers[e.c];
            && (s'.callers[e.c].phase.Returned? <==> s.cache.last.Some? && s.cache.last.value >= caller.cutoff)
            && (!s'.callers[e.c].phase.Returned? ==> s'.callers[e.c].phase == if e.FirstLook? then Waiting else Collecting)
            && s'.refresher == (if e.SecondLook? && s'.callers[e.c].phase.Returned? then Nobody else s.refresher)
            && s'.cache == s.cache
  {
  }

  /** In every interleaving, while some caller is not back yet, it or whoever it waits for can go on. */
  lemma SomebodyCanGoOn(clock: int, events: seq<Event>, s: State, c: nat) returns (e: Event)
    requires Reaches(Start(clock), events, s) && c < |s.callers| && !s.callers[c].phase.Returned?
    ensures Enabled(s, e) && (IsCallers(e) || e.EndUpgrades?)
  {
    ReachesKeepsInv(Start(clock), events, s);
    e := NextEvent(s, c);
  }

  lemma NextEvent(s: State, c: nat) returns (e: Event)
    requires Inv(s) && c < |s.callers| && !s.callers[c].phase.Returned?
    ensures Enabled(s, e) && (IsCallers(e) || e.EndUpgrades?)
  {
    assert CallerOk(s, c);
    if s.inner.Some? {
      return EndUpdate(s.inner.value, Sources(map[], map[], map[], 0, (text: string) => None), true, true);
    }
    match s.refresher
    case UpgradesRefresh => e := EndUpgrades(map[], "", true);
    case By(d) =>
      assert CallerOk(s, d);
      e := if s.callers[d].phase.Allowed? then SecondLook(d, true) else BeginUpdate(d);
    case Nobody =>
      e := if s.callers[c].phase.Arrived? then FirstLook(c, true) else Lock(c);
  }

  lemma StepKeepsAnswer(s: State, e: Event, c: nat)
    requires Enabled(s, e)
    ensures s.cache.versions <= Step(s, e).cache.versions && s.cache.starts <= Step(s, e).cache.starts
    ensures c < |s.callers| && s.callers[c].phase.Returned? ==>
              c < |Step(s, e).callers| && Step(s, e).callers[c] == s.callers[c]
  {
  }

  lemma {:induction false} AnswersStay(s: State, events: seq<Event>, s': State, c: nat)
    requires Reaches(s, events, s')
    ensures s.cache.versions <= s'.cache.versions && s.cache.starts <= s'.cache.starts
    ensures c < |s.callers| && s.callers[c].phase.Returned? ==> c < |s'.callers| && s'.callers[c] == s.callers[c]
    decreases |events|
  {
    if events != [] {
      StepKeepsAnswer(s, events[0], c);
      AnswersStay(Step(s, events[0]), events[1..], s', c);
    }
  }

  /** A map that was returned holds the same facts ever after, whatever is refreshed, merged or set
      later. */
  lemma ReturnedFactsNeverChange(clock: int, before: seq<Event>, s: State, after: seq<Event>, s': State, c: nat)
    requires Reaches(Start(clock), before, s) && Reaches(s, after, s')
    requires c < |s.callers| && s.callers[c].phase.Returned? && s.callers[c].phase.version.Some?
    ensures c < |s'.callers| && s'.callers[c] == s.callers[c]
    ensures var v := s.callers[c].phase.version.value;
            v < |s.cache.versions| && v < |s'.cache.versions| && s'.cache.versions[v] == s.cache.versions[v]
  {
    ReachesKeepsInv(Start(clock), before, s);
    assert CallerOk(s, c);
    AnswersStay(s, after, s', c);
  }

  /** In every interleaving at most one caller refreshes, and not while auto-upgrade facts are. */
  lemma OneRefreshAtATime(clock: int, events: seq<Event>, s: State, c: nat, d: nat)
    requires Reaches(Start(clock), events, s) && c < |s.callers| && d < |s.callers|
    requires s.callers[c].Refreshing()
    ensures s.callers[d].Refreshing() ==> c == d
    ensures s.refresher != UpgradesRefresh
  {
    ReachesKeepsInv(Start(clock), events, s);
    assert CallerOk(s, c) && CallerOk(s, d);
  }

  // ---------------------------------------------------------------------------
  // Facts set by hand
  // ---------------------------------------------------------------------------

  /** The value last given to a key by SetFact. */
  ghost function LastSet(events: seq<Event>, key: string): Option<string> {
    if events == [] then None
    else
      var e, later := events[0], LastSet(events[1..], key);
      if later.Some? then later else if e.SetFact? && e.key == key then Some(e.value) else None
  }

  lemma {:induction false} ManualFrom(s: State, events: seq<Event>, s': State, key: string)
    requires Reaches(s, events, s')
    ensures Lookup(s'.cache.manual, key) ==
            if LastSet(events, key).Some? then LastSet(events, key) else Lookup(s.cache.manual, key)
    decreases |events|
  {
    if events != [] {
      ManualFrom(Step(s, events[0]), events[1..], s', key);
    }
  }

  /** In every interleaving the facts set by hand are those last given to SetFact: no refresh forgets
      any. */
  lemma ManualFactsAreThoseSet(clock: int, events: seq<Event>, s: State, key: string)
    requires Reaches(Start(clock), events, s)
    ensures Lookup(s.cache.manual, key) == LastSet(events, key)
  {
    ManualFrom(Start(clock), events, s, key);
  }

  /** SetFact is seen at once, and changes no other fact. */
  lemma SetFactIsSeen(s: State, key: string, value: string, other: string)
    requires Enabled(s, Event.SetFact(key, value))
    ensures var s' := Step(s, Event.SetFact(key, value));
            && Lookup(s'.cache.Current(), other) == (if other == key then Some(value) else Lookup(s.cache.Current(), other))
            && s'.cache.last == s.cache.last && s'.callers == s.callers
  {
  }

  /** In every interleaving, each full refresh that is not cancelled makes a map in which every fact but
      the stamp is the cleaned one of the cloud, else of the auto-upgrade, else the one last set by hand,
      else of the system. So a fact set by hand is in every later refresh. */
  lemma RefreshedFactsAre(clock: int, events: seq<Event>, s: State, e: Event, key: string)
    requires Reaches(Start(clock), events, s) && Enabled(s, e)
    requires e.EndUpdate? && !e.cancelled && key != UPDATED_AT
    ensures Lookup(Step(s, e).cache.Current(), key) ==
            if key in e.sources.cloud then CleanValue(e.sources.cloud[key])
            else if key in e.sources.upgrades then CleanValue(e.sources.upgrades[key])
            else if LastSet(events, key).Some? then CleanValue(LastSet(events, key).value)
            else if key in e.sources.system then CleanValue(e.sources.system[key])
            else None
    ensures Step(s, e).cache.last == Some(s.callers[e.c].phase.started)
  {
    ManualFactsAreThoseSet(clock, events, s, key);
    RefreshAt(s.cache.Current(), s.cache.manual, e.sources, key);
  }

  /** An auto-upgrade refresh changes its own facts and the stamp only, and nothing before the first
      full refresh or when cancelled. */
  lemma UpgradesAreMerged(s: State, e: Event, key: string)
    requires Enabled(s, e) && e.EndUpgrades? && OnlyUpgrades(e.upgrades)
    ensures var s', facts := Step(s, e), s.cache.Current();
            && s'.cache.last == s.cache.last && s'.callers == s.callers && s'.refresher == Nobody
            && if e.cancelled || s.cache.last.None? then s'.cache == s.cache
               else
                 Lookup(s'.cache.Current(), key) ==
                 if key == ENABLED || key == STATUS then Lookup(e.upgrades, key)
                 else if key == UPDATED_AT && (Lookup(facts, ENABLED) != Lookup(e.upgrades, ENABLED)
                                               || Lookup(facts, STATUS) != Lookup(e.upgrades, STATUS)) then Some(e.stamp)
                 else Lookup(facts, key)
  {
    assert |UPDATED_AT| == 15 && |ENABLED| == 20 && |STATUS| == 19;
    AfterUpgradesAt(s.cache.Current(), e.upgrades, e.stamp, key);
  }
}
