/** The long discovery update, which copies the known services under a lock, works without
    it and commits under it again, while services may be removed in between. */
module DiscoveryUpdate {
  import opened Common
  import opened DiscoveredServices

  const NETSTAT_MAX_AGE: int := 3600

  // ---------------------------------------------------------------------------
  // The work done without the lock
  // ---------------------------------------------------------------------------

  predicate UsePreviousNetstat(now: int, previous: Service, found: Service) {
    && !found.hasNetstatInfo
    && previous.hasNetstatInfo
    && !(found.containerID != "" && found.ipAddress != previous.ipAddress)
    && now - previous.lastNetstatInfo <= NETSTAT_MAX_AGE
  }

  function Inherit(now: int, previous: Service, found: Service): (s: Service)
    ensures s.OwnKey() == found.OwnKey()
  {
    if UsePreviousNetstat(now, previous, found) then
      found.(listen := previous.listen, ipAddress := previous.ipAddress,
      hasNetstatInfo := previous.hasNetstatInfo, lastNetstatInfo := previous.lastNetstatInfo)
    else found
  }

  /** Adds the services found running, in order, to the copy of the known ones. */
  function Merged(known: Services, found: seq<Service>, now: int): Services {
    if found == [] then known
    else
      MergeOne(Merged(known, found[..|found| - 1], now), found[|found| - 1], now)
  }

  function MergeOne(known: Services, s: Service, now: int): Services {
    known[s.OwnKey() := if s.OwnKey() in known then Inherit(now, known[s.OwnKey()], s) else s]
  }

  lemma MergedSnoc(known: Services, found: seq<Service>, s: Service, now: int)
    ensures Merged(known, found + [s], now) == MergeOne(Merged(known, found, now), s, now)
    ensures Keys(found + [s]) == Keys(found) + {s.OwnKey()}
  {
    assert (found + [s])[..|found|] == found;
    KeysSnoc(found, s);
  }

  function Keys(found: seq<Service>): set<Key> {
    set s | s in found :: s.OwnKey()
  }

  /** The loop over what the dynamic discovery returned; ignored services are skipped. */
  method MergeFound(known: Services, returned: seq<Service>, ignored: Service -> bool, now: int)
    returns (services: Services, running: set<Key>)
    ensures services == Merged(known, Filtered(returned, ignored), now)
    ensures running == Keys(Filtered(returned, ignored))
    ensures running == set s | s in returned && !ignored(s) :: s.OwnKey()
  {
    RunningAre(returned, ignored);
    services, running := known, {};
    ghost var found := [];
    for i := 0 to |returned|
      invariant found == Filtered(returned[..i], ignored)
      invariant services == Merged(known, found, now) && running == Keys(found)
    {
      TakeSnoc(returned, i);
      var service := returned[i];
      if ignored(service) {
        continue;
      }
      var key := service.OwnKey();
      if key in services && UsePreviousNetstat(now, services[key], service) {
        service := service.(listen := services[key].listen, ipAddress := services[key].ipAddress,
        hasNetstatInfo := services[key].hasNetstatInfo, lastNetstatInfo := services[key].lastNetstatInfo);
      }
      services := services[key := service];
      running := running + {key};
      MergedSnoc(known, found, returned[i], now);
      found := found + [returned[i]];
    }
    assert returned[..|returned|] == returned;
  }

  function Filtered(returned: seq<Service>, ignored: Service -> bool): seq<Service> {
    if returned == [] then []
    else
      var front, last := Filtered(returned[..|returned| - 1], ignored), returned[|returned| - 1];
      if ignored(last) then front else front + [last]
  }

  lemma {:induction false} FilteredIff(returned: seq<Service>, ignored: Service -> bool, s: Service)
    ensures s in Filtered(returned, ignored) <==> s in returned && !ignored(s)
  {
    if returned != [] {
      FilteredIff(returned[..|returned| - 1], ignored, s);
      assert returned == returned[..|returned| - 1] + [returned[|returned| - 1]];
    }
  }

  lemma RunningAre(returned: seq<Service>, ignored: Service -> bool)
    ensures Keys(Filtered(returned, ignored)) == set s | s in returned && !ignored(s) :: s.OwnKey()
  {
    forall s {
      FilteredIff(returned, ignored, s);
    }
  }

  /** Services are taken in the order in which they were returned. */
  lemma {:induction false} FilteredInOrder(a: seq<Service>, b: seq<Service>, ignored: Service -> bool)
    ensures Filtered(a + b, ignored) == Filtered(a, ignored) + Filtered(b, ignored)
    decreases |b|
  {
    if b == [] {
      assert a + b == a;
    } else {
      FilteredInOrder(a, b[..|b| - 1], ignored);
      assert (a + b)[..|a + b| - 1] == a + b[..|b| - 1];
    }
  }

  /** A service without netstat information of its own takes over the addresses, the IP and the netstat
      information of its earlier self, unless that had none or it is over an hour old, or the service is
      in a container whose IP changed. Nothing else is taken over. */
  lemma InheritIs(now: int, previous: Service, found: Service)
    ensures var r := Inherit(now, previous, found);
            if && !found.hasNetstatInfo && previous.hasNetstatInfo
               && (found.containerID == "" || found.ipAddress == previous.ipAddress)
               && now <= previous.lastNetstatInfo + 3600
            then
              && r.listen == previous.listen && r.ipAddress == previous.ipAddress
              && r.hasNetstatInfo && r.lastNetstatInfo == previous.lastNetstatInfo
              && found == r.(listen := found.listen, ipAddress := found.ipAddress,
                             hasNetstatInfo := found.hasNetstatInfo, lastNetstatInfo := found.lastNetstatInfo)
            else r == found
  {
  }

  // ---------------------------------------------------------------------------
  // The state
  // ---------------------------------------------------------------------------

  /** removed is what was removed since the last update began; the code leaves it set when an
      update is aborted. working is the copy an update in progress works on. */
  datatype State = State(discovered: Services, services: Services, removed: Option<set<Key>>,
                         working: Option<Services>)

  /** Marks a service (in)active and attaches its container; its identity stays. */
  ghost predicate Refreshes(refresh: Service -> Service) {
    forall s {:trigger refresh(s)} :: refresh(s).OwnKey() == s.OwnKey()
  }

  function Refreshed(known: Services, refresh: Service -> Service): Services {
    map k | k in known :: refresh(known[k])
  }

  function Begin(s: State, refresh: Service -> Service): State {
    s.(working := Some(Refreshed(s.discovered, refresh)), removed := Some({}))
  }

  function Abort(s: State): State {
    s.(working := None)
  }

  /** Rules for publishing, fixed for the lifetime of a discovery, and the keys dropped as
      invalid or ignored this time. */
  datatype Publishing = Publishing(overrides: map<Key, Config>, known: set<string>, dropped: set<Key>)

  function Committed(s: State, found: seq<Service>, now: int): Services
    requires s.working.Some?
  {
    Merged(s.working.value, found, now) - ((if s.removed.Some? then s.removed.value else {}) - Keys(found))
  }

  function Commit(s: State, found: seq<Service>, now: int, p: Publishing): State
    requires s.working.Some?
  {
    var discovered := Committed(s, found, now);
    State(discovered, Published(discovered, p.overrides, p.known, p.dropped), None, None)
  }

  function Remove(s: State, keys: set<Key>): State {
    s.(discovered := s.discovered - keys, services := s.services - keys,
    removed := if s.removed.Some? then Some(s.removed.value + keys) else None)
  }

  /** Nothing is published yet, and no update was ever begun. */
  ghost predicate IsInitial(s: State) {
    KeysMatch(s.discovered) && s.services == map[] && s.removed.None? && s.working.None?
  }

  class Discovery {
    var discoveredServicesMap: Services
    var servicesMap: Services
    var removedDuringUpdate: Option<set<Key>>
    ghost var working: Option<Services>

    ghost function Current(): State
      reads this
    {
      State(discoveredServicesMap, servicesMap, removedDuringUpdate, working)
    }

    /** From the services persisted by an earlier run. */
    constructor (initial: seq<Service>)
      ensures IsInitial(Current())
      ensures Current().discovered.Keys == Keys(initial)
      ensures forall i | 0 <= i < |initial| && (forall j | i < j < |initial| :: initial[j].OwnKey() != initial[i].OwnKey()) ::
                initial[i].OwnKey() in Current().discovered && Current().discovered[initial[i].OwnKey()] == initial[i]
    {
      var known: Services := map[];
      for i := 0 to |initial|
        invariant KeysMatch(known)
        invariant known.Keys == Keys(initial[..i])
        invariant forall a | 0 <= a < i && (forall b | a < b < i :: initial[b].OwnKey() != initial[a].OwnKey()) ::
                    initial[a].OwnKey() in known && known[initial[a].OwnKey()] == initial[a]
      {
        TakeSnoc(initial, i);
        known := known[initial[i].OwnKey() := initial[i]];
      }
      assert initial[..|initial|] == initial;
      discoveredServicesMap, servicesMap, removedDuringUpdate, working := known, map[], None, None;
    }

    /** First locked section of an update. */
    method BeginUpdate(refresh: Service -> Service) returns (copy: Services)
      modifies this
      ensures Current() == Begin(old(Current()), refresh)
      ensures working == Some(copy)
    {
      copy := map[];
      var todo := discoveredServicesMap.Keys;
      while todo != {}
        modifies {}
        invariant todo <= discoveredServicesMap.Keys && copy.Keys == discoveredServicesMap.Keys - todo
        invariant forall k | k in copy :: copy[k] == refresh(discoveredServicesMap[k])
      {
        var key :| key in todo;
        copy := copy[key := refresh(discoveredServicesMap[key])];
        todo := todo - {key};
      }
      assert copy == Refreshed(discoveredServicesMap, refresh);
      removedDuringUpdate := Some({});
      working := Some(copy);
    }

    /** Last locked section, given the outcome of the work. */
    method CommitUpdate(services: Services, running: set<Key>, p: Publishing,
                        ghost found: seq<Service>, ghost now: int)
      requires working.Some? && services == Merged(working.value, found, now) && running == Keys(found)
      modifies this
      ensures Current() == Commit(old(Current()), found, now, p)
    {
      var kept := services;
      var todo := if removedDuringUpdate.Some? then removedDuringUpdate.value else {};
      ghost var removed := todo;
      while todo != {}
        modifies {}
        invariant todo <= removed
        invariant kept == services - ((removed - todo) - running)
      {
        var key :| key in todo;
        if key !in running {
          kept := kept - {key};
        }
        todo := todo - {key};
      }
      assert kept == Committed(Current(), found, now);
      removedDuringUpdate := None;
      discoveredServicesMap := kept;
      servicesMap := Published(kept, p.overrides, p.known, p.dropped);
      working := None;
    }

    /** Returns whether a published service was removed, in which case an update is requested. */
    method RemoveIfNonRunning(services: seq<Service>) returns (deleted: bool)
      modifies this
      ensures Current() == Remove(old(Current()), Keys(services))
      ensures deleted <==> Keys(services) * old(servicesMap).Keys != {}
    {
      deleted := false;
      ghost var before := Current();
      RemoveNothing(before);
      assert Keys(services[..0]) == {};
      for i := 0 to |services|
        invariant Current() == Remove(before, Keys(services[..i]))
        invariant deleted <==> Keys(services[..i]) * before.services.Keys != {}
      {
        TakeSnoc(services, i);
        KeysSnoc(services[..i], services[i]);
        RemoveTwice(before, Keys(services[..i]), {services[i].OwnKey()});
        PublishedSnoc(Keys(services[..i]), services[i].OwnKey(), before.services.Keys);
        var known := RemoveOne(services[i].OwnKey());
        deleted := deleted || known;
      }
      assert services[..|services|] == services;
    }

    method RemoveOne(key: Key) returns (known: bool)
      modifies this
      ensures Current() == Remove(old(Current()), {key})
      ensures known <==> key in old(servicesMap)
    {
      known := key in servicesMap;
      servicesMap := servicesMap - {key};
      discoveredServicesMap := discoveredServicesMap - {key};
      if removedDuringUpdate.Some? {
        removedDuringUpdate := Some(removedDuringUpdate.value + {key});
      }
    }
  }

  lemma RemoveNothing(s: State)
    ensures Remove(s, {}) == s
  {
    assert s.discovered - {} == s.discovered && s.services - {} == s.services;
    assert s.removed.Some? ==> s.removed.value + {} == s.removed.value;
  }

  lemma RemoveTwice(s: State, keys: set<Key>, more: set<Key>)
    ensures Remove(Remove(s, keys), more) == Remove(s, keys + more)
  {
    assert s.discovered - keys - more == s.discovered - (keys + more);
    assert s.services - keys - more == s.services - (keys + more);
    assert s.removed.Some? ==> s.removed.value + keys + more == s.removed.value + (keys + more);
  }

  lemma PublishedSnoc(keys: set<Key>, k: Key, published: set<Key>)
    ensures (keys + {k}) * published != {} <==> keys * published != {} || k in published - keys
  {
    if k in published {
      assert k in (keys + {k}) * published;
      assert k in keys ==> k in keys * published;
    }
    if keys * published != {} {
      var x :| x in keys * published;
      assert x in (keys + {k}) * published;
    }
    assert k !in published ==> (keys + {k}) * published == keys * published;
  }

  lemma KeysSnoc(found: seq<Service>, s: Service)
    ensures Keys(found + [s]) == Keys(found) + {s.OwnKey()}
  {
    assert forall x | x in found :: x in found + [s];
    assert s in found + [s];
  }

  // ---------------------------------------------------------------------------
  // All interleavings of one updater with any number of removals
  // ---------------------------------------------------------------------------

  datatype Event =
    | Begins(refresh: Service -> Service)
    | Aborts
    | Commits(found: seq<Service>, now: int, dropped: set<Key>)
    | Removes(keys: set<Key>)

  ghost predicate Enabled(s: State, e: Event) {
    match e
    case Begins(refresh) => s.working.None? && Refreshes(refresh)
    case Aborts => s.working.Some?
    case Commits(_, _, _) => s.working.Some?
    case Removes(_) => true
  }

  /** The overrides and known service types do not change. */
  ghost function Step(s: State, e: Event, p: Publishing): State
    requires Enabled(s, e)
  {
    match e
    case Begins(refresh) => Begin(s, refresh)
    case Aborts => Abort(s)
    case Commits(found, now, dropped) => Commit(s, found, now, p.(dropped := dropped))
    case Removes(keys) => Remove(s, keys)
  }

  ghost predicate CanRun(s: State, es: seq<Event>, p: Publishing)
    decreases |es|
  {
    es == [] || (Enabled(s, es[0]) && CanRun(Step(s, es[0], p), es[1..], p))
  }

  ghost function After(s: State, es: seq<Event>, p: Publishing): State
    requires CanRun(s, es, p)
    decreases |es|
  {
    if es == [] then s else After(Step(s, es[0], p), es[1..], p)
  }

  ghost predicate Inv(s: State, p: Publishing) {
    && KeysMatch(s.discovered)
    && s.services.Keys <= s.discovered.Keys + p.overrides.Keys
    && (s.working.Some? ==>
          && s.removed.Some?
          && KeysMatch(s.working.value)
          && s.discovered.Keys == s.working.value.Keys - s.removed.value)
  }

  lemma {:induction false} MergedKeys(known: Services, found: seq<Service>, now: int)
    ensures Merged(known, found, now).Keys == known.Keys + Keys(found)
    ensures KeysMatch(known) ==> KeysMatch(Merged(known, found, now))
  {
    if found != [] {
      var front, last := found[..|found| - 1], found[|found| - 1];
      MergedKeys(known, front, now);
      KeysSnoc(front, last);
      assert found == front + [last];
    }
  }

  /** What the set of known services does, seen from outside: an update only counts when it
      commits, and then just adds what it found running. */
  ghost function KnownAfter(known: set<Key>, es: seq<Event>): set<Key>
    decreases |es|
  {
    if es == [] then known else KnownAfter(KnownNext(known, es[0]), es[1..])
  }

  ghost function KnownNext(known: set<Key>, e: Event): set<Key> {
    match e
    case Commits(found, _, _) => known + Keys(found)
    case Removes(keys) => known - keys
    case _ => known
  }

  lemma StepIsAtomic(s: State, e: Event, p: Publishing)
    requires Inv(s, p) && Enabled(s, e)
    ensures Inv(Step(s, e, p), p)
    ensures Step(s, e, p).discovered.Keys == KnownNext(s.discovered.Keys, e)
  {
    match e {
      case Begins(refresh) =>
        assert Begin(s, refresh).working.value.Keys - {} == s.discovered.Keys;
      case Commits(found, now, dropped) =>
        MergedKeys(s.working.value, found, now);
        var next := Commit(s, found, now, p.(dropped := dropped));
        assert next.discovered.Keys == s.discovered.Keys + Keys(found);
      case _ =>
    }
  }

  /** In every run from the start, the known services are those of the one-step view: the two-phase update
      acts as if it happened at its commit, whatever was removed while it worked. */
  lemma UpdatesAreAtomic(s: State, es: seq<Event>, p: Publishing)
    requires IsInitial(s) && CanRun(s, es, p)
    ensures After(s, es, p).discovered.Keys == KnownAfter(s.discovered.Keys, es)
    ensures Inv(After(s, es, p), p)
  {
    AtomicFrom(s, es, p);
  }

  lemma {:induction false} AtomicFrom(s: State, es: seq<Event>, p: Publishing)
    requires Inv(s, p) && CanRun(s, es, p)
    ensures Inv(After(s, es, p), p)
    ensures After(s, es, p).discovered.Keys == KnownAfter(s.discovered.Keys, es)
    decreases |es|
  {
    if es != [] {
      StepIsAtomic(s, es[0], p);
      AtomicFrom(Step(s, es[0], p), es[1..], p);
    }
  }

  /** Some commit of the run reports the service running. */
  ghost predicate FoundRunning(es: seq<Event>, k: Key)
    decreases |es|
  {
    es != [] && ((es[0].Commits? && k in Keys(es[0].found)) || FoundRunning(es[1..], k))
  }

  ghost predicate RemovedIn(es: seq<Event>, k: Key)
    decreases |es|
  {
    es != [] && ((es[0].Removes? && k in es[0].keys) || RemovedIn(es[1..], k))
  }

  lemma {:induction false} KnownOnlyIf(known: set<Key>, es: seq<Event>, k: Key)
    ensures k !in known && k in KnownAfter(known, es) ==> FoundRunning(es, k)
    ensures k in known && k !in KnownAfter(known, es) ==> RemovedIn(es, k)
    decreases |es|
  {
    if es != [] {
      KnownOnlyIf(KnownNext(known, es[0]), es[1..], k);
    }
  }

  /** In every run from the start, a removed service comes back only if a later commit reports it
      running, even when the removal fell into an update; and no update loses a service that was not
      removed. */
  lemma RemovedStaysRemoved(start: State, before: seq<Event>, keys: set<Key>, es: seq<Event>, p: Publishing, k: Key)
    requires IsInitial(start) && CanRun(start, before, p)
    requires CanRun(Remove(After(start, before, p), keys), es, p)
    ensures var s := After(start, before, p);
            && (k in keys && k in After(Remove(s, keys), es, p).discovered ==> FoundRunning(es, k))
            && (k in keys && k !in p.overrides && k in After(Remove(s, keys), es, p).services ==> FoundRunning(es, k))
            && (k !in keys && k in s.discovered && !RemovedIn(es, k) ==> k in After(Remove(s, keys), es, p).discovered)
  {
    UpdatesAreAtomic(start, before, p);
    RemovedStaysRemovedFrom(After(start, before, p), keys, es, p, k);
  }

  lemma RemovedStaysRemovedFrom(s: State, keys: set<Key>, es: seq<Event>, p: Publishing, k: Key)
    requires Inv(s, p) && CanRun(Remove(s, keys), es, p)
    ensures k in keys && k in After(Remove(s, keys), es, p).discovered ==> FoundRunning(es, k)
    ensures k in keys && k !in p.overrides && k in After(Remove(s, keys), es, p).services ==> FoundRunning(es, k)
    ensures k !in keys && k in s.discovered && !RemovedIn(es, k) ==> k in After(Remove(s, keys), es, p).discovered
  {
    StepIsAtomic(s, Removes(keys), p);
    assert Step(s, Removes(keys), p) == Remove(s, keys);
    AtomicFrom(Remove(s, keys), es, p);
    KnownOnlyIf(Remove(s, keys).discovered.Keys, es, k);
  }

  // ---------------------------------------------------------------------------
  // The record of removals
  // ---------------------------------------------------------------------------

  ghost predicate NoCommit(es: seq<Event>, from: nat) {
    forall j | from <= j < |es| :: !es[j].Commits?
  }

  /** The last begin or commit of the run is a begin. */
  ghost predicate BegunLast(es: seq<Event>) {
    exists i | 0 <= i < |es| :: es[i].Begins? && NoCommit(es, i + 1)
  }

  lemma BegunLastFront(e: Event, es: seq<Event>)
    ensures BegunLast([e] + es) <==> BegunLast(es) || (e.Begins? && NoCommit(es, 0))
  {
    var all := [e] + es;
    if BegunLast(es) {
      var i :| 0 <= i < |es| && es[i].Begins? && NoCommit(es, i + 1);
      NoCommitShift(e, es, i + 1);
      assert all[i + 1].Begins? && NoCommit(all, i + 2);
    }
    NoCommitShift(e, es, 0);
    assert e.Begins? && NoCommit(es, 0) ==> all[0].Begins? && NoCommit(all, 1);
    if BegunLast(all) {
      var i :| 0 <= i < |all| && all[i].Begins? && NoCommit(all, i + 1);
      if i > 0 {
        NoCommitShift(e, es, i);
        assert es[i - 1].Begins?;
      }
    }
  }

  lemma NoCommitShift(e: Event, es: seq<Event>, from: nat)
    ensures NoCommit([e] + es, from + 1) <==> NoCommit(es, from)
  {
    var all := [e] + es;
    assert forall j | 0 <= j < |es| :: all[j + 1] == es[j];
    if NoCommit(all, from + 1) {
      forall j | from <= j < |es|
        ensures !es[j].Commits?
      {
        assert !all[j + 1].Commits?;
      }
    }
  }

  lemma {:induction false} RecordedFrom(s: State, es: seq<Event>, p: Publishing)
    requires CanRun(s, es, p)
    ensures After(s, es, p).removed.Some? <==> BegunLast(es) || (s.removed.Some? && NoCommit(es, 0))
    decreases |es|
  {
    if es != [] {
      assert es == [es[0]] + es[1..];
      RecordedFrom(Step(s, es[0], p), es[1..], p);
      BegunLastFront(es[0], es[1..]);
      NoCommitShift(es[0], es[1..], 0);
      assert NoCommit(es, 0) <==> !es[0].Commits? && NoCommit(es, 1);
    }
  }

  /** In every run from the start removals are recorded exactly when the last begin or commit was a
      begin, whether or not that update is still at work. */
  lemma RecordedIffBegunLast(s: State, es: seq<Event>, p: Publishing)
    requires IsInitial(s) && CanRun(s, es, p)
    ensures After(s, es, p).removed.Some? <==> BegunLast(es)
  {
    RecordedFrom(s, es, p);
  }

  /** So an aborted update leaves the record behind. */
  lemma AbortKeepsRecord(s: State, refresh: Service -> Service, p: Publishing)
    requires IsInitial(s) && Refreshes(refresh)
    ensures var es := [Begins(refresh), Aborts];
            CanRun(s, es, p) && After(s, es, p).working.None? && After(s, es, p).removed.Some?
  {
    var es := [Begins(refresh), Aborts];
    assert es[1..] == [Aborts] && [Aborts][1..] == [];
    var s1 := Step(s, es[0], p);
    assert CanRun(Step(s1, Aborts, p), [], p) && CanRun(s1, [Aborts], p);
  }

  // ---------------------------------------------------------------------------
  // The committed values
  // ---------------------------------------------------------------------------

  /** The merge works key by key. */
  lemma {:induction false} MergedLocal(known: Services, known': Services, found: seq<Service>, now: int, k: Key)
    requires k in known <==> k in known'
    requires k in known ==> known[k] == known'[k]
    ensures k in Merged(known, found, now) <==> k in Merged(known', found, now)
    ensures k in Merged(known, found, now) ==> Merged(known, found, now)[k] == Merged(known', found, now)[k]
  {
    if found != [] {
      MergedLocal(known, known', found[..|found| - 1], now, k);
    }
  }

  ghost predicate DistinctKeys(found: seq<Service>) {
    forall i, j | 0 <= i < j < |found| :: found[i].OwnKey() != found[j].OwnKey()
  }

  lemma {:induction false} MergedOnce(known: Services, found: seq<Service>, now: int, i: nat)
    requires i < |found| && DistinctKeys(found)
    ensures var k := found[i].OwnKey();
            && k in Merged(known, found, now)
            && Merged(known, found, now)[k] == if k in known then Inherit(now, known[k], found[i]) else found[i]
  {
    var last := |found| - 1;
    var front, k := found[..last], found[i].OwnKey();
    if i < last {
      MergedOnce(known, front, now, i);
    } else {
      NotYetMerged(known, front, now, k);
    }
  }

  lemma {:induction false} NotYetMerged(known: Services, found: seq<Service>, now: int, k: Key)
    requires forall i | 0 <= i < |found| :: found[i].OwnKey() != k
    ensures k in Merged(known, found, now) <==> k in known
    ensures k in known ==> Merged(known, found, now)[k] == known[k]
  {
    if found != [] {
      NotYetMerged(known, found[..|found| - 1], now, k);
    }
  }

  /** What the update commits after `gone` was removed since it began with `known`. */
  ghost function TwoPhase(known: Services, gone: set<Key>, found: seq<Service>, now: int): Services {
    Merged(known, found, now) - (gone - Keys(found))
  }

  /** What one atomic update of the services known at the commit would give. */
  ghost function OnePhase(known: Services, gone: set<Key>, found: seq<Service>, now: int): Services {
    Merged(known - gone, found, now)
  }

  /** Begin, any number of removals, commit: the result is the two-phase one. */
  lemma {:induction false} CommitAfterRemovals(s: State, removals: seq<set<Key>>, found: seq<Service>, now: int)
    requires s.working.Some? && s.removed.Some?
    ensures AllRemoved(s, removals).working == s.working && AllRemoved(s, removals).removed.Some?
    ensures Committed(AllRemoved(s, removals), found, now)
            == TwoPhase(s.working.value, s.removed.value + Union(removals), found, now)
    decreases |removals|
  {
    if removals != [] {
      CommitAfterRemovals(Remove(s, removals[0]), removals[1..], found, now);
      assert s.removed.value + removals[0] + Union(removals[1..]) == s.removed.value + Union(removals);
    } else {
      assert s.removed.value + {} == s.removed.value;
    }
  }

  ghost function AllRemoved(s: State, removals: seq<set<Key>>): State
    decreases |removals|
  {
    if removals == [] then s else AllRemoved(Remove(s, removals[0]), removals[1..])
  }

  ghost function Union(removals: seq<set<Key>>): set<Key> {
    if removals == [] then {} else removals[0] + Union(removals[1..])
  }

  /** Except for services both removed meanwhile and found running, every committed service is
      the one an atomic update would give. */
  lemma TwoPhaseValues(known: Services, gone: set<Key>, found: seq<Service>, now: int, k: Key)
    requires !(k in gone && k in Keys(found))
    ensures k in TwoPhase(known, gone, found, now) <==> k in OnePhase(known, gone, found, now)
    ensures k in TwoPhase(known, gone, found, now)
            ==> TwoPhase(known, gone, found, now)[k] == OnePhase(known, gone, found, now)[k]
  {
    MergedKeys(known, found, now);
    MergedKeys(known - gone, found, now);
    if k !in gone {
      MergedLocal(known, known - gone, found, now, k);
    }
  }

  /** A service removed meanwhile and found running takes over the netstat information of its
      removed self when it has none of its own. That is the only difference: the two-phase
      update equals the atomic one exactly when no such service is given that information. */
  lemma TwoPhaseIsOnePhaseIff(known: Services, gone: set<Key>, found: seq<Service>, now: int)
    requires DistinctKeys(found)
    ensures TwoPhase(known, gone, found, now) == OnePhase(known, gone, found, now) <==>
            forall i | 0 <= i < |found| && found[i].OwnKey() in gone && found[i].OwnKey() in known ::
              !UsePreviousNetstat(now, known[found[i].OwnKey()], found[i])
  {
    var two, one := TwoPhase(known, gone, found, now), OnePhase(known, gone, found, now);
    MergedKeys(known, found, now);
    MergedKeys(known - gone, found, now);
    assert two.Keys == one.Keys;
    forall i | 0 <= i < |found|
      ensures var k := found[i].OwnKey();
              && k in two && k in one
              && (k in gone && k in known ==> one[k] == found[i] && two[k] == Inherit(now, known[k], found[i]))
              && (!(k in gone && k in known) ==> one[k] == two[k])
    {
      assert found[i] in found;
      MergedOnce(known, found, now, i);
      MergedOnce(known - gone, found, now, i);
    }
    forall k | k in two && k !in Keys(found)
      ensures two[k] == one[k]
    {
      TwoPhaseValues(known, gone, found, now, k);
    }
    SameMaps(two, one, found);
  }

  lemma SameMaps(two: Services, one: Services, found: seq<Service>)
    requires two.Keys == one.Keys
    requires forall k | k in two && k !in Keys(found) :: two[k] == one[k]
    requires forall i | 0 <= i < |found| :: found[i].OwnKey() in two
    ensures two == one <==> forall i | 0 <= i < |found| :: two[found[i].OwnKey()] == one[found[i].OwnKey()]
  {
    if forall i | 0 <= i < |found| :: two[found[i].OwnKey()] == one[found[i].OwnKey()] {
      forall k | k in two
        ensures two[k] == one[k]
      {
        if k in Keys(found) {
          var s :| s in found && s.OwnKey() == k;
          var i :| 0 <= i < |found| && found[i] == s;
        }
      }
    }
  }

  lemma MergedOnly(known: Services, found: Service, now: int)
    requires known.Keys <= {found.OwnKey()}
    ensures var k := found.OwnKey();
            Merged(known, [found], now) == map[k := if k in known then Inherit(now, known[k], found) else found]
    ensures Keys([found]) == {found.OwnKey()}
  {
    assert [found][..0] == [] && Merged(known, [], now) == known;
    assert found in [found];
  }

  /** What is known after one service was removed and an update found it running, the removal coming
      before the update or falling into it. */
  lemma RemovalBeforeUpdate(previous: Service, found: Service, now: int, refresh: Service -> Service, p: Publishing)
    requires previous.OwnKey() == found.OwnKey() && Refreshes(refresh) && refresh(previous) == previous
    ensures var k := found.OwnKey();
            var s, es := Knowing(previous), [Removes({k}), Begins(refresh), Commits([found], now, {})];
            CanRun(s, es, p) && After(s, es, p).discovered == map[k := found]
  {
    var k, s := found.OwnKey(), Knowing(previous);
    AfterThree(s, Removes({k}), Begins(refresh), Commits([found], now, {}), p);
    var s2 := Step(Step(s, Removes({k}), p), Begins(refresh), p);
    assert s2.working.value == map[];
    MergedOnly(map[], found, now);
  }

  lemma RemovalDuringUpdate(previous: Service, found: Service, now: int, refresh: Service -> Service, p: Publishing)
    requires previous.OwnKey() == found.OwnKey() && Refreshes(refresh) && refresh(previous) == previous
    ensures var k := found.OwnKey();
            var s, es := Knowing(previous), [Begins(refresh), Removes({k}), Commits([found], now, {})];
            CanRun(s, es, p) && After(s, es, p).discovered == map[k := Inherit(now, previous, found)]
  {
    var k, s := found.OwnKey(), Knowing(previous);
    AfterThree(s, Begins(refresh), Removes({k}), Commits([found], now, {}), p);
    var s2 := Step(Step(s, Begins(refresh), p), Removes({k}), p);
    assert s2.working.value == map[k := previous];
    MergedOnly(map[k := previous], found, now);
  }

  /** A start at which one service is known. */
  function Knowing(previous: Service): State {
    State(map[previous.OwnKey() := previous], map[], None, None)
  }

  /** Two runs from a start that differ only in whether a removal comes before an update or falls into
      it: the service, found running, takes over the netstat information of its removed self in the
      second alone. */
  lemma RemovedSelfIsInherited(p: Publishing) returns (s: State, early: seq<Event>, late: seq<Event>, k: Key)
    ensures IsInitial(s) && CanRun(s, early, p) && CanRun(s, late, p)
    ensures k in After(s, early, p).discovered && !After(s, early, p).discovered[k].hasNetstatInfo
    ensures k in After(s, late, p).discovered && After(s, late, p).discovered[k].hasNetstatInfo
  {
    var found, previous, same := NO_SERVICE, NO_SERVICE.(hasNetstatInfo := true), (x: Service) => x;
    k, s := found.OwnKey(), Knowing(previous);
    early := [Removes({k}), Begins(same), Commits([found], 0, {})];
    late := [Begins(same), Removes({k}), Commits([found], 0, {})];
    RemovalBeforeUpdate(previous, found, 0, same, p);
    RemovalDuringUpdate(previous, found, 0, same, p);
  }

  lemma AfterThree(s: State, a: Event, b: Event, c: Event, p: Publishing)
    requires Enabled(s, a) && Enabled(Step(s, a, p), b) && Enabled(Step(Step(s, a, p), b, p), c)
    ensures CanRun(s, [a, b, c], p) && After(s, [a, b, c], p) == Step(Step(Step(s, a, p), b, p), c, p)
  {
    assert [a, b, c][1..] == [b, c] && [b, c][1..] == [c] && [c][1..] == [];
    var s1 := Step(s, a, p);
    var s2 := Step(s1, b, p);
    var s3 := Step(s2, c, p);
    assert CanRun(s3, [], p) && After(s3, [], p) == s3;
    assert CanRun(s2, [c], p) && After(s2, [c], p) == s3;
    assert CanRun(s1, [b, c], p) && After(s1, [b, c], p) == s3;
  }

  // ---------------------------------------------------------------------------
  // What an update and a removal leave
  // ---------------------------------------------------------------------------

  lemma {:induction false} RemovalsAt(s: State, removals: seq<set<Key>>, k: Key)
    ensures var s' := AllRemoved(s, removals);
            && s'.working == s.working
            && (k in s'.discovered <==> k in s.discovered && k !in Union(removals))
            && (k in s'.services <==> k in s.services && k !in Union(removals))
            && (k in s'.discovered ==> s'.discovered[k] == s.discovered[k])
            && (k in s'.services ==> s'.services[k] == s.services[k])
    decreases |removals|
  {
    if removals != [] {
      RemovalsAt(Remove(s, removals[0]), removals[1..], k);
    }
  }

  /** While an update is at work, and if it is aborted, everything else stays as it was but for what is
      removed. */
  lemma UpdateAtWork(s: State, refresh: Service -> Service, removals: seq<set<Key>>, k: Key)
    ensures var s' := AllRemoved(Begin(s, refresh), removals);
            && (k in s'.services <==> k in s.services && k !in Union(removals))
            && (k in s'.services ==> s'.services[k] == s.services[k])
            && (k in s'.discovered <==> k in s.discovered && k !in Union(removals))
            && (k in s'.discovered ==> s'.discovered[k] == s.discovered[k])
            && Abort(s').services == s'.services && Abort(s').discovered == s'.discovered
  {
    RemovalsAt(Begin(s, refresh), removals, k);
  }

  /** A whole update, with any removals while it is at work: a service found running is known, with what
      it takes over from its refreshed earlier self; any other is known if it was and was not removed,
      refreshed; and all that are known or configured are published unless dropped. */
  lemma UpdateGives(s: State, refresh: Service -> Service, removals: seq<set<Key>>, found: seq<Service>, now: int,
                    p: Publishing, k: Key)
    requires DistinctKeys(found)
    ensures AllRemoved(Begin(s, refresh), removals).working.Some?
    ensures var s' := Commit(AllRemoved(Begin(s, refresh), removals), found, now, p);
            && s'.working.None? && s'.removed.None?
            && (k in s'.services <==> (k in s'.discovered || k in p.overrides) && k !in p.dropped)
            && (k !in Keys(found) ==>
                  && (k in s'.discovered <==> k in s.discovered && k !in Union(removals))
                  && (k in s'.discovered ==> s'.discovered[k] == refresh(s.discovered[k])))
            && (forall i | 0 <= i < |found| && found[i].OwnKey() == k ::
                  && k in s'.discovered
                  && s'.discovered[k] ==
                     if k in s.discovered then Inherit(now, refresh(s.discovered[k]), found[i]) else found[i])
  {
    var begun := Begin(s, refresh);
    var copy, s' := begun.working.value, AllRemoved(begun, removals);
    CommitAfterRemovals(begun, removals, found, now);
    assert {} + Union(removals) == Union(removals);
    var committed := Committed(s', found, now);
    assert committed == Merged(copy, found, now) - (Union(removals) - Keys(found));
    PublishedConfig(committed, p.overrides, p.known, p.dropped, k);
    MergedKeys(copy, found, now);
    if k !in Keys(found) {
      assert forall i | 0 <= i < |found| :: found[i] in found && found[i].OwnKey() in Keys(found);
      NotYetMerged(copy, found, now, k);
    }
    forall i | 0 <= i < |found| && found[i].OwnKey() == k
      ensures k in committed
      ensures committed[k] == if k in s.discovered then Inherit(now, refresh(s.discovered[k]), found[i]) else found[i]
    {
      assert found[i] in found;
      MergedOnce(copy, found, now, i);
    }
  }

  /** When a service was returned twice, the last one decides all but what may be taken over. */
  lemma {:induction false} LastFoundDecides(known: Services, found: seq<Service>, now: int, i: nat)
    requires i < |found| && forall j | i < j < |found| :: found[j].OwnKey() != found[i].OwnKey()
    ensures var k, services := found[i].OwnKey(), Merged(known, found, now);
            && k in services
            && services[k] == found[i].(listen := services[k].listen, ipAddress := services[k].ipAddress,
                                        hasNetstatInfo := services[k].hasNetstatInfo,
                                        lastNetstatInfo := services[k].lastNetstatInfo)
  {
    var last := |found| - 1;
    if i < last {
      LastFoundDecides(known, found[..last], now, i);
    }
  }
}
