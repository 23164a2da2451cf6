/** Marking series as stale when an input no longer gives them. */
module StaleMarkers {
  import opened Common

  // ---------------------------------------------------------------------------
  // The nested caches
  // ---------------------------------------------------------------------------

  /** How a value was handed on: through a callback, or with annotations. */
  datatype Cached = Cached(callback: Option<string>, annotations: int)

  type TagsCache = map<string, Cached>
  type FieldsCache = map<string, TagsCache>
  /** By measurement, then field, then tags written as text. */
  type Cache = map<string, FieldsCache>

  datatype Series = Series(measurement: string, field: string, tags: string)

  function FieldLookup(m: FieldsCache, field: string, tags: string): Option<Cached> {
    if field in m && tags in m[field] then Some(m[field][tags]) else None
  }

  function Lookup(c: Cache, s: Series): Option<Cached> {
    if s.measurement in c then FieldLookup(c[s.measurement], s.field, s.tags) else None
  }

  /** The cache as one map over series. */
  ghost function Flat(c: Cache): map<Series, Cached> {
    var all := set m, f, t | m in c && f in c[m] && t in c[m][f] :: Series(m, f, t);
    map s | s in all && Lookup(c, s).Some? :: Lookup(c, s).value
  }

  lemma FlatAt(c: Cache, s: Series)
    ensures s in Flat(c) <==> Lookup(c, s).Some?
    ensures s in Flat(c) ==> Flat(c)[s] == Lookup(c, s).value
  {
    if Lookup(c, s).Some? {
      assert Series(s.measurement, s.field, s.tags) == s;
    }
  }

  // ---------------------------------------------------------------------------
  // Recording what an input gives
  // ---------------------------------------------------------------------------

  method AddFields(known: FieldsCache, fields: set<string>, tags: string, cached: Cached) returns (m: FieldsCache)
    ensures forall f, t :: FieldLookup(m, f, t) ==
                           if f in fields && t == tags then Some(cached) else FieldLookup(known, f, t)
  {
    m := known;
    var todo := fields;
    while todo != {}
      invariant todo <= fields
      invariant forall f, t :: FieldLookup(m, f, t) ==
                               if f in fields - todo && t == tags then Some(cached) else FieldLookup(known, f, t)
    {
      var field :| field in todo;
      ghost var before := m;
      if field !in m {
        m := m[field := map[]];
      }
      m := m[field := m[field][tags := cached]];
      todo := todo - {field};
      forall f, t
        ensures FieldLookup(m, f, t) == if f == field && t == tags then Some(cached) else FieldLookup(before, f, t)
      {
      }
    }
  }

  // ---------------------------------------------------------------------------
  // Markers
  // ---------------------------------------------------------------------------

  /** A stale value sent for a series, the way its last value was. */
  datatype Marker = Marker(series: Series, cached: Cached)

  /** How often a marker is due, given what was cached for its series. */
  function Due(x: Marker, was: Option<Cached>, latest: Cache): nat {
    if was == Some(x.cached) && Lookup(latest, x.series).None? then 1 else 0
  }

  method MarkTags(measurement: string, field: string, tags: TagsCache, latest: Cache) returns (markers: multiset<Marker>)
    ensures forall x: Marker :: markers[x] ==
                                if x.series.measurement == measurement && x.series.field == field && x.series.tags in tags
                                then Due(x, Some(tags[x.series.tags]), latest) else 0
  {
    markers := multiset{};
    var todo := tags.Keys;
    while todo != {}
      invariant todo <= tags.Keys
      invariant forall x: Marker ::
                  markers[x] == if x.series.measurement == measurement && x.series.field == field
                                   && x.series.tags in tags && x.series.tags !in todo
                                then Due(x, Some(tags[x.series.tags]), latest) else 0
    {
      var tag :| tag in todo;
      var seen := false;
      if measurement in latest {
        if field in latest[measurement] {
          if tag in latest[measurement][field] {
            seen := true;
          }
        }
      }
      if !seen {
        markers := markers + multiset{Marker(Series(measurement, field, tag), tags[tag])};
      }
      todo := todo - {tag};
    }
  }

  method MarkFields(measurement: string, fields: FieldsCache, latest: Cache) returns (markers: multiset<Marker>)
    ensures forall x: Marker :: markers[x] ==
                                if x.series.measurement == measurement
                                then Due(x, FieldLookup(fields, x.series.field, x.series.tags), latest) else 0
  {
    markers := multiset{};
    var todo := fields.Keys;
    while todo != {}
      invariant todo <= fields.Keys
      invariant forall x: Marker ::
                  markers[x] == if x.series.measurement == measurement && x.series.field !in todo
                                then Due(x, FieldLookup(fields, x.series.field, x.series.tags), latest) else 0
    {
      var field :| field in todo;
      var more := MarkTags(measurement, field, fields[field], latest);
      markers := markers + more;
      todo := todo - {field};
    }
  }

  method MarkAll(c: Cache, latest: Cache) returns (markers: multiset<Marker>)
    ensures forall x: Marker :: markers[x] == Due(x, Lookup(c, x.series), latest)
  {
    markers := multiset{};
    var todo := c.Keys;
    while todo != {}
      invariant todo <= c.Keys
      invariant forall x: Marker ::
                  markers[x] == if x.series.measurement !in todo then Due(x, Lookup(c, x.series), latest) else 0
    {
      var measurement :| measurement in todo;
      var more := MarkFields(measurement, c[measurement], latest);
      markers := markers + more;
      todo := todo - {measurement};
    }
  }

  // ---------------------------------------------------------------------------
  // Bringing the cache up to date
  // ---------------------------------------------------------------------------

  method CopyFields(known: FieldsCache, fields: FieldsCache) returns (m: FieldsCache)
    ensures forall f, t :: FieldLookup(m, f, t) ==
                           if FieldLookup(fields, f, t).Some? then FieldLookup(fields, f, t) else FieldLookup(known, f, t)
  {
    m := known;
    var todo := fields.Keys;
    while todo != {}
      invariant todo <= fields.Keys
      invariant forall f, t :: FieldLookup(m, f, t) ==
                               if f !in todo && FieldLookup(fields, f, t).Some? then FieldLookup(fields, f, t)
                               else FieldLookup(known, f, t)
    {
      var field :| field in todo;
      ghost var before := m;
      if field !in m {
        m := m[field := map[]];
      }
      m := m[field := m[field] + fields[field]];
      todo := todo - {field};
      forall f, t
        ensures FieldLookup(m, f, t) == if f == field && FieldLookup(fields, f, t).Some? then FieldLookup(fields, f, t)
                                        else FieldLookup(before, f, t)
      {
      }
    }
  }

  method CopyAll(known: Cache, latest: Cache) returns (c: Cache)
    ensures forall s :: Lookup(c, s) == if Lookup(latest, s).Some? then Lookup(latest, s) else Lookup(known, s)
  {
    c := known;
    var todo := latest.Keys;
    while todo != {}
      invariant todo <= latest.Keys
      invariant forall s :: Lookup(c, s) ==
                            if s.measurement !in todo && Lookup(latest, s).Some? then Lookup(latest, s) else Lookup(known, s)
    {
      var measurement :| measurement in todo;
      ghost var before := c;
      if measurement !in c {
        c := c[measurement := map[]];
      }
      var fields := CopyFields(c[measurement], latest[measurement]);
      c := c[measurement := fields];
      todo := todo - {measurement};
      forall s: Series
        ensures Lookup(c, s) == if s.measurement == measurement && Lookup(latest, s).Some? then Lookup(latest, s)
                                else Lookup(before, s)
      {
      }
    }
  }

  // ---------------------------------------------------------------------------
  // The accumulator of one gather
  // ---------------------------------------------------------------------------

  /** The cache after a gather. */
  ghost function NextCache(cache: map<Series, Cached>, seen: map<Series, Cached>, skip: bool): map<Series, Cached> {
    if skip then cache + seen else seen
  }

  /** The markers of a gather: one for each series in the cache that was not seen, unless skipped. */
  ghost predicate AreMarkers(markers: multiset<Marker>, cache: map<Series, Cached>, seen: map<Series, Cached>, skip: bool) {
    forall x: Marker :: markers[x] == if !skip && x.series in cache && x.series !in seen && x.cached == cache[x.series]
                                      then 1 else 0
  }

  lemma FlatCopied(c: Cache, known: Cache, latest: Cache)
    requires forall s :: Lookup(c, s) == if Lookup(latest, s).Some? then Lookup(latest, s) else Lookup(known, s)
    ensures Flat(c) == Flat(known) + Flat(latest)
  {
    forall s: Series
      ensures s in Flat(c) <==> s in Flat(known) + Flat(latest)
      ensures s in Flat(c) ==> Flat(c)[s] == (Flat(known) + Flat(latest))[s]
    {
      FlatAt(c, s);
      FlatAt(known, s);
      FlatAt(latest, s);
    }
  }

  lemma FlatAdded(c: Cache, measurement: string, m: FieldsCache, fields: set<string>, tags: string, cached: Cached)
    requires forall f, t :: FieldLookup(m, f, t) ==
                            if f in fields && t == tags then Some(cached)
                            else FieldLookup(if measurement in c then c[measurement] else map[], f, t)
    ensures Flat(c[measurement := m]) == Flat(c) + map f | f in fields :: Series(measurement, f, tags) := cached
  {
    var added := map f | f in fields :: Series(measurement, f, tags) := cached;
    var c' := c[measurement := m];
    forall s: Series
      ensures s in Flat(c') <==> s in Flat(c) + added
      ensures s in Flat(c') ==> Flat(c')[s] == (Flat(c) + added)[s]
    {
      FlatAt(c', s);
      FlatAt(c, s);
      assert s.measurement == measurement ==> Lookup(c', s) == FieldLookup(m, s.field, s.tags);
    }
  }

  lemma MarkersAre(markers: multiset<Marker>, c: Cache, latest: Cache)
    requires forall x: Marker :: markers[x] == Due(x, Lookup(c, x.series), latest)
    ensures AreMarkers(markers, Flat(c), Flat(latest), false)
  {
    forall x: Marker
      ensures markers[x] == if x.series in Flat(c) && x.series !in Flat(latest) && x.cached == Flat(c)[x.series]
                            then 1 else 0
    {
      FlatAt(c, x.series);
      FlatAt(latest, x.series);
    }
  }

  class InactiveMarkerAccumulator {
    var latestValues: Cache
    var fieldCaches: Cache

    constructor (caches: Cache)
      ensures latestValues == map[] && fieldCaches == caches
    {
      latestValues := map[];
      fieldCaches := caches;
    }

    /** Every field is recorded under its measurement and tags. */
    method DoAdd(measurement: string, fields: set<string>, tags: string, cached: Cached)
      modifies `latestValues
      ensures Flat(latestValues) == old(Flat(latestValues)) + map f | f in fields :: Series(measurement, f, tags) := cached
    {
      var known := if measurement in latestValues then latestValues[measurement] else map[];
      var m := AddFields(known, fields, tags, cached);
      FlatAdded(latestValues, measurement, m, fields, tags, cached);
      latestValues := latestValues[measurement := m];
    }

    method DeactivateUnseenMetrics(skipDeactivation: bool) returns (markers: multiset<Marker>)
      modifies `fieldCaches
      ensures AreMarkers(markers, old(Flat(fieldCaches)), Flat(latestValues), skipDeactivation)
      ensures Flat(fieldCaches) == NextCache(old(Flat(fieldCaches)), Flat(latestValues), skipDeactivation)
      ensures forall s | s in Flat(latestValues) :: s in Flat(fieldCaches) && Flat(fieldCaches)[s] == Flat(latestValues)[s]
      ensures forall s | s !in Flat(latestValues) :: s in Flat(fieldCaches) <==> skipDeactivation && s in old(Flat(fieldCaches))
    {
      markers := multiset{};
      ghost var cache := fieldCaches;
      if !skipDeactivation {
        markers := MarkAll(fieldCaches, latestValues);
        fieldCaches := map[];
        MarkersAre(markers, cache, latestValues);
      }
      ghost var kept := fieldCaches;
      var copied := CopyAll(fieldCaches, latestValues);
      FlatCopied(copied, kept, latestValues);
      fieldCaches := copied;
    }
  }

  // ---------------------------------------------------------------------------
  // All gathers of one input, one after the other
  // ---------------------------------------------------------------------------

  /** Seconds during which a failing input may keep its series. */
  const GRACE := 300

  /** t0: when it started, in seconds; seen: the series it gave. */
  datatype Gather = Gather(t0: int, failed: bool, seen: map<Series, Cached>)

  /** last: what the collector takes for the time of the last success. */
  datatype State = State(cache: map<Series, Cached>, last: Option<int>)

  predicate Skips(s: State, g: Gather) {
    g.failed && (s.last.None? || g.t0 - s.last.value < GRACE)
  }

  /** The time is recorded whether or not the gather failed. */
  ghost function Step(s: State, g: Gather): State {
    State(NextCache(s.cache, g.seen, Skips(s, g)), Some(g.t0))
  }

  /** The end of a gather in runOnce: the marker accumulator has recorded what the input gave. */
  method EndGather(ima: InactiveMarkerAccumulator, t0: int, failed: bool, last: Option<int>)
    returns (markers: multiset<Marker>, last': Option<int>)
    modifies ima`fieldCaches
    ensures var s := State(old(Flat(ima.fieldCaches)), last); var g := Gather(t0, failed, Flat(ima.latestValues));
            && AreMarkers(markers, s.cache, g.seen, Skips(s, g))
            && State(Flat(ima.fieldCaches), last') == Step(s, g)
  {
    var skipDeactivation := false;
    if failed {
      if last.None? || t0 - last.value < GRACE {
        skipDeactivation := true;
      }
    }
    markers := ima.DeactivateUnseenMetrics(skipDeactivation);
    last' := Some(t0);
  }

  /** A new input has an empty cache; last is what the collector knows for its id. */
  ghost function Run(last: Option<int>, gathers: seq<Gather>): State {
    if gathers == [] then State(map[], last)
    else Step(Run(last, gathers[..|gathers| - 1]), gathers[|gathers| - 1])
  }

  lemma RunNext(last: Option<int>, gathers: seq<Gather>, i: nat)
    requires i < |gathers|
    ensures Run(last, gathers[..i + 1]) == Step(Run(last, gathers[..i]), gathers[i])
  {
    TakeSnoc(gathers, i);
  }

  /** The i-th gather sends a marker for the series. */
  ghost predicate Marks(last: Option<int>, gathers: seq<Gather>, i: nat, x: Series) {
    && i < |gathers|
    && x in Run(last, gathers[..i]).cache && x !in gathers[i].seen
    && !Skips(Run(last, gathers[..i]), gathers[i])
  }

  ghost predicate NoMarker(last: Option<int>, gathers: seq<Gather>, from: nat, to: nat, x: Series) {
    forall j | from <= j < to :: !Marks(last, gathers, j, x)
  }

  /** One of the first n gathers gave the series, and no later one of them sent a marker for it. */
  ghost predicate SeenSinceMarker(last: Option<int>, gathers: seq<Gather>, n: nat, x: Series)
    requires n <= |gathers|
  {
    exists k | 0 <= k < n :: x in gathers[k].seen && NoMarker(last, gathers, k + 1, n, x)
  }

  /** A series is in the cache exactly then: each series ever seen is cached, or a marker was sent
      for it since it was last seen. */
  lemma {:induction false} CachedIff(last: Option<int>, gathers: seq<Gather>, n: nat, x: Series)
    requires n <= |gathers|
    ensures x in Run(last, gathers[..n]).cache <==> SeenSinceMarker(last, gathers, n, x)
  {
    if n > 0 {
      var g := gathers[n - 1];
      CachedIff(last, gathers, n - 1, x);
      RunNext(last, gathers, n - 1);
      if x in g.seen {
        assert NoMarker(last, gathers, n, n, x);
      } else {
        assert x in Run(last, gathers[..n]).cache <==>
               x in Run(last, gathers[..n - 1]).cache && !Marks(last, gathers, n - 1, x);
        SeenSinceMarkerNext(last, gathers, n, x);
      }
    }
  }

  /** What is cached for a series is what the last gather that gave it said. */
  lemma {:induction false} CachedValue(last: Option<int>, gathers: seq<Gather>, n: nat, x: Series) returns (k: nat)
    requires n <= |gathers| && x in Run(last, gathers[..n]).cache
    ensures k < n && x in gathers[k].seen && Run(last, gathers[..n]).cache[x] == gathers[k].seen[x]
    ensures forall j | k < j < n :: x !in gathers[j].seen
  {
    RunNext(last, gathers, n - 1);
    if x in gathers[n - 1].seen {
      k := n - 1;
    } else {
      k := CachedValue(last, gathers, n - 1, x);
    }
  }

  lemma SeenSinceMarkerNext(last: Option<int>, gathers: seq<Gather>, n: nat, x: Series)
    requires 0 < n <= |gathers| && x !in gathers[n - 1].seen
    ensures SeenSinceMarker(last, gathers, n, x) <==>
            SeenSinceMarker(last, gathers, n - 1, x) && !Marks(last, gathers, n - 1, x)
  {
    if SeenSinceMarker(last, gathers, n, x) {
      var k :| 0 <= k < n && x in gathers[k].seen && NoMarker(last, gathers, k + 1, n, x);
      assert k < n - 1 && NoMarker(last, gathers, k + 1, n - 1, x);
      assert !Marks(last, gathers, n - 1, x);
    }
    if SeenSinceMarker(last, gathers, n - 1, x) && !Marks(last, gathers, n - 1, x) {
      var k :| 0 <= k < n - 1 && x in gathers[k].seen && NoMarker(last, gathers, k + 1, n - 1, x);
      assert NoMarker(last, gathers, k + 1, n, x);
    }
  }

  /** Between two markers of a series it was seen again. */
  lemma SeenBetweenMarkers(last: Option<int>, gathers: seq<Gather>, i: nat, j: nat, x: Series)
    requires i < j && Marks(last, gathers, i, x) && Marks(last, gathers, j, x)
    ensures exists k | i < k < j :: x in gathers[k].seen
  {
    CachedIff(last, gathers, j, x);
    var k :| 0 <= k < j && x in gathers[k].seen && NoMarker(last, gathers, k + 1, j, x);
    assert k <= i ==> k == i || !Marks(last, gathers, i, x);
  }

  // ---------------------------------------------------------------------------
  // The grace delay
  // ---------------------------------------------------------------------------

  ghost predicate InOrder(gathers: seq<Gather>) {
    forall i, j | 0 <= i < j < |gathers| :: gathers[i].t0 <= gathers[j].t0
  }

  /** The time of the last gather that did not fail. */
  function LastSuccess(gathers: seq<Gather>): Option<int> {
    if gathers == [] then None
    else if !gathers[|gathers| - 1].failed then Some(gathers[|gathers| - 1].t0)
    else LastSuccess(gathers[..|gathers| - 1])
  }

  /** A failing gather keeps the series if no success is known or it is less than the delay ago. */
  predicate SkipsBySuccess(gathers: seq<Gather>, g: Gather) {
    g.failed && (LastSuccess(gathers).None? || g.t0 - LastSuccess(gathers).value < GRACE)
  }

  lemma {:induction false} LastSuccessIsEarlier(gathers: seq<Gather>)
    requires InOrder(gathers) && LastSuccess(gathers).Some?
    ensures gathers != [] && LastSuccess(gathers).value <= gathers[|gathers| - 1].t0
  {
    if gathers[|gathers| - 1].failed {
      LastSuccessIsEarlier(gathers[..|gathers| - 1]);
    }
  }

  /** The time of the gather before, or the one the collector knew for the id when there is none. */
  function LastGather(last: Option<int>, gathers: seq<Gather>): Option<int> {
    if gathers == [] then last else Some(gathers[|gathers| - 1].t0)
  }

  /** In every run a gather skips the markers exactly when it failed and the gather before, if there is
      one, started less than five minutes earlier. */
  lemma SkipsIff(last: Option<int>, gathers: seq<Gather>, g: Gather)
    ensures Skips(Run(last, gathers), g) <==>
            g.failed && (LastGather(last, gathers).None? || g.t0 < LastGather(last, gathers).value + 300)
  {
  }

  /** The collector compares with the last completed gather instead. For a failing gather this
      makes a difference exactly when no gather of the input ever succeeded and the one before, be it
      of an earlier input, is at least the delay ago, or when the last success is and the one before
      is not. */
  lemma SkipsAsBySuccessIff(last: Option<int>, gathers: seq<Gather>, g: Gather)
    requires InOrder(gathers + [g]) && g.failed
    ensures (Skips(Run(last, gathers), g) <==> SkipsBySuccess(gathers, g)) <==>
            !(LastGather(last, gathers).Some? &&
              var before := g.t0 - LastGather(last, gathers).value; var success := LastSuccess(gathers);
              if success.None? then before >= GRACE else g.t0 - success.value >= GRACE && before < GRACE)
  {
    assert InOrder(gathers) by {
      assert forall i | 0 <= i < |gathers| :: gathers[i] == (gathers + [g])[i];
    }
    if LastSuccess(gathers).Some? {
      LastSuccessIsEarlier(gathers);
    }
  }

  /** A success, then a failure four minutes later and another after eight: by the success the second
      failure would bring markers, but it is skipped. */
  lemma SecondFailureIsSkipped(x: Series, c: Cached)
    ensures var gathers := [Gather(0, false, map[x := c]), Gather(240, true, map[])];
            var g := Gather(480, true, map[]);
            && Skips(Run(None, gathers), g) && !SkipsBySuccess(gathers, g)
            && x in Run(None, gathers).cache
  {
    var first, second := Gather(0, false, map[x := c]), Gather(240, true, map[]);
    assert [first, second][..1] == [first] && [first][..0] == [];
    assert Run(None, [first]) == State(map[x := c], Some(0));
    assert Run(None, [first, second]) == State(map[x := c] + map[], Some(240));
    assert LastSuccess([first]) == Some(0) && LastSuccess([first, second]) == Some(0);
  }

  /** So an input that keeps failing, with less than the delay between gathers, keeps its series
      for ever. */
  lemma {:induction false} FailingNeverMarks(last: Option<int>, gathers: seq<Gather>, from: nat, i: nat, x: Series)
    requires 0 < from <= i < |gathers|
    requires forall k | from <= k < |gathers| :: gathers[k].failed && gathers[k].t0 - gathers[k - 1].t0 < GRACE
    ensures !Marks(last, gathers, i, x)
    ensures x in Run(last, gathers[..from]).cache ==> x in Run(last, gathers[..i + 1]).cache
  {
    RunNext(last, gathers, i - 1);
    RunNext(last, gathers, i);
    assert gathers[i].failed && gathers[i].t0 - gathers[i - 1].t0 < GRACE;
    if from < i {
      FailingNeverMarks(last, gathers, from, i - 1, x);
    }
  }
}
