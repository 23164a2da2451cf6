/** Loading configuration items from several providers and resolving every key by priority. */
module ConfigBuild {
  import opened Common
  import opened ConfigMerge
  import opened Strings

  datatype Source = Default | Env | File

  datatype Item = Item(key: string, value: Value, source: Source, priority: int)

  const PRIORITY_DEFAULT: int := -1
  const PRIORITY_MAP_AND_ARRAY_FILE: int := 1
  const PRIORITY_ENV: int := 0x7fff_ffff

  /** What the loader derives from the Config type and its tables of keys. */
  datatype Schema = Schema(mapKeys: set<string>, dynamicEnvKeys: set<string>,
                           prunedKeys: set<string>, nilAllowed: set<string>)
  {
    /** The key is a map key, or lies below one. */
    predicate IsMapKey(key: string) {
      exists m | m in mapKeys :: key == m || m + "." <= key
    }

    function Priority(source: Source, key: string, value: Value, loadCount: nat): int {
      match source
      case Env => if key in dynamicEnvKeys then PRIORITY_MAP_AND_ARRAY_FILE else PRIORITY_ENV
      case File =>
        if value.List? || IsMapKey(key) then PRIORITY_MAP_AND_ARRAY_FILE else loadCount
      case Default => PRIORITY_DEFAULT
    }

    /** The entries of a provider that become items: null ones are dropped, and the nulls
        invented inside struct-valued keys are pruned. */
    function Accepted(config: map<string, Value>): map<string, Value> {
      map k | k in config && config[k] != Null ::
        if k in prunedKeys then Prune(config[k]) else config[k]
    }
  }

  // ---------------------------------------------------------------------------
  // What Build computes, said without its loop
  // ---------------------------------------------------------------------------

  function Of(items: seq<Item>, key: string): seq<Item> {
    if items == [] then []
    else
      var last := items[|items| - 1];
      var front := Of(items[..|items| - 1], key);
      if last.key == key then front + [last] else front
  }

  function Top(items: seq<Item>): int
    requires items != []
  {
    var last := items[|items| - 1];
    if |items| == 1 then last.priority
    else
      var front := Top(items[..|items| - 1]);
      if front < last.priority then last.priority else front
  }

  function ValuesAt(items: seq<Item>, priority: int): seq<Value> {
    if items == [] then []
    else
      var last := items[|items| - 1];
      var front := ValuesAt(items[..|items| - 1], priority);
      if last.priority == priority then front + [last.value] else front
  }

  /** Left fold of merge; a failed merge leaves null, with which every later merge fails. */
  function FoldMerge(vs: seq<Value>): Value {
    if vs == [] then Null
    else if |vs| == 1 then vs[0]
    else OrNull(Merge(FoldMerge(vs[..|vs| - 1]), vs[|vs| - 1]))
  }

  /** The items of one key: only those of highest priority count, merged in load order. */
  function Resolve(items: seq<Item>): Value
    requires items != []
  {
    FoldMerge(ValuesAt(items, Top(items)))
  }

  /** The item meets a value of its own priority with which it cannot be merged. */
  predicate Clashes(items: seq<Item>, x: Item) {
    var earlier := Of(items, x.key);
    && earlier != []
    && Top(earlier) == x.priority
    && !Mergeable(Resolve(earlier), x.value)
  }

  function Conflicts(items: seq<Item>, n: nat): seq<nat>
    requires n <= |items|
  {
    if n == 0 then []
    else Conflicts(items, n - 1) + if Clashes(items[..n - 1], items[n - 1]) then [n - 1] else []
  }

  lemma {:induction false} TopIsMaximum(items: seq<Item>)
    requires items != []
    ensures forall i | 0 <= i < |items| :: items[i].priority <= Top(items)
    ensures exists i | 0 <= i < |items| :: items[i].priority == Top(items)
  {
    var n := |items| - 1;
    var front := items[..n];
    if n > 0 {
      TopIsMaximum(front);
      assert forall i | 0 <= i < n :: items[i] == front[i];
      if Top(items) == Top(front) {
        var i :| 0 <= i < n && front[i].priority == Top(front);
        assert items[i].priority == Top(items);
      }
    }
    assert Top(items) != items[n].priority ==> n > 0 && Top(items) == Top(front);
  }

  lemma OfSnoc(items: seq<Item>, x: Item, key: string)
    ensures Of(items + [x], key) == if x.key == key then Of(items, key) + [x] else Of(items, key)
  {
    assert (items + [x])[..|items|] == items;
  }

  lemma TopSnoc(items: seq<Item>, x: Item, p: int)
    ensures Top(items + [x]) == if items == [] || Top(items) < x.priority then x.priority else Top(items)
    ensures ValuesAt(items + [x], p)
            == if x.priority == p then ValuesAt(items, p) + [x.value] else ValuesAt(items, p)
  {
    assert (items + [x])[..|items|] == items;
  }

  lemma {:induction false} NoValuesAbove(items: seq<Item>, p: int)
    requires items == [] || Top(items) < p
    ensures ValuesAt(items, p) == []
  {
    if |items| > 0 {
      NoValuesAbove(items[..|items| - 1], p);
    }
  }

  lemma {:induction false} TopHasValue(items: seq<Item>)
    requires items != []
    ensures ValuesAt(items, Top(items)) != []
  {
    if |items| > 1 && Top(items) != items[|items| - 1].priority {
      TopHasValue(items[..|items| - 1]);
    }
  }

  function OrNull(r: Result<Value>): Value {
    match r
    case Success(v) => v
    case Failure => Null
  }

  /** One more item of a key: the three branches of the loop body. */
  lemma ResolveSnoc(items: seq<Item>, x: Item)
    ensures Resolve(items + [x]) ==
            if items == [] || Top(items) < x.priority then x.value
            else if Top(items) == x.priority then OrNull(Merge(Resolve(items), x.value))
            else Resolve(items)
  {
    TopSnoc(items, x, Top(items + [x]));
    if items == [] || Top(items) < x.priority {
      NoValuesAbove(items, x.priority);
    } else if Top(items) == x.priority {
      var vs := ValuesAt(items, x.priority);
      TopHasValue(items);
      assert (vs + [x.value])[..|vs|] == vs;
    }
  }

  // ---------------------------------------------------------------------------
  // The loader
  // ---------------------------------------------------------------------------

  /** One call of Load: the provider and the entries it contributed. */
  datatype Loaded = Loaded(source: Source, entries: map<string, Value>)

  function KeyItems(schema: Schema, history: seq<Loaded>, key: string): seq<Item> {
    if history == [] then []
    else
      var last := history[|history| - 1];
      var front := KeyItems(schema, history[..|history| - 1], key);
      if key in last.entries then front + [ItemOf(schema, last, |history|, key)] else front
  }

  /** The item a load contributes for a key. */
  function ItemOf(schema: Schema, load: Loaded, loadCount: nat, key: string): Item
    requires key in load.entries
  {
    var v := load.entries[key];
    Item(key, v, load.source, schema.Priority(load.source, key, v, loadCount))
  }

  lemma KeyItemsSnoc(schema: Schema, history: seq<Loaded>, load: Loaded, key: string)
    ensures KeyItems(schema, history + [load], key)
            == if key in load.entries
               then KeyItems(schema, history, key) + [ItemOf(schema, load, |history| + 1, key)]
               else KeyItems(schema, history, key)
  {
    assert (history + [load])[..|history|] == history;
  }

  /** While one load visits its keys: its items are added for the keys already visited. */
  ghost predicate PartlyLoaded(schema: Schema, before: seq<Item>, load: Loaded, loadCount: nat,
                               todo: set<string>, items: seq<Item>)
  {
    forall key :: Of(items, key) ==
                  if key in load.entries && key !in todo
                  then Of(before, key) + [ItemOf(schema, load, loadCount, key)]
                  else Of(before, key)
  }

  lemma LoadOne(schema: Schema, before: seq<Item>, load: Loaded, loadCount: nat,
                todo: set<string>, items: seq<Item>, item: Item)
    requires PartlyLoaded(schema, before, load, loadCount, todo, items)
    requires item.key in todo && item.key in load.entries && item == ItemOf(schema, load, loadCount, item.key)
    ensures PartlyLoaded(schema, before, load, loadCount, todo - {item.key}, items + [item])
  {
    forall key {
      OfSnoc(items, item, key);
    }
  }

  /** The loop over the keys of one provider, in an arbitrary order. */
  method LoadItems(schema: Schema, before: seq<Item>, loadCount: nat, source: Source, config: map<string, Value>)
    returns (items: seq<Item>, warned: set<string>)
    ensures PartlyLoaded(schema, before, Loaded(source, schema.Accepted(config)), loadCount, {}, items)
    ensures warned == set k | k in config && config[k] == Null && k !in schema.nilAllowed
  {
    ghost var load := Loaded(source, schema.Accepted(config));
    var todo := config.Keys;
    items, warned := before, {};
    while todo != {}
      invariant todo <= config.Keys
      invariant warned == set k | k in config && k !in todo && config[k] == Null && k !in schema.nilAllowed
      invariant PartlyLoaded(schema, before, load, loadCount, todo, items)
    {
      var key :| key in todo;
      var value := config[key];
      if value == Null {
        if key !in schema.nilAllowed {
          warned := warned + {key};
        }
      } else {
        if key in schema.prunedKeys {
          value := PruneNilMapValues(value);
        }
        var item := Item(key, value, source, schema.Priority(source, key, value, loadCount));
        LoadOne(schema, before, load, loadCount, todo, items, item);
        items := items + [item];
      }
      todo := todo - {key};
    }
  }

  class ConfigLoader {
    const schema: Schema
    var items: seq<Item>
    var loadCount: nat
    ghost var history: seq<Loaded>

    /** Per key, the items are those of the loads in load order: the order in which one load
        visited its keys is not observable. */
    ghost predicate Valid()
      reads this
    {
      && loadCount == |history|
      && forall key :: Of(items, key) == KeyItems(schema, history, key)
    }

    constructor (schema: Schema)
      ensures Valid() && history == [] && this.schema == schema
    {
      this.schema := schema;
      items, loadCount, history := [], 0, [];
    }

    /** Returns the keys reported as null. */
    method Load(source: Source, config: map<string, Value>) returns (warned: set<string>)
      requires Valid()
      modifies this
      ensures Valid()
      ensures history == old(history) + [Loaded(source, schema.Accepted(config))]
      ensures warned == set k | k in config && config[k] == Null && k !in schema.nilAllowed
    {
      loadCount := loadCount + 1;
      ghost var load := Loaded(source, schema.Accepted(config));
      items, warned := LoadItems(schema, items, loadCount, source, config);
      forall key {
        KeyItemsSnoc(schema, history, load, key);
      }
      history := history + [load];
    }

    /** The item loop of Build. For every item list, a key's value is the left fold of merge,
        in load order, over exactly that key's items of highest priority. */
    method Build() returns (config: map<string, Value>, failed: seq<nat>)
      ensures forall k :: k in config <==> Of(items, k) != []
      ensures forall k | k in config :: config[k] == Resolve(Of(items, k))
      ensures failed == Conflicts(items, |items|)
    {
      var loaded := items;
      var priorities: map<string, int> := map[];
      config, failed := map[], [];
      for i := 0 to |loaded|
        invariant Resolved(loaded[..i], config, priorities)
        invariant failed == Conflicts(loaded, i)
      {
        assert loaded[..i + 1] == loaded[..i] + [loaded[i]];
        var clash;
        config, priorities, clash := BuildItem(loaded[..i], loaded[i], config, priorities);
        if clash {
          failed := failed + [i];
        }
      }
      assert loaded[..|loaded|] == loaded;
    }
  }

  /** The body of the item loop. */
  method BuildItem(ghost items: seq<Item>, x: Item, config: map<string, Value>, priorities: map<string, int>)
    returns (config': map<string, Value>, priorities': map<string, int>, clash: bool)
    requires Resolved(items, config, priorities)
    ensures Resolved(items + [x], config', priorities')
    ensures clash <==> Clashes(items, x)
  {
    ghost var mine := Of(items, x.key);
    assert x.key in config <==> mine != [];
    ResolveSnoc(mine, x);
    TopSnoc(mine, x, 0);
    ResolvedUpdate(items, x, config, priorities, Resolve(mine + [x]), Top(mine + [x]));
    config', priorities', clash := config, priorities, false;
    if x.key !in config || priorities[x.key] < x.priority {
      config' := config[x.key := x.value];
      priorities' := priorities[x.key := x.priority];
    } else if priorities[x.key] == x.priority {
      var merged := MergeValues(config[x.key], x.value);
      clash := merged.Failure?;
      config' := config[x.key := OrNull(merged)];
      assert priorities == priorities[x.key := x.priority];
    } else {
      assert config == config[x.key := config[x.key]];
      assert priorities == priorities[x.key := priorities[x.key]];
    }
  }

  /** The two maps of Build after a prefix of the items. */
  ghost predicate Resolved(items: seq<Item>, config: map<string, Value>, priorities: map<string, int>) {
    && priorities.Keys == config.Keys
    && (forall k :: k in config <==> Of(items, k) != [])
    && (forall k | k in config :: config[k] == Resolve(Of(items, k)))
    && (forall k | k in config :: priorities[k] == Top(Of(items, k)))
  }

  lemma ResolvedUpdate(items: seq<Item>, x: Item, config: map<string, Value>, priorities: map<string, int>,
                       v: Value, p: int)
    requires Resolved(items, config, priorities)
    requires v == Resolve(Of(items, x.key) + [x]) && p == Top(Of(items, x.key) + [x])
    ensures Resolved(items + [x], config[x.key := v], priorities[x.key := p])
  {
    var config', priorities' := config[x.key := v], priorities[x.key := p];
    forall k
      ensures k in config' <==> Of(items + [x], k) != []
      ensures k in config' ==> config'[k] == Resolve(Of(items + [x], k))
      ensures k in config' ==> priorities'[k] == Top(Of(items + [x], k))
    {
      OfSnoc(items, x, k);
      if k != x.key {
        assert k in config' <==> k in config;
      }
    }
  }

  // ---------------------------------------------------------------------------
  // What a user sees
  // ---------------------------------------------------------------------------

  /** The keys that count as map keys are those whose dotted path starts with that of one. */
  lemma MapKeyIff(schema: Schema, key: string)
    ensures schema.IsMapKey(key) <==> exists m | m in schema.mapKeys :: Split(m, '.') <= Split(key, '.')
  {
    forall m | m in schema.mapKeys
      ensures key == m || m + "." <= key <==> Split(m, '.') <= Split(key, '.')
    {
      PartsStartIff(key, m, '.');
    }
  }

  /** What a load takes from a provider: every entry that is not null, as it is or, for a struct-valued
      key, without the nulls at any path inside. */
  lemma AcceptedAt(schema: Schema, config: map<string, Value>, key: string, path: seq<string>)
    ensures var accepted := schema.Accepted(config);
            && (key in accepted <==> key in config && config[key] != Null)
            && (key in accepted && key !in schema.prunedKeys ==> accepted[key] == config[key])
            && (key in accepted && key in schema.prunedKeys ==>
                  At(accepted[key], path) ==
                  match At(config[key], path)
                  case Some(x) => if path != [] && x == Null then None else Some(Prune(x))
                  case None => None)
  {
    if key in config {
      PrunedAt(config[key], path);
    }
  }

  /** A key is set exactly when some load gave it. */
  lemma {:induction false} SetIffLoaded(schema: Schema, history: seq<Loaded>, key: string)
    ensures KeyItems(schema, history, key) != [] <==> exists i | 0 <= i < |history| :: key in history[i].entries
  {
    if history != [] {
      var n := |history| - 1;
      var front := history[..n];
      SetIffLoaded(schema, front, key);
      assert forall i | 0 <= i < n :: front[i] == history[i];
      if i :| 0 <= i < n && key in history[i].entries {
        assert key in front[i].entries;
      }
    }
  }

  /** Which items are reported as conflicts: those that meet an earlier item of their key, none of higher
      priority, and cannot be merged with what those of the same priority amount to. */
  lemma {:induction false} ConflictsIff(items: seq<Item>, n: nat, i: nat)
    requires n <= |items|
    ensures i in Conflicts(items, n) <==>
            && i < n
            && var earlier, x := Of(items[..i], items[i].key), items[i];
               && (exists j | 0 <= j < |earlier| :: earlier[j].priority == x.priority)
               && (forall j | 0 <= j < |earlier| :: earlier[j].priority <= x.priority)
               && var v := FoldMerge(ValuesAt(earlier, x.priority));
                  !(v.Map? && x.value.Map?) && !(v.List? && x.value.List?)
  {
    if n > 0 {
      ConflictsIff(items, n - 1, i);
      if i == n - 1 {
        var earlier := Of(items[..i], items[i].key);
        if earlier != [] {
          TopIsMaximum(earlier);
        }
      }
    }
  }

  /** The values the loads of one source gave a key, in load order. */
  function From(history: seq<Loaded>, key: string, sources: set<Source>): seq<Value> {
    if history == [] then []
    else
      var last := history[|history| - 1];
      var front := From(history[..|history| - 1], key, sources);
      if key in last.entries && last.source in sources then front + [last.entries[key]] else front
  }

  ghost predicate ScalarKey(schema: Schema, history: seq<Loaded>, key: string) {
    && !schema.IsMapKey(key)
    && key !in schema.dynamicEnvKeys
    && forall i | 0 <= i < |history| && key in history[i].entries :: history[i].entries[key].Scalar()
  }

  /** One value stands; two at the same priority cannot be merged and leave null. */
  function Sole(vs: seq<Value>): Value {
    if |vs| == 1 then vs[0] else Null
  }

  lemma {:induction false} ScalarsDoNotMerge(vs: seq<Value>)
    requires forall v | v in vs :: v.Scalar()
    ensures FoldMerge(vs) == Sole(vs)
  {
    if |vs| > 1 {
      var front := vs[..|vs| - 1];
      assert forall v | v in front :: v in vs;
      ScalarsDoNotMerge(front);
      assert front[0] in vs;
    }
  }

  /** The items of highest priority of a scalar key after n loads. */
  ghost predicate ScalarShape(items: seq<Item>, envs: seq<Value>, files: seq<Value>, defaults: seq<Value>, n: nat) {
    if envs != [] then items != [] && Top(items) == PRIORITY_ENV && ValuesAt(items, PRIORITY_ENV) == envs
    else if files != [] then
      && items != [] && 1 <= Top(items) <= n
      && ValuesAt(items, Top(items)) == [files[|files| - 1]]
    else if defaults != [] then
      items != [] && Top(items) == PRIORITY_DEFAULT && ValuesAt(items, PRIORITY_DEFAULT) == defaults
    else items == []
  }

  lemma ShapeEnv(items: seq<Item>, x: Item, envs: seq<Value>, files: seq<Value>, defaults: seq<Value>, n: nat)
    requires ScalarShape(items, envs, files, defaults, n)
    requires n + 1 < PRIORITY_ENV && x.priority == PRIORITY_ENV
    ensures ScalarShape(items + [x], envs + [x.value], files, defaults, n + 1)
  {
    TopSnoc(items, x, PRIORITY_ENV);
    if envs == [] {
      NoValuesAbove(items, PRIORITY_ENV);
    }
  }

  lemma ShapeFile(items: seq<Item>, x: Item, envs: seq<Value>, files: seq<Value>, defaults: seq<Value>, n: nat)
    requires ScalarShape(items, envs, files, defaults, n)
    requires n + 1 < PRIORITY_ENV && x.priority == n + 1
    ensures ScalarShape(items + [x], envs, files + [x.value], defaults, n + 1)
  {
    TopSnoc(items, x, if envs == [] then x.priority else PRIORITY_ENV);
    if envs == [] {
      NoValuesAbove(items, x.priority);
    }
  }

  lemma ShapeDefault(items: seq<Item>, x: Item, envs: seq<Value>, files: seq<Value>, defaults: seq<Value>, n: nat)
    requires ScalarShape(items, envs, files, defaults, n)
    requires x.priority == PRIORITY_DEFAULT
    ensures ScalarShape(items + [x], envs, files, defaults + [x.value], n + 1)
  {
    TopSnoc(items, x, if items == [] then x.priority else Top(items));
  }

  lemma ScalarPriority(schema: Schema, load: Loaded, n: nat, key: string)
    requires !schema.IsMapKey(key) && key !in schema.dynamicEnvKeys
    requires key in load.entries && load.entries[key].Scalar()
    ensures ItemOf(schema, load, n, key).priority
            == match load.source case Env => PRIORITY_ENV case File => n case Default => PRIORITY_DEFAULT
  {
  }

  ghost predicate ScalarShapeOf(schema: Schema, history: seq<Loaded>, key: string) {
    ScalarShape(KeyItems(schema, history, key), From(history, key, {Env}), From(history, key, {File}),
                From(history, key, {Default}), |history|)
  }

  lemma FromSnoc(front: seq<Loaded>, last: Loaded, key: string)
    requires key in last.entries
    ensures forall source :: From(front + [last], key, {source}) ==
                             From(front, key, {source}) + if last.source == source then [last.entries[key]] else []
  {
    assert (front + [last])[..|front|] == front;
    forall source
      ensures From(front + [last], key, {source}) ==
              From(front, key, {source}) + if last.source == source then [last.entries[key]] else []
    {
      assert From(front, key, {source}) + [] == From(front, key, {source});
    }
  }

  lemma ScalarStep(schema: Schema, front: seq<Loaded>, last: Loaded, key: string)
    requires ScalarShapeOf(schema, front, key) && |front| + 1 < PRIORITY_ENV
    requires key in last.entries
    requires ItemOf(schema, last, |front| + 1, key).priority
             == match last.source case Env => PRIORITY_ENV case File => |front| + 1 case Default => PRIORITY_DEFAULT
    ensures ScalarShapeOf(schema, front + [last], key)
  {
    KeyItemsSnoc(schema, front, last, key);
    FromSnoc(front, last, key);
    var items, x := KeyItems(schema, front, key), ItemOf(schema, last, |front| + 1, key);
    var envs, files, defaults := From(front, key, {Env}), From(front, key, {File}), From(front, key, {Default});
    match last.source {
      case Env => ShapeEnv(items, x, envs, files, defaults, |front|);
      case File => ShapeFile(items, x, envs, files, defaults, |front|);
      case Default => ShapeDefault(items, x, envs, files, defaults, |front|);
    }
  }

  lemma {:induction false} ScalarTop(schema: Schema, history: seq<Loaded>, key: string)
    requires ScalarKey(schema, history, key)
    requires |history| < PRIORITY_ENV
    ensures ScalarShapeOf(schema, history, key)
  {
    if history != [] {
      var front, last := history[..|history| - 1], history[|history| - 1];
      assert history == front + [last];
      ScalarTop(schema, front, key);
      if key in last.entries {
        ScalarPriority(schema, last, |history|, key);
        ScalarStep(schema, front, last, key);
      }
    }
  }

  lemma {:induction false} FromAreScalars(schema: Schema, history: seq<Loaded>, key: string, sources: set<Source>)
    requires ScalarKey(schema, history, key)
    ensures forall v | v in From(history, key, sources) :: v.Scalar()
  {
    if history != [] {
      FromAreScalars(schema, history[..|history| - 1], key, sources);
    }
  }

  /** A scalar key is the environment's value, else the last file's, else the default. Two
      environment values (or, alone, two defaults) are a merge error and leave null. */
  lemma ScalarKeyResolution(schema: Schema, history: seq<Loaded>, key: string)
    requires ScalarKey(schema, history, key)
    requires |history| < PRIORITY_ENV
    requires KeyItems(schema, history, key) != []
    ensures Resolve(KeyItems(schema, history, key)) ==
            var envs := From(history, key, {Env});
            var files := From(history, key, {File});
            if envs != [] then Sole(envs)
            else if files != [] then files[|files| - 1]
            else Sole(From(history, key, {Default}))
  {
    ScalarTop(schema, history, key);
    FromAreScalars(schema, history, key, {Env});
    FromAreScalars(schema, history, key, {Default});
    ScalarsDoNotMerge(From(history, key, {Env}));
    ScalarsDoNotMerge(From(history, key, {Default}));
  }

  // ---------------------------------------------------------------------------
  // Keys whose files are merged
  // ---------------------------------------------------------------------------

  /** All files that set the key have the same priority: it is a map key, or they set lists. */
  ghost predicate GroupedKey(schema: Schema, history: seq<Loaded>, key: string) {
    schema.IsMapKey(key) ||
    forall i | 0 <= i < |history| && history[i].source == File && key in history[i].entries :: history[i].entries[key].List?
  }

  /** The environment overrides files, unless its variables are meant to add entries to the key. */
  ghost function Overriding(schema: Schema, history: seq<Loaded>, key: string): seq<Value> {
    if key in schema.dynamicEnvKeys then [] else From(history, key, {Env})
  }

  ghost function Given(schema: Schema, history: seq<Loaded>, key: string): seq<Value> {
    From(history, key, if key in schema.dynamicEnvKeys then {File, Env} else {File})
  }

  /** The items of highest priority of such a key. */
  ghost predicate GroupShape(items: seq<Item>, overriding: seq<Value>, given: seq<Value>, defaults: seq<Value>) {
    if overriding != [] then
      items != [] && Top(items) == PRIORITY_ENV && ValuesAt(items, PRIORITY_ENV) == overriding
    else if given != [] then
      && items != [] && Top(items) == PRIORITY_MAP_AND_ARRAY_FILE
      && ValuesAt(items, PRIORITY_MAP_AND_ARRAY_FILE) == given
    else if defaults != [] then
      items != [] && Top(items) == PRIORITY_DEFAULT && ValuesAt(items, PRIORITY_DEFAULT) == defaults
    else items == []
  }

  lemma GroupOverriding(items: seq<Item>, x: Item, overriding: seq<Value>, given: seq<Value>, defaults: seq<Value>)
    requires GroupShape(items, overriding, given, defaults) && x.priority == PRIORITY_ENV
    ensures GroupShape(items + [x], overriding + [x.value], given, defaults)
  {
    TopSnoc(items, x, PRIORITY_ENV);
    if overriding == [] {
      NoValuesAbove(items, PRIORITY_ENV);
    }
  }

  lemma GroupGiven(items: seq<Item>, x: Item, overriding: seq<Value>, given: seq<Value>, defaults: seq<Value>)
    requires GroupShape(items, overriding, given, defaults) && x.priority == PRIORITY_MAP_AND_ARRAY_FILE
    ensures GroupShape(items + [x], overriding, given + [x.value], defaults)
  {
    TopSnoc(items, x, if overriding == [] then PRIORITY_MAP_AND_ARRAY_FILE else PRIORITY_ENV);
    if overriding == [] && given == [] {
      NoValuesAbove(items, PRIORITY_MAP_AND_ARRAY_FILE);
    }
  }

  lemma GroupDefault(items: seq<Item>, x: Item, overriding: seq<Value>, given: seq<Value>, defaults: seq<Value>)
    requires GroupShape(items, overriding, given, defaults) && x.priority == PRIORITY_DEFAULT
    ensures GroupShape(items + [x], overriding, given, defaults + [x.value])
  {
    TopSnoc(items, x, if items == [] then x.priority else Top(items));
  }

  ghost predicate GroupShapeOf(schema: Schema, history: seq<Loaded>, key: string) {
    GroupShape(KeyItems(schema, history, key), Overriding(schema, history, key), Given(schema, history, key),
               From(history, key, {Default}))
  }

  lemma GroupStep(schema: Schema, front: seq<Loaded>, last: Loaded, key: string)
    requires GroupShapeOf(schema, front, key) && key in last.entries
    requires last.source == File ==> schema.IsMapKey(key) || last.entries[key].List?
    ensures GroupShapeOf(schema, front + [last], key)
  {
    KeyItemsSnoc(schema, front, last, key);
    FromSnoc(front, last, key);
    FromBothSnoc(front, last, key);
    var items, x := KeyItems(schema, front, key), ItemOf(schema, last, |front| + 1, key);
    var overriding, given, defaults := Overriding(schema, front, key), Given(schema, front, key), From(front, key, {Default});
    match last.source {
      case Env =>
        if key in schema.dynamicEnvKeys {
          GroupGiven(items, x, overriding, given, defaults);
        } else {
          GroupOverriding(items, x, overriding, given, defaults);
        }
      case File => GroupGiven(items, x, overriding, given, defaults);
      case Default => GroupDefault(items, x, overriding, given, defaults);
    }
  }

  lemma FromBothSnoc(front: seq<Loaded>, last: Loaded, key: string)
    requires key in last.entries
    ensures From(front + [last], key, {File, Env}) ==
            From(front, key, {File, Env}) + if last.source != Default then [last.entries[key]] else []
  {
    assert (front + [last])[..|front|] == front;
    assert From(front, key, {File, Env}) + [] == From(front, key, {File, Env});
  }

  lemma {:induction false} GroupTop(schema: Schema, history: seq<Loaded>, key: string)
    requires GroupedKey(schema, history, key)
    ensures GroupShapeOf(schema, history, key)
  {
    if history != [] {
      var front, last := history[..|history| - 1], history[|history| - 1];
      assert history == front + [last];
      assert forall i | 0 <= i < |front| :: front[i] == history[i];
      GroupTop(schema, front, key);
      if key in last.entries {
        GroupStep(schema, front, last, key);
      }
    }
  }

  /** The values that decide such a key. */
  ghost function Deciding(schema: Schema, history: seq<Loaded>, key: string): seq<Value> {
    if Overriding(schema, history, key) != [] then Overriding(schema, history, key)
    else if Given(schema, history, key) != [] then Given(schema, history, key)
    else From(history, key, {Default})
  }

  /** A key whose files are merged is the merge, in load order, of the environment's values, else of
      the files', else of the defaults; where environment variables add entries, they count as files. */
  lemma GroupedKeyResolution(schema: Schema, history: seq<Loaded>, key: string)
    requires GroupedKey(schema, history, key) && KeyItems(schema, history, key) != []
    ensures Deciding(schema, history, key) != []
    ensures Resolve(KeyItems(schema, history, key)) == FoldMerge(Deciding(schema, history, key))
  {
    GroupTop(schema, history, key);
    TopHasValue(KeyItems(schema, history, key));
  }

  lemma {:induction false} MapsFold(vs: seq<Value>)
    requires vs != []
    requires forall i | 0 <= i < |vs| :: vs[i].Map?
    ensures FoldMerge(vs) == Fold(vs) && FoldMerge(vs).Map?
  {
    if |vs| > 1 {
      MapsFold(vs[..|vs| - 1]);
    }
  }

  /** The items of all lists, in order. */
  ghost function Concat(vs: seq<Value>): seq<Value> {
    if vs == [] then []
    else
      var last := vs[|vs| - 1];
      Concat(vs[..|vs| - 1]) + if last.List? then last.items else []
  }

  lemma {:induction false} ListsFold(vs: seq<Value>)
    requires vs != []
    requires forall i | 0 <= i < |vs| :: vs[i].List?
    ensures FoldMerge(vs) == List(Concat(vs))
  {
    if |vs| > 1 {
      ListsFold(vs[..|vs| - 1]);
    } else {
      assert vs[..0] == [] && Concat([]) + vs[0].items == vs[0].items;
    }
  }

  /** A map key: one map, merged as above. */
  lemma MapKeyResolution(schema: Schema, history: seq<Loaded>, key: string)
    requires schema.IsMapKey(key) && KeyItems(schema, history, key) != []
    requires forall i | 0 <= i < |history| && key in history[i].entries :: history[i].entries[key].Map?
    ensures Deciding(schema, history, key) != []
    ensures Resolve(KeyItems(schema, history, key)) == Fold(Deciding(schema, history, key))
  {
    GroupedKeyResolution(schema, history, key);
    var deciding := Deciding(schema, history, key);
    forall i | 0 <= i < |deciding|
      ensures deciding[i].Map?
    {
      DecidingIsLoaded(schema, history, key, deciding[i]);
    }
    MapsFold(deciding);
  }

  /** A list key: the lists of the environment, else of all files in load order, else of the defaults,
      one after the other. */
  lemma ListKeyResolution(schema: Schema, history: seq<Loaded>, key: string)
    requires KeyItems(schema, history, key) != []
    requires forall i | 0 <= i < |history| && key in history[i].entries :: history[i].entries[key].List?
    ensures Resolve(KeyItems(schema, history, key)) == List(Concat(Deciding(schema, history, key)))
  {
    GroupedKeyResolution(schema, history, key);
    var deciding := Deciding(schema, history, key);
    forall i | 0 <= i < |deciding|
      ensures deciding[i].List?
    {
      DecidingIsLoaded(schema, history, key, deciding[i]);
    }
    ListsFold(deciding);
  }

  lemma DecidingIsLoaded(schema: Schema, history: seq<Loaded>, key: string, v: Value)
    requires v in Deciding(schema, history, key)
    ensures exists i | 0 <= i < |history| :: key in history[i].entries && history[i].entries[key] == v
  {
    FromIsLoaded(history, key, {Env}, v);
    FromIsLoaded(history, key, {File, Env}, v);
    FromIsLoaded(history, key, {File}, v);
    FromIsLoaded(history, key, {Default}, v);
  }

  lemma {:induction false} FromIsLoaded(history: seq<Loaded>, key: string, sources: set<Source>, v: Value)
    ensures v in From(history, key, sources) ==>
              exists i | 0 <= i < |history| :: key in history[i].entries && history[i].entries[key] == v
  {
    if history != [] {
      var front, last := history[..|history| - 1], history[|history| - 1];
      FromIsLoaded(front, key, sources, v);
      if v in From(front, key, sources) {
        var i :| 0 <= i < |front| && key in front[i].entries && front[i].entries[key] == v;
        assert history[i] == front[i];
      }
    }
  }
}
