/** Folding the legacy log.inputs entries of one provider into log receivers, each with its
    own copy of the metrics its filters define. */
module LegacyLogInputs {
  import opened Common
  import opened ConfigMerge
  import opened ConfigUnflatten
  import opened Strings

  type Labels = map<string, string>

  /** A filter as decoded; a field of the wrong type reads as empty. */
  datatype Filter =
    | NotAFilter
    | Filter(metric: string, regex: string, exclude: string, labels: Labels)
  {
    predicate Usable() {
      Filter? && metric != "" && regex != ""
    }
  }

  /** What is counted: lines matching regex and, unless exclude is empty, not matching it. */
  datatype Condition = Condition(regex: string, exclude: string)

  datatype Input =
    | NotAnInput
    | Input(filters: seq<Filter>, path: string, containerName: string, selectors: Labels)
  {
    predicate Translated() {
      && Input?
      && filters != []
      && (path != "" || containerName != "" || selectors != map[])
    }
  }

  datatype Warning =
    | EmptyInputs
    | InputsNotAList
    | InvalidInput(input: nat)
    | NoFilters(input: nat)
    | NoTarget(input: nat)
    | PathWins(input: nat)
    | Migrated(input: nat)
    | BadFilter(input: nat, filter: nat)
    | NameClash(metric: string)

  /** A metric definition. The table of metrics and the receivers hold references to these. */
  class MetricEntry {
    const metric: string
    const labels: Labels
    var conditions: seq<Condition>

    constructor (metric: string, labels: Labels, conditions: seq<Condition>)
      ensures this.metric == metric && this.labels == labels && this.conditions == conditions
    {
      this.metric, this.labels, this.conditions := metric, labels, conditions;
    }
  }

  datatype Receiver =
    | Own(definition: Value)
    | Legacy(files: seq<string>, containerName: string, selectors: Labels, metrics: seq<MetricEntry>)

  // ---------------------------------------------------------------------------
  // What the metrics must hold
  // ---------------------------------------------------------------------------

  /** The conditions of the usable filters of one metric, in order. */
  function Conditions(filters: seq<Filter>, metric: string): seq<Condition> {
    if filters == [] then []
    else
      var front, last := Conditions(filters[..|filters| - 1], metric), filters[|filters| - 1];
      if last.Usable() && last.metric == metric then front + [Condition(last.regex, last.exclude)] else front
  }

  /** The labels of the first usable filter of the metric; those of later ones are ignored. */
  function FirstLabels(filters: seq<Filter>, metric: string): Labels {
    if filters == [] then map[]
    else
      var front, last := filters[..|filters| - 1], filters[|filters| - 1];
      if Conditions(front, metric) == [] && last.Usable() && last.metric == metric then last.labels
      else FirstLabels(front, metric)
  }

  /** The metrics of the usable filters, each once, in order of first use. */
  function Touched(filters: seq<Filter>): seq<string> {
    if filters == [] then []
    else
      var front, last := Touched(filters[..|filters| - 1]), filters[|filters| - 1];
      if last.Usable() && last.metric !in front then front + [last.metric] else front
  }

  /** The filters of all translated entries, in order. */
  function AllFilters(inputs: seq<Input>): seq<Filter> {
    if inputs == [] then []
    else
      var front, last := AllFilters(inputs[..|inputs| - 1]), inputs[|inputs| - 1];
      if last.Translated() then front + last.filters else front
  }

  datatype Definition = Definition(labels: Labels, conditions: seq<Condition>)

  /** One filter's effect on the metric definitions. */
  function Define1(defs: map<string, Definition>, f: Filter): map<string, Definition> {
    if !f.Usable() then defs
    else
      var c := Condition(f.regex, f.exclude);
      if f.metric in defs then
        defs[f.metric := defs[f.metric].(conditions := defs[f.metric].conditions + [c])]
      else defs[f.metric := Definition(f.labels, [c])]
  }

  function Definitions(filters: seq<Filter>): map<string, Definition> {
    if filters == [] then map[]
    else Define1(Definitions(filters[..|filters| - 1]), filters[|filters| - 1])
  }

  lemma DefinitionsSnoc(filters: seq<Filter>, f: Filter)
    ensures Definitions(filters + [f]) == Define1(Definitions(filters), f)
  {
    assert (filters + [f])[..|filters|] == filters;
  }

  /** The definitions built filter by filter are the collected conditions and first labels. */
  lemma {:induction false} DefinitionsAre(filters: seq<Filter>, m: string)
    ensures m in Definitions(filters) <==> Conditions(filters, m) != []
    ensures m in Definitions(filters)
            ==> Definitions(filters)[m] == Definition(FirstLabels(filters, m), Conditions(filters, m))
  {
    if filters != [] {
      DefinitionsAre(filters[..|filters| - 1], m);
    }
  }

  lemma FilterSnoc(filters: seq<Filter>, f: Filter)
    ensures Touched(filters + [f])
            == if f.Usable() && f.metric !in Touched(filters) then Touched(filters) + [f.metric] else Touched(filters)
    ensures forall m :: Conditions(filters + [f], m)
                        == if f.Usable() && f.metric == m
                           then Conditions(filters, m) + [Condition(f.regex, f.exclude)]
                           else Conditions(filters, m)
    ensures forall m :: FirstLabels(filters + [f], m)
                        == if Conditions(filters, m) == [] && f.Usable() && f.metric == m then f.labels
                           else FirstLabels(filters, m)
  {
    assert (filters + [f])[..|filters|] == filters;
  }

  /** A metric is touched exactly when some filter gives it a condition. */
  lemma {:induction false} TouchedIffConditions(filters: seq<Filter>, m: string)
    ensures m in Touched(filters) <==> Conditions(filters, m) != []
  {
    if filters != [] {
      TouchedIffConditions(filters[..|filters| - 1], m);
    }
  }

  lemma {:induction false} TouchedDistinct(filters: seq<Filter>)
    ensures forall i, j | 0 <= i < j < |Touched(filters)| :: Touched(filters)[i] != Touched(filters)[j]
  {
    if filters != [] {
      TouchedDistinct(filters[..|filters| - 1]);
    }
  }

  /** Conditions are collected input by input without loss or reordering. */
  lemma {:induction false} ConditionsAppend(xs: seq<Filter>, ys: seq<Filter>, m: string)
    ensures Conditions(xs + ys, m) == Conditions(xs, m) + Conditions(ys, m)
    decreases |ys|
  {
    if ys == [] {
      assert xs + ys == xs;
    } else {
      var front, last := ys[..|ys| - 1], ys[|ys| - 1];
      assert xs + ys == (xs + front) + [last] && ys == front + [last];
      ConditionsAppend(xs, front, m);
      FilterSnoc(xs + front, last);
    }
  }

  /** Every translated entry's own conditions are part of what all receivers get. */
  lemma {:induction false} OwnConditionsIncluded(inputs: seq<Input>, i: nat, m: string)
    returns (before: seq<Condition>, after: seq<Condition>)
    requires i < |inputs| && inputs[i].Translated()
    ensures Conditions(AllFilters(inputs), m) == before + Conditions(inputs[i].filters, m) + after
  {
    var front, last := inputs[..|inputs| - 1], inputs[|inputs| - 1];
    if i == |inputs| - 1 {
      before, after := Conditions(AllFilters(front), m), [];
      ConditionsAppend(AllFilters(front), last.filters, m);
    } else {
      before, after := OwnConditionsIncluded(front, i, m);
      if last.Translated() {
        ConditionsAppend(AllFilters(front), last.filters, m);
        after := after + Conditions(last.filters, m);
      }
    }
  }

  /** The filter gives the metric this condition: it names both a metric and a pattern. */
  predicate Gives(f: Filter, m: string, c: Condition) {
    f.Filter? && f.metric == m != "" && f.regex == c.regex != "" && f.exclude == c.exclude
  }

  /** A metric has a condition exactly when one of the filters gives it. */
  lemma {:induction false} ConditionIff(filters: seq<Filter>, m: string, c: Condition)
    ensures c in Conditions(filters, m) <==> exists i | 0 <= i < |filters| :: Gives(filters[i], m, c)
  {
    if filters != [] {
      var n := |filters| - 1;
      var front := filters[..n];
      ConditionIff(front, m, c);
      assert forall i | 0 <= i < n :: front[i] == filters[i];
      if i :| 0 <= i < n && Gives(filters[i], m, c) {
        assert Gives(front[i], m, c);
      }
      if i :| 0 <= i < n && Gives(front[i], m, c) {
        assert Gives(filters[i], m, c);
      }
    }
  }

  /** The labels are those of the first filter that gives the metric a condition. */
  lemma {:induction false} LabelsAreOfFirst(filters: seq<Filter>, m: string, i: nat, c: Condition)
    requires i < |filters| && Gives(filters[i], m, c)
    requires forall j, d | 0 <= j < i :: !Gives(filters[j], m, d)
    ensures FirstLabels(filters, m) == filters[i].labels
  {
    var n := |filters| - 1;
    var front := filters[..n];
    if i < n {
      LabelsAreOfFirst(front, m, i, c);
      assert Gives(front[i], m, c);
      ConditionIff(front, m, c);
    } else {
      forall d
        ensures d !in Conditions(front, m)
      {
        ConditionIff(front, m, d);
      }
      SomeIn(Conditions(front, m));
    }
  }

  lemma SomeIn(conditions: seq<Condition>)
    ensures conditions != [] ==> exists d :: d in conditions
  {
    if conditions != [] {
      assert conditions[0] in conditions;
    }
  }

  /** Metrics come in the order in which they are first used. */
  lemma {:induction false} TouchedInOrder(xs: seq<Filter>, ys: seq<Filter>)
    ensures Touched(xs) <= Touched(xs + ys)
    decreases |ys|
  {
    if ys == [] {
      assert xs + ys == xs;
    } else {
      var front, last := ys[..|ys| - 1], ys[|ys| - 1];
      assert xs + ys == (xs + front) + [last];
      TouchedInOrder(xs, front);
      FilterSnoc(xs + front, last);
    }
  }

  /** Only translated entries contribute conditions. */
  lemma {:induction false} NoOtherConditions(inputs: seq<Input>, m: string, c: Condition)
    ensures c in Conditions(AllFilters(inputs), m) <==>
            exists k | 0 <= k < |inputs| :: inputs[k].Translated() && c in Conditions(inputs[k].filters, m)
  {
    if inputs != [] {
      var n := |inputs| - 1;
      var front, last := inputs[..n], inputs[n];
      NoOtherConditions(front, m, c);
      if last.Translated() {
        ConditionsAppend(AllFilters(front), last.filters, m);
      }
      assert forall k | 0 <= k < n :: front[k] == inputs[k];
      if k :| 0 <= k < n && inputs[k].Translated() && c in Conditions(inputs[k].filters, m) {
        assert c in Conditions(front[k].filters, m);
      }
      if k :| 0 <= k < n && front[k].Translated() && c in Conditions(front[k].filters, m) {
        assert c in Conditions(inputs[k].filters, m);
      }
    }
  }

  // ---------------------------------------------------------------------------
  // The table of metrics
  // ---------------------------------------------------------------------------

  /** The table holds exactly these definitions, one object each. */
  ghost predicate Shows(table: map<string, MetricEntry>, defs: map<string, Definition>)
    reads table.Values
  {
    && table.Keys == defs.Keys
    && (forall m | m in table :: table[m].metric == m && table[m].labels == defs[m].labels)
    && (forall m | m in table :: table[m].conditions == defs[m].conditions)
    && (forall m, m' | m in table && m' in table && m != m' :: table[m] != table[m'])
  }

  /** One filter: when usable, create its metric if needed and append its condition in place. */
  method AddFilter(table: map<string, MetricEntry>, ghost defs: map<string, Definition>, f: Filter)
    returns (table': map<string, MetricEntry>)
    requires Shows(table, defs)
    modifies table.Values
    ensures Shows(table', Define1(defs, f))
    ensures forall m | m in table' :: (m in table && table'[m] == table[m]) || fresh(table'[m])
  {
    table' := table;
    if !f.Usable() {
      return;
    }
    if f.metric !in table' {
      var entry := new MetricEntry(f.metric, f.labels, []);
      table' := table'[f.metric := entry];
    }
    var entry := table'[f.metric];
    entry.conditions := entry.conditions + [Condition(f.regex, f.exclude)];
  }

  /** A warning for every dropped filter, and one for every metric shared with an earlier entry. */
  function MergeWarnings(earlier: seq<Filter>, filters: seq<Filter>, inputIndex: nat): seq<Warning> {
    if filters == [] then []
    else
      var j := |filters| - 1;
      var front := MergeWarnings(earlier, filters[..j], inputIndex);
      if !filters[j].Usable() then front + [BadFilter(inputIndex, j)]
      else if filters[j].metric !in Touched(filters[..j]) && filters[j].metric in Definitions(earlier) then
        front + [NameClash(filters[j].metric)]
      else front
  }

  lemma {:induction false} EveryDropIsReported(earlier: seq<Filter>, filters: seq<Filter>, inputIndex: nat, j: nat)
    ensures BadFilter(inputIndex, j) in MergeWarnings(earlier, filters, inputIndex)
            <==> j < |filters| && !filters[j].Usable()
  {
    if filters != [] {
      EveryDropIsReported(earlier, filters[..|filters| - 1], inputIndex, j);
    }
  }

  /** What one filter adds to the touched metrics and the warnings; existed: its metric was in the
      table before it. */
  method NoteFilter(ghost earlier: seq<Filter>, filters: seq<Filter>, j: nat, inputIndex: nat, existed: bool,
                    touched: seq<string>, warnings: seq<Warning>)
    returns (touched': seq<string>, warnings': seq<Warning>)
    requires j < |filters| && touched == Touched(filters[..j])
    requires warnings == MergeWarnings(earlier, filters[..j], inputIndex)
    requires existed <==> filters[j].Usable() && filters[j].metric in Definitions(earlier + filters[..j])
    ensures touched' == Touched(filters[..j + 1])
    ensures warnings' == MergeWarnings(earlier, filters[..j + 1], inputIndex)
  {
    var f := filters[j];
    touched', warnings' := touched, warnings;
    TakeSnoc(filters, j);
    if !f.Usable() {
      warnings' := warnings' + [BadFilter(inputIndex, j)];
    } else {
      ExistedBefore(earlier, filters[..j], f.metric);
      if f.metric !in touched {
        touched' := touched' + [f.metric];
        if existed {
          warnings' := warnings' + [NameClash(f.metric)];
        }
      }
    }
  }

  /** Returns the metrics the filters touch, each once. */
  method MergeLegacyFilters(table: map<string, MetricEntry>, ghost earlier: seq<Filter>, filters: seq<Filter>,
                            inputIndex: nat)
    returns (table': map<string, MetricEntry>, touched: seq<string>, warnings: seq<Warning>)
    requires Shows(table, Definitions(earlier))
    modifies table.Values
    ensures Shows(table', Definitions(earlier + filters))
    ensures forall m | m in table' :: (m in table && table'[m] == table[m]) || fresh(table'[m])
    ensures touched == Touched(filters)
    ensures warnings == MergeWarnings(earlier, filters, inputIndex)
  {
    table', touched, warnings := table, [], [];
    ghost var done := earlier;
    assert earlier + filters[..0] == earlier;
    for j := 0 to |filters|
      invariant done == earlier + filters[..j]
      invariant Shows(table', Definitions(done))
      invariant forall m | m in table' :: (m in table && table'[m] == table[m]) || fresh(table'[m])
      invariant touched == Touched(filters[..j])
      invariant warnings == MergeWarnings(earlier, filters[..j], inputIndex)
    {
      var f := filters[j];
      assert earlier + filters[..j + 1] == done + [f];
      DefinitionsSnoc(done, f);
      var existed := f.Usable() && f.metric in table';
      table' := AddFilter(table', Definitions(done), f);
      touched, warnings := NoteFilter(earlier, filters, j, inputIndex, existed, touched, warnings);
      done := done + [f];
    }
    assert filters[..|filters|] == filters;
  }

  lemma ExistedBefore(earlier: seq<Filter>, filters: seq<Filter>, m: string)
    ensures m in Definitions(earlier + filters) <==> m in Definitions(earlier) || m in Touched(filters)
  {
    DefinitionsAre(earlier, m);
    DefinitionsAre(earlier + filters, m);
    ConditionsAppend(earlier, filters, m);
    TouchedIffConditions(filters, m);
  }

  // ---------------------------------------------------------------------------
  // Receiver names
  // ---------------------------------------------------------------------------

  function Decimal(n: nat): (s: string)
    ensures s != ""
  {
    var digit := ["0123456789"[n % 10]];
    if n < 10 then digit else Decimal(n / 10) + digit
  }

  /** The number that digits stand for. */
  function NumberOf(digits: string): int {
    if digits == "" then 0 else 10 * NumberOf(digits[..|digits| - 1]) + (digits[|digits| - 1] as int - '0' as int)
  }

  lemma {:induction false} DecimalIsRead(n: nat)
    ensures NumberOf(Decimal(n)) == n
  {
    var s := Decimal(n);
    assert s[|s| - 1] == "0123456789"[n % 10];
    assert "0123456789"[n % 10] as int == '0' as int + n % 10;
    if n >= 10 {
      assert s[..|s| - 1] == Decimal(n / 10);
      DecimalIsRead(n / 10);
    } else {
      assert s[..|s| - 1] == "";
    }
  }

  lemma {:induction false} DecimalInjective(i: nat, j: nat)
    requires Decimal(i) == Decimal(j)
    ensures i == j
  {
    var s := Decimal(i);
    assert s[|s| - 1] == "0123456789"[i % 10] == "0123456789"[j % 10];
    assert i % 10 == j % 10;
    if i >= 10 && j >= 10 {
      assert Decimal(i / 10) == s[..|s| - 1] == Decimal(j / 10);
      DecimalInjective(i / 10, j / 10);
    }
  }

  /** The hash of the provider's path, if it has one, keeps providers apart. */
  function LegacyName(pathHash: Option<string>, i: nat): string {
    "legacy_input_" + (if pathHash.Some? then pathHash.value + "_" else "") + Decimal(i)
  }

  lemma LegacyNameInjective(pathHash: Option<string>, i: nat, j: nat)
    requires LegacyName(pathHash, i) == LegacyName(pathHash, j)
    ensures i == j
  {
    var prefix := "legacy_input_" + if pathHash.Some? then pathHash.value + "_" else "";
    assert LegacyName(pathHash, i)[|prefix|..] == Decimal(i);
    assert LegacyName(pathHash, j)[|prefix|..] == Decimal(j);
    DecimalInjective(i, j);
  }

  // ---------------------------------------------------------------------------
  // The migration
  // ---------------------------------------------------------------------------

  const INPUTS_KEY := "log.inputs"
  const RECEIVERS_KEY := "log.opentelemetry.receivers"

  /** What is reported about an entry in any case: that it was migrated, or why it was dropped. */
  function Verdict(input: Input, i: nat): Warning {
    if !input.Input? then InvalidInput(i)
    else if input.filters == [] then NoFilters(i)
    else if !input.Translated() then NoTarget(i)
    else Migrated(i)
  }

  /** The receiver of an entry before its metrics are embedded. A path silences the container
      matchers. */
  function Skeleton(input: Input): Receiver
    requires input.Translated()
  {
    if input.path != "" then Legacy([input.path], "", map[], [])
    else Legacy([], input.containerName, input.selectors, [])
  }

  /** The entries hold these definitions of these metrics. */
  ghost predicate Define(entries: seq<MetricEntry>, metrics: seq<string>, defs: map<string, Definition>)
    reads entries
  {
    && |entries| == |metrics|
    && forall a | 0 <= a < |entries| ::
         && metrics[a] in defs
         && entries[a].metric == metrics[a]
         && entries[a].labels == defs[metrics[a]].labels
         && entries[a].conditions == defs[metrics[a]].conditions
  }

  /** No metric object occurs twice, in one receiver or in two. */
  ghost predicate NoSharing(metricsOf: map<string, seq<MetricEntry>>) {
    forall n, n', a, b |
      && n in metricsOf && 0 <= a < |metricsOf[n]|
      && n' in metricsOf && 0 <= b < |metricsOf[n']|
      && metricsOf[n][a] == metricsOf[n'][b]
      :: n == n' && a == b
  }

  /** Copies of the named metrics, every one a new object. */
  method CloneMetrics(table: map<string, MetricEntry>, ghost defs: map<string, Definition>, metrics: seq<string>)
    returns (entries: seq<MetricEntry>)
    requires Shows(table, defs)
    requires forall m | m in metrics :: m in table
    ensures Define(entries, metrics, defs)
    ensures forall e | e in entries :: fresh(e)
    ensures forall a, b | 0 <= a < b < |entries| :: entries[a] != entries[b]
  {
    entries := [];
    for a := 0 to |metrics|
      invariant Define(entries, metrics[..a], defs)
      invariant forall e | e in entries :: fresh(e)
      invariant forall a, b | 0 <= a < b < |entries| :: entries[a] != entries[b]
    {
      var original := table[metrics[a]];
      var copy := new MetricEntry(original.metric, original.labels, original.conditions);
      entries := entries + [copy];
    }
    assert metrics[..|metrics|] == metrics;
  }

  lemma NoSharingAdd(metricsOf: map<string, seq<MetricEntry>>, name: string, metrics: seq<MetricEntry>)
    requires NoSharing(metricsOf) && name !in metricsOf
    requires forall a, b | 0 <= a < b < |metrics| :: metrics[a] != metrics[b]
    requires forall n, a | n in metricsOf && 0 <= a < |metricsOf[n]| :: metricsOf[n][a] !in metrics
    ensures NoSharing(metricsOf[name := metrics])
  {
  }

  /** Copies for every migrated receiver, made in any order. */
  method EmbedMetrics(table: map<string, MetricEntry>, ghost defs: map<string, Definition>,
                      touchedBy: map<string, seq<string>>)
    returns (metricsOf: map<string, seq<MetricEntry>>)
    requires Shows(table, defs)
    requires forall n, m | n in touchedBy && m in touchedBy[n] :: m in table
    ensures metricsOf.Keys == touchedBy.Keys
    ensures forall n | n in touchedBy :: Define(metricsOf[n], touchedBy[n], defs)
    ensures NoSharing(metricsOf)
  {
    metricsOf := map[];
    var todo := touchedBy.Keys;
    while todo != {}
      invariant todo <= touchedBy.Keys
      invariant metricsOf.Keys == touchedBy.Keys - todo
      invariant forall n | n in metricsOf :: Define(metricsOf[n], touchedBy[n], defs)
      invariant NoSharing(metricsOf)
    {
      var name :| name in todo;
      var metrics := CloneMetrics(table, defs, touchedBy[name]);
      NoSharingAdd(metricsOf, name, metrics);
      metricsOf := metricsOf[name := metrics];
      todo := todo - {name};
    }
  }

  /** The receiver names of the entries of one provider. */
  function Names(pathHash: Option<string>, n: nat): (names: seq<string>)
    ensures |names| == n
    ensures forall i | 0 <= i < n :: names[i] == LegacyName(pathHash, i)
  {
    seq(n, i requires 0 <= i => LegacyName(pathHash, i))
  }

  ghost predicate Distinct(names: seq<string>) {
    forall i, j | 0 <= i < j < |names| :: names[i] != names[j]
  }

  lemma NamesDistinct(pathHash: Option<string>, n: nat)
    ensures Distinct(Names(pathHash, n))
  {
    forall i, j | 0 <= i < j < n && LegacyName(pathHash, i) == LegacyName(pathHash, j)
      ensures false
    {
      LegacyNameInjective(pathHash, i, j);
    }
  }

  function MigratedNames(inputs: seq<Input>, names: seq<string>): set<string>
    requires |inputs| <= |names|
  {
    if inputs == [] then {}
    else
      var front, i := MigratedNames(inputs[..|inputs| - 1], names), |inputs| - 1;
      if inputs[i].Translated() then front + {names[i]} else front
  }

  lemma {:induction false} MigratedNamesAre(inputs: seq<Input>, names: seq<string>)
    requires |inputs| <= |names| && Distinct(names)
    ensures MigratedNames(inputs, names) == {} <==> forall k | 0 <= k < |inputs| :: !inputs[k].Translated()
    ensures forall k | |inputs| <= k < |names| :: names[k] !in MigratedNames(inputs, names)
  {
    if inputs != [] {
      MigratedNamesAre(inputs[..|inputs| - 1], names);
    }
  }

  /** Every translated entry has its receiver and its touched metrics recorded under its name. */
  ghost predicate Slots(inputs: seq<Input>, names: seq<string>,
                        receivers: map<string, Receiver>, touchedBy: map<string, seq<string>>)
    requires |inputs| <= |names|
  {
    forall k | 0 <= k < |inputs| && inputs[k].Translated() ::
      && names[k] in receivers && receivers[names[k]] == Skeleton(inputs[k])
      && names[k] in touchedBy && touchedBy[names[k]] == Touched(inputs[k].filters)
  }

  /** ... and the user's own receivers of other names are untouched. */
  ghost predicate Folded(inputs: seq<Input>, names: seq<string>, own: map<string, Receiver>,
                         receivers: map<string, Receiver>, touchedBy: map<string, seq<string>>)
    requires |inputs| <= |names|
  {
    && Slots(inputs, names, receivers, touchedBy)
    && touchedBy.Keys == MigratedNames(inputs, names)
    && receivers.Keys == own.Keys + touchedBy.Keys
    && (forall n | n in own && n !in touchedBy :: receivers[n] == own[n])
  }

  lemma {:induction false} MigratedNameOf(inputs: seq<Input>, names: seq<string>, n: string) returns (k: nat)
    requires |inputs| <= |names| && n in MigratedNames(inputs, names)
    ensures k < |inputs| && inputs[k].Translated() && names[k] == n
  {
    k := |inputs| - 1;
    if !(inputs[k].Translated() && names[k] == n) {
      k := MigratedNameOf(inputs[..k], names, n);
    }
  }

  lemma FoldedKinds(inputs: seq<Input>, names: seq<string>, own: map<string, Receiver>,
                    receivers: map<string, Receiver>, touchedBy: map<string, seq<string>>)
    requires |inputs| <= |names|
    requires Folded(inputs, names, own, receivers, touchedBy)
    requires forall n | n in own :: own[n].Own?
    ensures forall n | n in receivers :: receivers[n].Legacy? <==> n in touchedBy
  {
    forall n | n in touchedBy
      ensures receivers[n].Legacy?
    {
      var k := MigratedNameOf(inputs, names, n);
    }
  }

  lemma SlotsAdd(inputs: seq<Input>, input: Input, names: seq<string>,
                 receivers: map<string, Receiver>, touchedBy: map<string, seq<string>>)
    requires |inputs| < |names| && Distinct(names)
    requires Slots(inputs, names, receivers, touchedBy) && input.Translated()
    ensures Slots(inputs + [input], names, receivers[names[|inputs|] := Skeleton(input)],
                  touchedBy[names[|inputs|] := Touched(input.filters)])
  {
    var skeleton, touched := Skeleton(input), Touched(input.filters);
    var receivers', touchedBy' := receivers[names[|inputs|] := skeleton], touchedBy[names[|inputs|] := touched];
    forall k | 0 <= k < |inputs + [input]| && (inputs + [input])[k].Translated()
      ensures names[k] in receivers' && receivers'[names[k]] == Skeleton((inputs + [input])[k])
      ensures names[k] in touchedBy' && touchedBy'[names[k]] == Touched((inputs + [input])[k].filters)
    {
      if k < |inputs| {
        assert names[k] != names[|inputs|];
      }
    }
  }

  /** What is reported about all entries, one after the other. */
  ghost function WarningsOf(inputs: seq<Input>): seq<Warning> {
    if inputs == [] then []
    else
      var i := |inputs| - 1;
      var front := inputs[..i];
      WarningsOf(front) + InputWarnings(AllFilters(front), inputs[i], i)
  }

  lemma WarningsSnoc(inputs: seq<Input>, input: Input)
    ensures WarningsOf(inputs + [input]) == WarningsOf(inputs) + InputWarnings(AllFilters(inputs), input, |inputs|)
  {
    assert (inputs + [input])[..|inputs|] == inputs;
  }

  lemma InputSnoc(inputs: seq<Input>, input: Input, names: seq<string>)
    requires |inputs| < |names|
    ensures AllFilters(inputs + [input])
            == if input.Translated() then AllFilters(inputs) + input.filters else AllFilters(inputs)
    ensures MigratedNames(inputs + [input], names)
            == MigratedNames(inputs, names) + if input.Translated() then {names[|inputs|]} else {}
  {
    assert (inputs + [input])[..|inputs|] == inputs;
  }

  lemma FoldedSkip(inputs: seq<Input>, input: Input, names: seq<string>, own: map<string, Receiver>,
                   receivers: map<string, Receiver>, touchedBy: map<string, seq<string>>)
    requires |inputs| < |names|
    requires Folded(inputs, names, own, receivers, touchedBy) && !input.Translated()
    ensures Folded(inputs + [input], names, own, receivers, touchedBy)
  {
    InputSnoc(inputs, input, names);
  }

  lemma FoldedAdd(inputs: seq<Input>, input: Input, names: seq<string>, own: map<string, Receiver>,
                  receivers: map<string, Receiver>, touchedBy: map<string, seq<string>>)
    requires |inputs| < |names| && Distinct(names)
    requires Folded(inputs, names, own, receivers, touchedBy) && input.Translated()
    ensures Folded(inputs + [input], names, own, receivers[names[|inputs|] := Skeleton(input)],
                   touchedBy[names[|inputs|] := Touched(input.filters)])
  {
    InputSnoc(inputs, input, names);
    SlotsAdd(inputs, input, names, receivers, touchedBy);
    OwnUntouched(own, receivers, touchedBy, names[|inputs|], Skeleton(input), Touched(input.filters));
  }

  lemma OwnUntouched(own: map<string, Receiver>, receivers: map<string, Receiver>,
                     touchedBy: map<string, seq<string>>, name: string, r: Receiver, touched: seq<string>)
    requires receivers.Keys == own.Keys + touchedBy.Keys
    requires forall n | n in own && n !in touchedBy :: receivers[n] == own[n]
    ensures receivers[name := r].Keys == own.Keys + touchedBy[name := touched].Keys
    ensures forall n | n in own && n !in touchedBy[name := touched] :: receivers[name := r][n] == own[n]
  {
  }

  /** The metrics a receiver names are all defined. */
  ghost predicate Named(touchedBy: map<string, seq<string>>, defs: map<string, Definition>) {
    forall n, m | n in touchedBy && m in touchedBy[n] :: m in defs
  }

  lemma NamedAdd(touchedBy: map<string, seq<string>>, earlier: seq<Filter>, filters: seq<Filter>, name: string)
    requires Named(touchedBy, Definitions(earlier))
    ensures Named(touchedBy[name := Touched(filters)], Definitions(earlier + filters))
  {
    forall m {
      ExistedBefore(earlier, filters, m);
    }
  }

  /** The filters of a translated entry, folded into the table. */
  method MergeInput(table: map<string, MetricEntry>, ghost earlier: seq<Filter>, input: Input, i: nat)
    returns (table': map<string, MetricEntry>, touched: seq<string>, more: seq<Warning>)
    requires Shows(table, Definitions(earlier)) && input.Translated()
    modifies table.Values
    ensures Shows(table', Definitions(earlier + input.filters))
    ensures forall m | m in table' :: (m in table && table'[m] == table[m]) || fresh(table'[m])
    ensures touched == Touched(input.filters)
    ensures more + [Verdict(input, i)] == InputWarnings(earlier, input, i)
  {
    table', touched, more := MergeLegacyFilters(table, earlier, input.filters, i);
    if input.path != "" && (input.containerName != "" || input.selectors != map[]) {
      more := more + [PathWins(i)];
    }
  }

  ghost function InputWarnings(earlier: seq<Filter>, input: Input, i: nat): seq<Warning> {
    if !input.Translated() then [Verdict(input, i)]
    else
      MergeWarnings(earlier, input.filters, i)
      + (if input.path != "" && (input.containerName != "" || input.selectors != map[]) then [PathWins(i)] else [])
      + [Verdict(input, i)]
  }

  /** What is true of everything but the table after the first i entries. */
  ghost predicate FoldedTo(inputs: seq<Input>, i: nat, names: seq<string>, own: map<string, Receiver>,
                           receivers: map<string, Receiver>, touchedBy: map<string, seq<string>>, warnings: seq<Warning>)
    requires i <= |inputs| == |names|
  {
    && Named(touchedBy, Definitions(AllFilters(inputs[..i])))
    && Folded(inputs[..i], names, own, receivers, touchedBy)
    && warnings == WarningsOf(inputs[..i])
  }

  lemma FoldedToSkip(inputs: seq<Input>, i: nat, names: seq<string>, own: map<string, Receiver>,
                     receivers: map<string, Receiver>, touchedBy: map<string, seq<string>>, warnings: seq<Warning>)
    requires i < |inputs| == |names| && !inputs[i].Translated()
    requires FoldedTo(inputs, i, names, own, receivers, touchedBy, warnings)
    ensures AllFilters(inputs[..i + 1]) == AllFilters(inputs[..i])
    ensures FoldedTo(inputs, i + 1, names, own, receivers, touchedBy, warnings + [Verdict(inputs[i], i)])
  {
    TakeSnoc(inputs, i);
    InputSnoc(inputs[..i], inputs[i], names);
    FoldedSkip(inputs[..i], inputs[i], names, own, receivers, touchedBy);
    WarningsSnoc(inputs[..i], inputs[i]);
  }

  lemma FoldedToAdd(inputs: seq<Input>, i: nat, names: seq<string>, own: map<string, Receiver>,
                    receivers: map<string, Receiver>, touchedBy: map<string, seq<string>>, warnings: seq<Warning>,
                    more: seq<Warning>)
    requires i < |inputs| == |names| && Distinct(names) && inputs[i].Translated()
    requires FoldedTo(inputs, i, names, own, receivers, touchedBy, warnings)
    requires more + [Verdict(inputs[i], i)] == InputWarnings(AllFilters(inputs[..i]), inputs[i], i)
    ensures AllFilters(inputs[..i + 1]) == AllFilters(inputs[..i]) + inputs[i].filters
    ensures FoldedTo(inputs, i + 1, names, own, receivers[names[i] := Skeleton(inputs[i])],
                     touchedBy[names[i] := Touched(inputs[i].filters)], warnings + more + [Verdict(inputs[i], i)])
  {
    TakeSnoc(inputs, i);
    InputSnoc(inputs[..i], inputs[i], names);
    FoldedAdd(inputs[..i], inputs[i], names, own, receivers, touchedBy);
    NamedAdd(touchedBy, AllFilters(inputs[..i]), inputs[i].filters, names[i]);
    WarningsSnoc(inputs[..i], inputs[i]);
    assert warnings + more + [Verdict(inputs[i], i)] == warnings + (more + [Verdict(inputs[i], i)]);
  }

  /** The loop over the entries. */
  method FoldInputs(inputs: seq<Input>, names: seq<string>, own: map<string, Receiver>)
    returns (table: map<string, MetricEntry>, receivers: map<string, Receiver>,
             touchedBy: map<string, seq<string>>, warnings: seq<Warning>)
    requires |inputs| == |names| && Distinct(names)
    ensures Shows(table, Definitions(AllFilters(inputs)))
    ensures Named(touchedBy, Definitions(AllFilters(inputs)))
    ensures Folded(inputs, names, own, receivers, touchedBy)
    ensures warnings == WarningsOf(inputs)
  {
    table, receivers, touchedBy, warnings := map[], own, map[], [];
    for i := 0 to |inputs|
      invariant forall m | m in table :: fresh(table[m])
      invariant Shows(table, Definitions(AllFilters(inputs[..i])))
      invariant FoldedTo(inputs, i, names, own, receivers, touchedBy, warnings)
    {
      var input := inputs[i];
      if !input.Translated() {
        FoldedToSkip(inputs, i, names, own, receivers, touchedBy, warnings);
        warnings := warnings + [Verdict(input, i)];
        continue;
      }
      var touched, more;
      table, touched, more := MergeInput(table, AllFilters(inputs[..i]), input, i);
      FoldedToAdd(inputs, i, names, own, receivers, touchedBy, warnings, more);
      receivers := receivers[names[i] := Skeleton(input)];
      touchedBy := touchedBy[names[i] := touched];
      warnings := warnings + more + [Verdict(input, i)];
    }
    assert inputs[..|inputs|] == inputs;
  }

  // ---------------------------------------------------------------------------
  // What is reported
  // ---------------------------------------------------------------------------

  /** The entry is one that can be translated: it has filters and says what to read. */
  predicate HasFiltersAndTarget(input: Input) {
    input.Input? && input.filters != [] && !(input.path == "" && input.containerName == "" && input.selectors == map[])
  }

  /** The k-th entry defines the metric. */
  predicate Defines(inputs: seq<Input>, k: nat, m: string) {
    && k < |inputs| && HasFiltersAndTarget(inputs[k])
    && exists i | 0 <= i < |inputs[k].filters| :: inputs[k].filters[i].Usable() && inputs[k].filters[i].metric == m
  }

  /** The warning is one the entries call for. */
  ghost predicate IsCalledFor(inputs: seq<Input>, w: Warning) {
    match w
    case EmptyInputs => false
    case InputsNotAList => false
    case InvalidInput(i) => i < |inputs| && inputs[i].NotAnInput?
    case NoFilters(i) => i < |inputs| && inputs[i].Input? && inputs[i].filters == []
    case NoTarget(i) => i < |inputs| && inputs[i].Input? && inputs[i].filters != [] && !HasFiltersAndTarget(inputs[i])
    case PathWins(i) =>
      && i < |inputs| && HasFiltersAndTarget(inputs[i])
      && inputs[i].path != "" && (inputs[i].containerName != "" || inputs[i].selectors != map[])
    case Migrated(i) => i < |inputs| && HasFiltersAndTarget(inputs[i])
    case BadFilter(i, j) =>
      i < |inputs| && HasFiltersAndTarget(inputs[i]) && j < |inputs[i].filters| && !inputs[i].filters[j].Usable()
    case NameClash(m) => exists k, k' | 0 <= k < k' :: Defines(inputs, k, m) && Defines(inputs, k', m)
  }

  lemma {:induction false} TouchedIff(filters: seq<Filter>, m: string)
    ensures m in Touched(filters) <==> exists i | 0 <= i < |filters| :: filters[i].Usable() && filters[i].metric == m
  {
    if filters != [] {
      var n := |filters| - 1;
      var front := filters[..n];
      TouchedIff(front, m);
      assert forall i | 0 <= i < n :: front[i] == filters[i];
      if i :| 0 <= i < n && filters[i].Usable() && filters[i].metric == m {
        assert front[i].Usable() && front[i].metric == m;
      }
      if i :| 0 <= i < n && front[i].Usable() && front[i].metric == m {
        assert filters[i].Usable() && filters[i].metric == m;
      }
    }
  }

  lemma {:induction false} ClashIff(earlier: seq<Filter>, filters: seq<Filter>, inputIndex: nat, m: string)
    ensures NameClash(m) in MergeWarnings(earlier, filters, inputIndex) <==> m in Touched(filters) && m in Definitions(earlier)
  {
    if filters != [] {
      ClashIff(earlier, filters[..|filters| - 1], inputIndex, m);
    }
  }

  lemma {:induction false} OnlyDropsAndClashes(earlier: seq<Filter>, filters: seq<Filter>, inputIndex: nat, w: Warning)
    requires w in MergeWarnings(earlier, filters, inputIndex)
    ensures w.NameClash? || (w.BadFilter? && w.input == inputIndex)
  {
    if filters != [] {
      var front := filters[..|filters| - 1];
      if w in MergeWarnings(earlier, front, inputIndex) {
        OnlyDropsAndClashes(earlier, front, inputIndex, w);
      }
    }
  }

  /** A metric is in the table exactly when some entry defines it. */
  lemma {:induction false} DefinedIff(inputs: seq<Input>, m: string)
    ensures m in Definitions(AllFilters(inputs)) <==> exists k :: Defines(inputs, k, m)
  {
    if inputs != [] {
      var n := |inputs| - 1;
      var front, last := inputs[..n], inputs[n];
      DefinedIff(front, m);
      if last.Translated() {
        ExistedBefore(AllFilters(front), last.filters, m);
        TouchedIff(last.filters, m);
      }
      assert Defines(inputs, n, m) <==> last.Translated() && m in Touched(last.filters);
      DefinesNext(inputs, m);
      if k :| Defines(front, k, m) {
        assert Defines(inputs, k, m);
      }
    }
  }

  lemma DefinesNext(inputs: seq<Input>, m: string)
    requires inputs != []
    ensures var n := |inputs| - 1;
            forall k :: Defines(inputs, k, m) <==> Defines(inputs[..n], k, m) || (k == n && Defines(inputs, n, m))
  {
    var n := |inputs| - 1;
    assert forall k | 0 <= k < n :: inputs[..n][k] == inputs[k];
  }

  /** The last entry calls for the warning. */
  ghost predicate LastCallsFor(inputs: seq<Input>, w: Warning)
    requires inputs != []
  {
    var n := |inputs| - 1;
    if w.NameClash? then Defines(inputs, n, w.metric) && exists k :: Defines(inputs[..n], k, w.metric)
    else !w.EmptyInputs? && !w.InputsNotAList? && w.input == n && IsCalledFor(inputs, w)
  }

  lemma ClashNext(inputs: seq<Input>, m: string)
    requires inputs != []
    ensures IsCalledFor(inputs, NameClash(m)) <==>
            IsCalledFor(inputs[..|inputs| - 1], NameClash(m)) || LastCallsFor(inputs, NameClash(m))
  {
    var n := |inputs| - 1;
    var front := inputs[..n];
    DefinesNext(inputs, m);
    if k, k' :| 0 <= k < k' && Defines(inputs, k, m) && Defines(inputs, k', m) {
      assert Defines(front, k, m);
      assert k' < n ==> Defines(front, k', m);
    }
    if k, k' :| 0 <= k < k' && Defines(front, k, m) && Defines(front, k', m) {
      assert Defines(inputs, k, m) && Defines(inputs, k', m);
    }
    if LastCallsFor(inputs, NameClash(m)) {
      var k: nat :| Defines(front, k, m);
      assert k < n && Defines(inputs, k, m) && Defines(inputs, n, m);
    }
  }

  lemma CalledForNext(inputs: seq<Input>, w: Warning)
    requires inputs != []
    ensures IsCalledFor(inputs, w) <==> IsCalledFor(inputs[..|inputs| - 1], w) || LastCallsFor(inputs, w)
  {
    if w.NameClash? {
      ClashNext(inputs, w.metric);
    }
  }

  lemma LastClash(inputs: seq<Input>, m: string)
    requires inputs != []
    ensures var n := |inputs| - 1;
            NameClash(m) in InputWarnings(AllFilters(inputs[..n]), inputs[n], n) <==> LastCallsFor(inputs, NameClash(m))
  {
    var n := |inputs| - 1;
    if inputs[n].Translated() {
      ClashIff(AllFilters(inputs[..n]), inputs[n].filters, n, m);
      TouchedIff(inputs[n].filters, m);
      DefinedIff(inputs[..n], m);
    }
  }

  lemma LastOther(inputs: seq<Input>, w: Warning)
    requires inputs != [] && !w.NameClash?
    ensures var n := |inputs| - 1;
            w in InputWarnings(AllFilters(inputs[..n]), inputs[n], n) <==> LastCallsFor(inputs, w)
  {
    var n := |inputs| - 1;
    var earlier, last := AllFilters(inputs[..n]), inputs[n];
    if last.Translated() {
      if w.BadFilter? {
        EveryDropIsReported(earlier, last.filters, n, w.filter);
      }
      if w in MergeWarnings(earlier, last.filters, n) {
        OnlyDropsAndClashes(earlier, last.filters, n, w);
      }
    }
  }

  /** A warning is given exactly when the entries call for it: for every entry that cannot be read, has
      no filters or nothing to read, or was migrated; for a path beside containers; for every filter that
      was dropped; and for every metric that two entries define. */
  lemma {:induction false} ReportedIff(inputs: seq<Input>, w: Warning)
    ensures w in WarningsOf(inputs) <==> IsCalledFor(inputs, w)
  {
    if inputs != [] {
      ReportedIff(inputs[..|inputs| - 1], w);
      CalledForNext(inputs, w);
      if w.NameClash? {
        LastClash(inputs, w.metric);
      } else {
        LastOther(inputs, w);
      }
    }
  }

  ghost predicate AnyTranslated(inputs: Option<seq<Input>>) {
    inputs.Some? && exists k | 0 <= k < |inputs.value| :: inputs.value[k].Translated()
  }

  /** Entry k's receiver reads what the entry read, its file if it has one and else its containers, and
      holds, for every metric the entry touches, the conditions of all translated entries. */
  ghost predicate Migrates(inputs: seq<Input>, k: nat, receivers: map<string, Receiver>, name: string)
    requires k < |inputs| && inputs[k].Translated()
    reads if name in receivers && receivers[name].Legacy? then set e | e in receivers[name].metrics else {}
  {
    && name in receivers
    && receivers[name].Legacy?
    && (if inputs[k].path != "" then
          receivers[name].files == [inputs[k].path] && receivers[name].containerName == "" && receivers[name].selectors == map[]
        else
          && receivers[name].files == [] && receivers[name].containerName == inputs[k].containerName
          && receivers[name].selectors == inputs[k].selectors)
    && Define(receivers[name].metrics, Touched(inputs[k].filters), Definitions(AllFilters(inputs)))
  }

  /** The copies, receiver by receiver. */
  function MetricsOf(receivers: map<string, Receiver>): map<string, seq<MetricEntry>> {
    map n | n in receivers && receivers[n].Legacy? :: receivers[n].metrics
  }

  function AsOwn(nested: map<string, Value>): map<string, Receiver> {
    map n | n in nested :: Own(nested[n])
  }

  function WithMetrics(receivers: map<string, Receiver>, metricsOf: map<string, seq<MetricEntry>>): map<string, Receiver>
    requires forall n | n in metricsOf :: n in receivers && receivers[n].Legacy?
  {
    map n | n in receivers :: if n in metricsOf then receivers[n].(metrics := metricsOf[n]) else receivers[n]
  }

  lemma MetricsOfWith(receivers: map<string, Receiver>, metricsOf: map<string, seq<MetricEntry>>)
    requires forall n | n in receivers :: receivers[n].Legacy? <==> n in metricsOf
    requires metricsOf.Keys <= receivers.Keys
    ensures MetricsOf(WithMetrics(receivers, metricsOf)) == metricsOf
  {
  }

  /** With the copies in place every translated entry is migrated. */
  lemma EmbeddedMigrate(inputs: seq<Input>, names: seq<string>, own: map<string, Receiver>,
                        receivers: map<string, Receiver>, touchedBy: map<string, seq<string>>,
                        metricsOf: map<string, seq<MetricEntry>>, k: nat)
    requires |inputs| == |names| && Folded(inputs, names, own, receivers, touchedBy)
    requires metricsOf.Keys == touchedBy.Keys && forall n | n in metricsOf :: receivers[n].Legacy?
    requires forall n | n in touchedBy :: Define(metricsOf[n], touchedBy[n], Definitions(AllFilters(inputs)))
    requires k < |inputs| && inputs[k].Translated()
    ensures Migrates(inputs, k, WithMetrics(receivers, metricsOf), names[k])
  {
  }

  /** The receivers are the user's own and those added, which replace own ones of the same name. */
  ghost predicate Joined(receivers: map<string, Receiver>, own: map<string, Value>, added: set<string>) {
    && receivers.Keys == own.Keys + added
    && (forall n | n in own && n !in added :: receivers[n] == Own(own[n]))
    && (forall n | n in added :: receivers[n].Legacy?)
  }

  lemma FoldedJoins(inputs: seq<Input>, names: seq<string>, nested: map<string, Value>,
                    receivers: map<string, Receiver>, touchedBy: map<string, seq<string>>,
                    metricsOf: map<string, seq<MetricEntry>>)
    requires |inputs| == |names| && Folded(inputs, names, AsOwn(nested), receivers, touchedBy)
    requires metricsOf.Keys == touchedBy.Keys && forall n | n in metricsOf :: receivers[n].Legacy?
    ensures Joined(WithMetrics(receivers, metricsOf), nested, MigratedNames(inputs, names))
  {
  }

  /** The receivers after folding all entries in, or none when no entry is translated. */
  method MigrateEntries(inputs: seq<Input>, names: seq<string>, nested: map<string, Value>)
    returns (written: Option<map<string, Receiver>>, warnings: seq<Warning>)
    requires |inputs| == |names| && Distinct(names)
    ensures warnings == WarningsOf(inputs)
    ensures written.Some? <==> AnyTranslated(Some(inputs))
    ensures written.Some? ==> forall k | 0 <= k < |inputs| && inputs[k].Translated() ::
                                Migrates(inputs, k, written.value, names[k])
    ensures written.Some? ==> NoSharing(MetricsOf(written.value))
    ensures written.Some? ==> Joined(written.value, nested, MigratedNames(inputs, names))
  {
    var table, receivers, touchedBy;
    table, receivers, touchedBy, warnings := FoldInputs(inputs, names, AsOwn(nested));
    MigratedNamesAre(inputs, names);
    if touchedBy == map[] {
      return None, warnings;
    }
    FoldedKinds(inputs, names, AsOwn(nested), receivers, touchedBy);
    var metricsOf := EmbedMetrics(table, Definitions(AllFilters(inputs)), touchedBy);
    MetricsOfWith(receivers, metricsOf);
    FoldedJoins(inputs, names, nested, receivers, touchedBy, metricsOf);
    forall k | 0 <= k < |inputs| && inputs[k].Translated()
      ensures Migrates(inputs, k, WithMetrics(receivers, metricsOf), names[k])
    {
      EmbeddedMigrate(inputs, names, AsOwn(nested), receivers, touchedBy, metricsOf, k);
    }
    written := Some(WithMetrics(receivers, metricsOf));
  }

  // ---------------------------------------------------------------------------
  // What becomes of the user's own receivers
  // ---------------------------------------------------------------------------

  /** The configuration without log.inputs, in which the user's receivers are looked for. */
  function Others(config: map<string, Value>): map<string, Value> {
    config - {INPUTS_KEY}
  }

  predicate IsOwnLeaf(k: string) {
    RECEIVERS_KEY + "." <= k
  }

  /** The user's own receivers, as one nested map, for one order of the flat keys. */
  ghost predicate OwnReceivers(config: map<string, Value>, order: seq<Path>, own: map<string, Value>) {
    && Enumerates(order, Below(Others(config), RECEIVERS_KEY))
    && own == Replay(order, Below(Others(config), RECEIVERS_KEY), Child(Others(config), RECEIVERS_KEY))
  }

  /** The names of the user's own receivers, whatever the order. */
  ghost predicate IsOwnName(config: map<string, Value>, n: string) {
    || n in Child(Others(config), RECEIVERS_KEY)
    || exists p | p in Below(Others(config), RECEIVERS_KEY) :: p[0] == n
  }

  lemma OwnNames(config: map<string, Value>, order: seq<Path>, own: map<string, Value>, n: string)
    requires OwnReceivers(config, order, own)
    ensures n in own <==> IsOwnName(config, n)
  {
    ReplayKeys(order, Below(Others(config), RECEIVERS_KEY), Child(Others(config), RECEIVERS_KEY), n);
  }

  /** Every own receiver is in the configuration afterwards, with what it held: among the receivers
      written, in the map under the parent key, or in flat keys that were left alone. */
  ghost predicate OwnReceiversKept(config: map<string, Value>, own: map<string, Value>, rest: map<string, Value>,
                                   written: Option<map<string, Receiver>>) {
    match written
    case Some(receivers) => forall n | n in own :: n in receivers && receivers[n] == Own(own[n])
    case None =>
      || (RECEIVERS_KEY in rest && rest[RECEIVERS_KEY] == Map(own))
      || (forall k | k in config && (k == RECEIVERS_KEY || IsOwnLeaf(k)) :: k in rest && rest[k] == config[k])
  }

  /** The names that the translated entries get. */
  function NewNames(inputs: seq<Input>, pathHash: Option<string>): set<string> {
    MigratedNames(inputs, Names(pathHash, |inputs|))
  }

  /** There is nothing to migrate; or something is migrated under names the user does not use; or
      nothing is, and the user's receivers are a map under the parent key or there are none. */
  ghost predicate KeepsOwnReceivers(config: map<string, Value>, inputs: Option<seq<Input>>, pathHash: Option<string>) {
    if inputs.None? || inputs.value == [] then true
    else if AnyTranslated(inputs) then forall n | n in NewNames(inputs.value, pathHash) :: !IsOwnName(config, n)
    else
      || (RECEIVERS_KEY in config && config[RECEIVERS_KEY].Map?)
      || (forall k | k in config :: !IsOwnLeaf(k))
  }

  lemma {:induction false} MigratedNameIff(inputs: seq<Input>, names: seq<string>, n: string)
    requires |inputs| <= |names|
    ensures n in MigratedNames(inputs, names) <==> exists k | 0 <= k < |inputs| :: inputs[k].Translated() && names[k] == n
  {
    if n in MigratedNames(inputs, names) {
      var k := MigratedNameOf(inputs, names, n);
    }
    if inputs != [] {
      var last := |inputs| - 1;
      var front := inputs[..last];
      MigratedNameIff(front, names, n);
      if k :| 0 <= k < last && inputs[k].Translated() && names[k] == n {
        assert front[k].Translated();
      }
    }
  }

  /** The new names are those of the translated entries. */
  lemma NewNamesAre(inputs: seq<Input>, pathHash: Option<string>, n: string)
    ensures n in NewNames(inputs, pathHash) <==>
            exists k | 0 <= k < |inputs| :: inputs[k].Translated() && LegacyName(pathHash, k) == n
  {
    var names := Names(pathHash, |inputs|);
    MigratedNameIff(inputs, names, n);
    if k :| 0 <= k < |inputs| && inputs[k].Translated() && LegacyName(pathHash, k) == n {
      assert names[k] == n;
    }
  }

  lemma KeptIfUntouched(config: map<string, Value>, own: map<string, Value>)
    ensures OwnReceiversKept(config, own, Others(config), None)
  {
    NotBelow();
  }

  lemma KeptIffNothingWritten(config: map<string, Value>, order: seq<Path>, own: map<string, Value>,
                              rest: map<string, Value>)
    requires OwnReceivers(config, order, own) && Remains(Others(config), RECEIVERS_KEY, {}, own, rest)
    ensures OwnReceiversKept(config, own, rest, None) <==>
            || (RECEIVERS_KEY in config && config[RECEIVERS_KEY].Map?)
            || (forall k | k in config :: !IsOwnLeaf(k))
  {
    NotBelow();
    assert RECEIVERS_KEY !in rest || rest[RECEIVERS_KEY] == Others(config)[RECEIVERS_KEY] || Others(config)[RECEIVERS_KEY].Map?;
    if k :| k in config && IsOwnLeaf(k) {
      assert k !in rest;
    }
  }

  lemma KeptIffWritten(config: map<string, Value>, order: seq<Path>, own: map<string, Value>, added: set<string>,
                       rest: map<string, Value>, receivers: map<string, Receiver>)
    requires OwnReceivers(config, order, own) && Joined(receivers, own, added)
    ensures OwnReceiversKept(config, own, rest, Some(receivers)) <==> forall n | n in added :: !IsOwnName(config, n)
  {
    forall n
      ensures n in own <==> IsOwnName(config, n)
    {
      OwnNames(config, order, own, n);
    }
  }

  /** What is left of the flat configuration. The receivers written replace all there was under their
      key. */
  ghost predicate IsRest(config: map<string, Value>, own: map<string, Value>, inputs: Option<seq<Input>>,
                         rest: map<string, Value>) {
    if inputs.None? || inputs.value == [] then rest == Others(config)
    else if AnyTranslated(inputs) then
      rest == map k | k in Others(config) && k != RECEIVERS_KEY && !IsOwnLeaf(k) :: config[k]
    else Remains(Others(config), RECEIVERS_KEY, {}, own, rest)
  }

  /** log.inputs itself is always dropped. Each translated entry becomes a receiver with
      metric objects of its own.

      The user's own receivers are pulled out of the flat configuration before it is known
      whether anything will be translated, and are only written back if something was: the
      last postcondition says exactly when they survive. */
  method MigrateLogInputs(config: map<string, Value>, inputs: Option<seq<Input>>, pathHash: Option<string>)
    returns (rest: map<string, Value>, written: Option<map<string, Receiver>>, warnings: seq<Warning>,
             ghost order: seq<Path>, ghost own: map<string, Value>)
    ensures OwnReceivers(config, order, own) && IsRest(config, own, inputs, rest)
    ensures warnings == if inputs.Some? && inputs.value != [] then WarningsOf(inputs.value)
                        else if INPUTS_KEY !in config then []
                        else if inputs.Some? then [EmptyInputs] else [InputsNotAList]
    ensures written.Some? <==> AnyTranslated(inputs)
    ensures written.Some? ==> forall k | 0 <= k < |inputs.value| && inputs.value[k].Translated() ::
                                Migrates(inputs.value, k, written.value, LegacyName(pathHash, k))
    ensures written.Some? ==> NoSharing(MetricsOf(written.value))
    ensures written.Some? ==> Joined(written.value, own, NewNames(inputs.value, pathHash))
    ensures OwnReceiversKept(config, own, rest, written) <==> KeepsOwnReceivers(config, inputs, pathHash)
    ensures INPUTS_KEY !in rest
    ensures forall k | k != INPUTS_KEY && k != RECEIVERS_KEY && !(RECEIVERS_KEY + "." <= k) ::
              (k in rest <==> k in config) && (k in rest ==> rest[k] == config[k])
  {
    if inputs.None? || inputs.value == [] {
      rest, warnings := Others(config), [];
      if INPUTS_KEY in config {
        warnings := if inputs.Some? then [EmptyInputs] else [InputsNotAList];
      }
      order, own := SomeOrder(config);
      KeptIfUntouched(config, own);
      written := None;
    } else {
      rest, written, warnings, order, own := MigrateList(config, inputs.value, pathHash);
    }
    RestKeepsOthers(config, own, inputs, rest);
  }

  lemma RestKeepsOthers(config: map<string, Value>, own: map<string, Value>, inputs: Option<seq<Input>>,
                        rest: map<string, Value>)
    requires IsRest(config, own, inputs, rest)
    ensures INPUTS_KEY !in rest
    ensures forall k | k != INPUTS_KEY && k != RECEIVERS_KEY && !(RECEIVERS_KEY + "." <= k) ::
              (k in rest <==> k in config) && (k in rest ==> rest[k] == config[k])
  {
  }

  /** The same for a list that is not empty. */
  method MigrateList(config: map<string, Value>, inputs: seq<Input>, pathHash: Option<string>)
    returns (rest: map<string, Value>, written: Option<map<string, Receiver>>, warnings: seq<Warning>,
             ghost order: seq<Path>, ghost own: map<string, Value>)
    requires inputs != []
    ensures OwnReceivers(config, order, own) && IsRest(config, own, Some(inputs), rest)
    ensures warnings == WarningsOf(inputs)
    ensures written.Some? <==> AnyTranslated(Some(inputs))
    ensures written.Some? ==> forall k | 0 <= k < |inputs| && inputs[k].Translated() ::
                                Migrates(inputs, k, written.value, LegacyName(pathHash, k))
    ensures written.Some? ==> NoSharing(MetricsOf(written.value))
    ensures written.Some? ==> Joined(written.value, own, NewNames(inputs, pathHash))
    ensures OwnReceiversKept(config, own, rest, written) <==> KeepsOwnReceivers(config, Some(inputs), pathHash)
  {
    var names := Names(pathHash, |inputs|);
    NamesDistinct(pathHash, |inputs|);
    var nested;
    nested, rest, order := TakeNestedMapFromFlatConfig(Others(config), RECEIVERS_KEY);
    own := nested;
    written, warnings := MigrateEntries(inputs, names, nested);
    if written.Some? {
      RestOfWritten(config, own, rest);
      rest := rest - {RECEIVERS_KEY};
      KeptIffWritten(config, order, own, NewNames(inputs, pathHash), rest, written.value);
    } else {
      KeptIffNothingWritten(config, order, own, rest);
    }
  }

  lemma RestOfWritten(config: map<string, Value>, own: map<string, Value>, rest: map<string, Value>)
    requires Remains(Others(config), RECEIVERS_KEY, {}, own, rest)
    ensures rest - {RECEIVERS_KEY} == map k | k in Others(config) && k != RECEIVERS_KEY && !IsOwnLeaf(k) :: config[k]
  {
  }

  lemma SomeOrder(config: map<string, Value>) returns (order: seq<Path>, own: map<string, Value>)
    ensures OwnReceivers(config, order, own)
  {
    var leaves := Below(Others(config), RECEIVERS_KEY);
    order := SomeEnumeration(leaves.Keys);
    own := Replay(order, leaves, Child(Others(config), RECEIVERS_KEY));
  }

  lemma NothingElseLeft(config: map<string, Value>, leaf: string, list: Value, field: Value, own: map<string, Value>,
                        rest: map<string, Value>)
    requires config == map[INPUTS_KEY := list, leaf := field] && IsOwnLeaf(leaf)
    requires IsRest(config, own, Some([NotAnInput]), rest)
    ensures rest == map[]
  {
    assert forall k | k in Others(config) :: k == leaf;
  }

  /** One malformed entry is enough to lose a receiver of the user written in dotted form: of a
      configuration that holds nothing else, nothing is left. */
  method MalformedEntryLosesReceivers(config: map<string, Value>, inputs: Option<seq<Input>>, name: string,
                                      list: Value, field: Value)
    returns (rest: map<string, Value>, written: Option<map<string, Receiver>>, warnings: seq<Warning>,
             ghost order: seq<Path>, ghost own: map<string, Value>)
    requires config == map[INPUTS_KEY := list, RECEIVERS_KEY + "." + name := field] && inputs == Some([NotAnInput])
    ensures OwnReceivers(config, order, own) && IsRest(config, own, inputs, rest)
    ensures rest == map[] && written.None? && !OwnReceiversKept(config, own, rest, written)
  {
    ghost var leaf := RECEIVERS_KEY + "." + name;
    assert IsOwnLeaf(leaf);
    rest, written, warnings, order, own := MigrateLogInputs(config, inputs, None);
    NothingElseLeft(config, leaf, list, field, own, rest);
    assert leaf in config && leaf !in rest;
  }

  lemma FirstNameIsNew(input: Input, pathHash: Option<string>)
    requires input.Translated()
    ensures AnyTranslated(Some([input])) && LegacyName(pathHash, 0) in NewNames([input], pathHash)
  {
    assert [input][0].Translated() && [input][..0] == [];
  }

  lemma FirstNameHasNoDot()
    ensures '.' !in LegacyName(None, 0)
  {
    assert Decimal(0) == ["0123456789"[0]];
  }

  /** A receiver of the user that bears the name given to a translated entry is replaced. */
  method TranslatedEntryReplacesReceiver(config: map<string, Value>, input: Input, name: string, list: Value, field: Value)
    returns (rest: map<string, Value>, written: Option<map<string, Receiver>>, warnings: seq<Warning>,
             ghost order: seq<Path>, ghost own: map<string, Value>)
    requires name == LegacyName(None, 0) && config == map[INPUTS_KEY := list, RECEIVERS_KEY + "." + name := field]
    requires input.Translated()
    ensures OwnReceivers(config, order, own) && name in own
    ensures written.Some? && name in written.value && written.value[name].Legacy?
    ensures !OwnReceiversKept(config, own, rest, written)
  {
    FirstNameIsNew(input, None);
    FirstNameHasNoDot();
    OwnLeafNames(config, name);
    rest, written, warnings, order, own := MigrateLogInputs(config, Some([input]), None);
    OwnNames(config, order, own, name);
    ReplacedIsNotKept(config, own, rest, written.value, NewNames([input], None), name);
  }

  lemma ReplacedIsNotKept(config: map<string, Value>, own: map<string, Value>, rest: map<string, Value>,
                          receivers: map<string, Receiver>, added: set<string>, name: string)
    requires Joined(receivers, own, added) && name in own && name in added
    ensures name in receivers && receivers[name].Legacy?
    ensures !OwnReceiversKept(config, own, rest, Some(receivers))
  {
  }

  lemma OwnLeafNames(config: map<string, Value>, name: string)
    requires RECEIVERS_KEY + "." + name in config && '.' !in name
    ensures IsOwnName(config, name)
  {
    NotBelow();
    var key := RECEIVERS_KEY + "." + name;
    assert key[|RECEIVERS_KEY| + 1..] == name;
    SplitPart(name, "", '.');
    assert [name] in Below(Others(config), RECEIVERS_KEY);
  }

  lemma NotBelow()
    ensures !IsOwnLeaf(INPUTS_KEY) && INPUTS_KEY != RECEIVERS_KEY && !IsOwnLeaf(RECEIVERS_KEY)
  {
  }
}
