/** Keeping the registered metric inputs and checks in line with the published services. */
module Registrations {
  import opened Common
  import opened DiscoveredServices

  // ---------------------------------------------------------------------------
  // When a service has to be configured anew
  // ---------------------------------------------------------------------------

  function Pid(s: Service): int {
    if s.container.Some? then s.container.value.pid else 0
  }

  /** The two services differ in something that inputs or checks depend on. */
  predicate Differ(last: Service, cur: Service, lastState: ContainerState, curState: ContainerState) {
    || last.OwnKey() != cur.OwnKey()
    || last.serviceType != cur.serviceType
    || last.containerID != cur.containerID
    || last.containerName != cur.containerName
    || last.ipAddress != cur.ipAddress
    || last.exePath != cur.exePath
    || last.active != cur.active
    || last.checkIgnored != cur.checkIgnored
    || last.metricsIgnored != cur.metricsIgnored
    || lastState != curState
    || Pid(last) != Pid(cur)
    || last.config != cur.config
    || last.listen != cur.listen
  }

  method ServiceNeedUpdate(last: Service, cur: Service, lastState: ContainerState, curState: ContainerState)
    returns (need: bool)
    ensures need <==> Differ(last, cur, lastState, curState)
  {
    if last.name != cur.name || last.instance != cur.instance || last.serviceType != cur.serviceType
       || last.containerID != cur.containerID || last.containerName != cur.containerName
       || last.ipAddress != cur.ipAddress || last.exePath != cur.exePath || last.active != cur.active
       || last.checkIgnored != cur.checkIgnored || last.metricsIgnored != cur.metricsIgnored
       || lastState != curState || Pid(last) != Pid(cur) {
      return true;
    }
    if last.config != cur.config || |last.listen| != |cur.listen| {
      return true;
    }
    for i := 0 to |last.listen|
      invariant last.listen[..i] == cur.listen[..i]
    {
      if last.listen[i] != cur.listen[i] {
        return true;
      }
    }
    assert last.listen == last.listen[..|last.listen|] && cur.listen == cur.listen[..|cur.listen|];
    return false;
  }

  /** Inputs take a service without a container for a running one. */
  function InputState(s: Service): ContainerState {
    if s.container.Some? then s.container.value.state else Running
  }

  predicate InputChanged(last: Services, services: Services, k: Key)
    requires k in services
  {
    k !in last || Differ(last[k], services[k], InputState(last[k]), InputState(services[k]))
  }

  /** Checks compare container states only when both services have one. */
  predicate CheckChanged(last: Services, services: Services, k: Key)
    requires k in services
  {
    k !in last ||
    var both := last[k].container.Some? && services[k].container.Some?;
    Differ(last[k], services[k], if both then last[k].container.value.state else Unknown,
           if both then services[k].container.value.state else Unknown)
  }

  // ---------------------------------------------------------------------------
  // The registrations of one kind
  // ---------------------------------------------------------------------------

  /** live: by key, the numbers of the current registrations; home: under which key each
      registration ever made was recorded; gone: how often each was unregistered. */
  datatype Table = Table(live: map<Key, nat>, home: seq<Key>, gone: multiset<nat>) {

    function Drop(k: Key): Table {
      if k in live then Table(live - {k}, home, gone + multiset{live[k]}) else this
    }

    /** A new registration takes the place of whatever is recorded under its key. */
    function Put(k: Key): Table {
      Table(live[k := |home|], home + [k], gone)
    }

    predicate IsLive(id: nat) {
      id < |home| && home[id] in live && live[home[id]] == id
    }
  }

  const EMPTY := Table(map[], [], multiset{})

  /** Every registration ever made is live under one key, or was unregistered exactly once. */
  ghost predicate Accounted(t: Table) {
    && (forall k | k in t.live :: t.live[k] < |t.home| && t.home[t.live[k]] == k)
    && (forall id: nat :: t.gone[id] == if id < |t.home| && !t.IsLive(id) then 1 else 0)
  }

  lemma DropAccounts(t: Table, k: Key)
    requires Accounted(t)
    ensures Accounted(t.Drop(k))
  {
    var t' := t.Drop(k);
    if k in t.live {
      forall id: nat
        ensures t'.IsLive(id) <==> t.IsLive(id) && id != t.live[k]
      {
      }
    }
  }

  /** Putting loses the registration it replaces, unless the key was free. */
  lemma PutAccountsIff(t: Table, k: Key)
    requires Accounted(t)
    ensures Accounted(t.Put(k)) <==> k !in t.live
  {
    var t' := t.Put(k);
    if k in t.live {
      var lost := t.live[k];
      assert t'.gone[lost] == 0 && lost < |t'.home| && !t'.IsLive(lost);
    } else {
      forall id: nat
        ensures t'.IsLive(id) <==> t.IsLive(id) || id == |t.home|
      {
      }
    }
  }

  /** A registration that is neither live nor was ever unregistered. */
  predicate Lost(t: Table, id: nat) {
    id < |t.home| && t.gone[id] == 0 && forall k | k in t.live :: t.live[k] != id
  }

  class Slots {
    var live: map<Key, nat>
    var made: nat
    ghost var home: seq<Key>
    ghost var gone: multiset<nat>

    ghost predicate Valid()
      reads this
    {
      made == |home|
    }

    ghost function State(): Table
      reads this
    {
      Table(live, home, gone)
    }

    constructor ()
      ensures Valid() && State() == EMPTY
    {
      live, made, home, gone := map[], 0, [], multiset{};
    }

    /** removeInput and removeCheck. */
    method Remove(k: Key)
      requires Valid()
      modifies this
      ensures Valid() && State() == old(State()).Drop(k)
    {
      if k in live {
        gone := gone + multiset{live[k]};
        live := live - {k};
      }
    }

    /** A successful registration is stored under the service's own name. */
    method Register(s: Service)
      requires Valid()
      modifies this
      ensures Valid() && State() == old(State()).Put(s.OwnKey())
    {
      live := live[s.OwnKey() := made];
      made := made + 1;
      home := home + [s.OwnKey()];
    }
  }

  // ---------------------------------------------------------------------------
  // The two loops, over maps enumerated in any order
  // ---------------------------------------------------------------------------

  ghost predicate Lists(order: seq<Key>, keys: set<Key>) {
    && (forall k :: k in order <==> k in keys)
    && (forall i, j | 0 <= i < j < |order| :: order[i] != order[j])
  }

  lemma ListsSnoc(order: seq<Key>, keys: set<Key>, k: Key)
    requires Lists(order, keys) && k !in keys
    ensures Lists(order + [k], keys + {k})
    ensures (order + [k])[..|order|] == order
  {
    var order' := order + [k];
    forall x
      ensures x in order' <==> x in keys + {k}
    {
      assert order'[|order|] == k;
    }
  }

  lemma ListOf(keys: set<Key>) returns (order: seq<Key>)
    ensures Lists(order, keys)
  {
    order := [];
    if keys != {} {
      var k :| k in keys;
      order := ListOf(keys - {k});
      ListsSnoc(order, keys - {k}, k);
      assert keys - {k} + {k} == keys;
      order := order + [k];
    }
  }

  ghost function DropGone(t: Table, order: seq<Key>, services: Services): Table {
    if order == [] then t
    else
      var before := DropGone(t, order[..|order| - 1], services);
      var k := order[|order| - 1];
      if k in services then before else before.Drop(k)
  }

  /** What one service does; made: whether its input or check could be registered. */
  ghost function SetUpOne(t: Table, k: Key, own: Key, changed: bool, made: bool): Table {
    if !changed then t else if made then t.Drop(k).Put(own) else t.Drop(k)
  }

  ghost function SetUp(t: Table, order: seq<Key>, services: Services, changed: set<Key>, made: set<Key>): Table {
    if order == [] then t
    else
      var before := SetUp(t, order[..|order| - 1], services, changed, made);
      var k := order[|order| - 1];
      if k !in services then before
      else SetUpOne(before, k, services[k].OwnKey(), k in changed, k in made)
  }

  /** The keys of a map in the order in which a loop meets them, which may be any. */
  method Range(keys: set<Key>) returns (order: seq<Key>)
    ensures Lists(order, keys)
  {
    order := [];
    var todo := keys;
    while todo != {}
      invariant todo <= keys && Lists(order, keys - todo)
    {
      var k :| k in todo;
      ListsSnoc(order, keys - todo, k);
      assert keys - todo + {k} == keys - (todo - {k});
      order := order + [k];
      todo := todo - {k};
    }
    assert keys - todo == keys;
  }

  method DropGoneServices(slots: Slots, last: Services, services: Services) returns (order: seq<Key>)
    requires slots.Valid()
    modifies slots
    ensures slots.Valid() && Lists(order, last.Keys)
    ensures slots.State() == DropGone(old(slots.State()), order, services)
  {
    order := Range(last.Keys);
    for i := 0 to |order|
      invariant slots.Valid() && slots.State() == DropGone(old(slots.State()), order[..i], services)
    {
      TakeSnoc(order, i);
      if order[i] !in services {
        slots.Remove(order[i]);
      }
    }
    assert order[..|order|] == order;
  }

  datatype InputOutcome = ContainerStopped | Inactive | Ignored | CheckOnly | NoInput | Registered

  /** What createInput can do for a service; whether an input could be built and registered is
      up to its environment. */
  function CreateInput(s: Service, possible: bool): InputOutcome {
    if InputState(s) == Stopped then ContainerStopped
    else if !s.active then Inactive
    else if s.metricsIgnored then Ignored
    else if s.serviceType == CUSTOM_SERVICE then CheckOnly
    else if possible then Registered else NoInput
  }

  /** How the loops of one kind of registration ran: the order in which the gone and the present
      services were met, and for which services the environment allowed a registration. */
  datatype Pass = Pass(goneOrder: seq<Key>, order: seq<Key>, possible: set<Key>) {

    ghost predicate Of(last: Services, services: Services) {
      Lists(goneOrder, last.Keys) && Lists(order, services.Keys)
    }

    ghost function Inputs(t: Table, last: Services, services: Services): Table {
      SetUp(DropGone(t, goneOrder, services), order, services, ChangedInputs(last, services), MadeInputs(services, possible))
    }

    ghost function Checks(t: Table, last: Services, services: Services): Table {
      SetUp(DropGone(t, goneOrder, services), order, services, ChangedChecks(last, services), MadeChecks(services, possible))
    }
  }

  ghost function ChangedInputs(last: Services, services: Services): set<Key> {
    set k | k in services && InputChanged(last, services, k)
  }

  ghost function MadeInputs(services: Services, possible: set<Key>): set<Key> {
    set k | k in services && CreateInput(services[k], k in possible) == Registered
  }

  ghost function ChangedChecks(last: Services, services: Services): set<Key> {
    set k | k in services && CheckChanged(last, services, k)
  }

  /** A check is made unless the service is inactive or its check ignored; a few types have
      none and registering may fail, which is up to the environment. */
  predicate CreatesCheck(s: Service, possible: bool) {
    s.active && !s.checkIgnored && possible
  }

  ghost function MadeChecks(services: Services, possible: set<Key>): set<Key> {
    set k | k in services && CreatesCheck(services[k], k in possible)
  }

  /** The recorded outcomes: those of services that are gone are forgotten, then each service met
      records its own if it changed. */
  ghost function Report(results: map<Key, InputOutcome>, order: seq<Key>, last: Services, services: Services,
                        changed: set<Key>, possible: set<Key>): map<Key, InputOutcome> {
    if order == [] then results - (last.Keys - services.Keys)
    else
      var before := Report(results, order[..|order| - 1], last, services, changed, possible);
      var k := order[|order| - 1];
      if k in services && k in changed then before[k := CreateInput(services[k], k in possible)] else before
  }

  /** One outcome per published service: its own if it changed, else the earlier one. */
  lemma {:induction false} ReportAt(results: map<Key, InputOutcome>, order: seq<Key>, last: Services, services: Services,
                                    changed: set<Key>, possible: set<Key>, k: Key)
    requires results.Keys == last.Keys && forall x | x in order :: x in services && (x in last || x in changed)
    ensures var results' := Report(results, order, last, services, changed, possible);
            && (k in results' <==> k in services && (k in last || k in order))
            && (k in results' && k in order && k in changed ==> results'[k] == CreateInput(services[k], k in possible))
            && (k in results' && !(k in order && k in changed) ==> k in results && results'[k] == results[k])
  {
    if order != [] {
      var front, x := order[..|order| - 1], order[|order| - 1];
      assert order == front + [x];
      ReportAt(results, front, last, services, changed, possible, k);
    }
  }

  /** One service of the second loop. */
  method ConfigureInput(slots: Slots, last: Services, services: Services, k: Key, possible: set<Key>)
    returns (outcome: Option<InputOutcome>)
    requires k in services && slots.Valid()
    modifies slots
    ensures slots.Valid()
    ensures outcome == if k in ChangedInputs(last, services) then Some(CreateInput(services[k], k in possible)) else None
    ensures slots.State() == SetUpOne(old(slots.State()), k, services[k].OwnKey(), k in ChangedInputs(last, services),
                                      k in MadeInputs(services, possible))
    ensures outcome.None? <==> && k in last && Agree(last[k], services[k])
                               && ContainerOr(last[k], Container(Running, 0)) == ContainerOr(services[k], Container(Running, 0))
    ensures outcome.Some? && services[k].OwnKey() == k ==>
              (k in slots.live <==> WantsInput(services[k]) && k in possible)
  {
    var need := k !in last;
    if !need {
      DifferIff(last[k], services[k], InputState(last[k]), InputState(services[k]));
      need := ServiceNeedUpdate(last[k], services[k], InputState(last[k]), InputState(services[k]));
    }
    if !need {
      return None;
    }
    slots.Remove(k);
    if CreateInput(services[k], k in possible) == Registered {
      slots.Register(services[k]);
    }
    return Some(CreateInput(services[k], k in possible));
  }

  lemma SetUpNext(t: Table, order: seq<Key>, i: nat, services: Services, changed: set<Key>, made: set<Key>)
    requires i < |order| && order[i] in services
    ensures SetUp(t, order[..i + 1], services, changed, made) ==
            SetUpOne(SetUp(t, order[..i], services, changed, made), order[i], services[order[i]].OwnKey(),
                     order[i] in changed, order[i] in made)
  {
    TakeSnoc(order, i);
  }

  lemma ReportNext(results: map<Key, InputOutcome>, order: seq<Key>, i: nat, last: Services, services: Services,
                   changed: set<Key>, possible: set<Key>)
    requires i < |order| && order[i] in services
    ensures var before, k := Report(results, order[..i], last, services, changed, possible), order[i];
            Report(results, order[..i + 1], last, services, changed, possible) ==
            if k in changed then before[k := CreateInput(services[k], k in possible)] else before
  {
    TakeSnoc(order, i);
  }

  /** The second loop; results holds, per configured service, what could be done for it. */
  method ConfigureEach(slots: Slots, results: map<Key, InputOutcome>, last: Services, services: Services,
                       possible: set<Key>, order: seq<Key>, ghost changed: set<Key>, ghost made: set<Key>)
    returns (results': map<Key, InputOutcome>)
    requires slots.Valid() && Lists(order, services.Keys)
    requires changed == ChangedInputs(last, services) && made == MadeInputs(services, possible)
    modifies slots
    ensures slots.Valid() && slots.State() == SetUp(old(slots.State()), order, services, changed, made)
    ensures results' == Report(results, order, last, services, changed, possible)
  {
    results' := results - (last.Keys - services.Keys);
    for i := 0 to |order|
      invariant slots.Valid() && slots.State() == SetUp(old(slots.State()), order[..i], services, changed, made)
      invariant results' == Report(results, order[..i], last, services, changed, possible)
    {
      var k := order[i];
      assert k in order;
      SetUpNext(old(slots.State()), order, i, services, changed, made);
      ReportNext(results, order, i, last, services, changed, possible);
      var outcome := ConfigureInput(slots, last, services, k, possible);
      if outcome.Some? {
        results' := results'[k := outcome.value];
      }
    }
    assert order[..|order|] == order;
  }

  method ConfigureMetricInputs(slots: Slots, results: map<Key, InputOutcome>, last: Services, services: Services,
                               possible: set<Key>)
    returns (results': map<Key, InputOutcome>, ghost pass: Pass)
    requires slots.Valid()
    modifies slots
    ensures slots.Valid() && pass.Of(last, services) && pass.possible == possible
    ensures slots.State() == pass.Inputs(old(slots.State()), last, services)
    ensures results' == Report(results, pass.order, last, services, ChangedInputs(last, services), possible)
    ensures KeysMatch(services) && Accounted(old(slots.State())) && old(slots.live).Keys <= last.Keys ==>
              forall k :: k in slots.live <==> InputDue(old(slots.State()), last, services, possible, k)
  {
    ghost var start := slots.State();
    ghost var goneOrder := DropGoneServices(slots, last, services);
    var order := Range(services.Keys);
    results' := ConfigureEach(slots, results, last, services, possible, order, ChangedInputs(last, services),
                              MadeInputs(services, possible));
    pass := Pass(goneOrder, order, possible);
    if KeysMatch(services) && Accounted(start) && start.live.Keys <= last.Keys {
      forall k {
        InputsAfterPass(start, last, services, pass, k);
      }
    }
  }

  /** Who has an input after a pass: a service that is as it was if it had one, and any other that wants
      one if it could be registered. */
  ghost predicate InputDue(t: Table, last: Services, services: Services, possible: set<Key>, k: Key) {
    && k in services
    && if && k in last && Agree(last[k], services[k])
          && ContainerOr(last[k], Container(Running, 0)) == ContainerOr(services[k], Container(Running, 0))
       then k in t.live else WantsInput(services[k]) && k in possible
  }

  lemma InputsAfterPass(t: Table, last: Services, services: Services, pass: Pass, k: Key)
    requires KeysMatch(services) && Accounted(t) && t.live.Keys <= last.Keys && pass.Of(last, services)
    ensures k in pass.Inputs(t, last, services).live <==> InputDue(t, last, services, pass.possible, k)
  {
    PassAt(t, last, services, pass.goneOrder, pass.order, ChangedInputs(last, services), MadeInputs(services, pass.possible), k);
    if k in last && k in services {
      DifferIff(last[k], services[k], InputState(last[k]), InputState(services[k]));
    }
  }

  method ConfigureCheck(slots: Slots, last: Services, services: Services, k: Key, possible: bool)
    requires k in services && slots.Valid()
    modifies slots
    ensures slots.Valid()
    ensures slots.State() == SetUpOne(old(slots.State()), k, services[k].OwnKey(), CheckChanged(last, services, k),
                                      CreatesCheck(services[k], possible))
  {
    var need := k !in last;
    if !need {
      var lastState, curState := Unknown, Unknown;
      if last[k].container.Some? && services[k].container.Some? {
        lastState, curState := last[k].container.value.state, services[k].container.value.state;
      }
      need := ServiceNeedUpdate(last[k], services[k], lastState, curState);
    }
    if need {
      slots.Remove(k);
      if CreatesCheck(services[k], possible) {
        slots.Register(services[k]);
      }
    }
  }

  method ConfigureChecks(slots: Slots, last: Services, services: Services, possible: set<Key>) returns (ghost pass: Pass)
    requires slots.Valid()
    modifies slots
    ensures slots.Valid() && pass.Of(last, services) && pass.possible == possible
    ensures slots.State() == pass.Checks(old(slots.State()), last, services)
  {
    ghost var goneOrder := DropGoneServices(slots, last, services);
    ghost var start, changed, made := slots.State(), ChangedChecks(last, services), MadeChecks(services, possible);
    var order := Range(services.Keys);
    for i := 0 to |order|
      invariant slots.Valid() && slots.State() == SetUp(start, order[..i], services, changed, made)
    {
      var k := order[i];
      assert k in order;
      SetUpNext(start, order, i, services, changed, made);
      ConfigureCheck(slots, last, services, k, k in possible);
    }
    assert order[..|order|] == order;
    pass := Pass(goneOrder, order, possible);
  }

  // ---------------------------------------------------------------------------
  // What one pass does, for services kept under their own names
  // ---------------------------------------------------------------------------

  lemma {:induction false} DropGoneAt(t: Table, order: seq<Key>, services: Services, k: Key)
    ensures var t' := DropGone(t, order, services);
            && t'.home == t.home
            && (k in t'.live <==> k in t.live && (k in services || k !in order))
            && (k in t'.live ==> t'.live[k] == t.live[k])
            && (Accounted(t) ==> Accounted(t'))
  {
    if order != [] {
      var front, x := order[..|order| - 1], order[|order| - 1];
      assert order == front + [x];
      DropGoneAt(t, front, services, k);
      if Accounted(t) {
        DropAccounts(DropGone(t, front, services), x);
      }
    }
  }

  lemma {:induction false} SetUpAt(t: Table, order: seq<Key>, services: Services, changed: set<Key>, made: set<Key>, k: Key)
    requires KeysMatch(services)
    requires forall x | x in order :: x in services
    requires forall i, j | 0 <= i < j < |order| :: order[i] != order[j]
    ensures var t' := SetUp(t, order, services, changed, made);
            && t.home <= t'.home
            && (k in t'.live <==> if k in order && k in changed then k in made else k in t.live)
            && (k in t'.live && !(k in order && k in changed) ==> t'.live[k] == t.live[k])
            && (k in t'.live && k in order && k in changed ==> |t.home| <= t'.live[k])
  {
    if order != [] {
      var front, x := order[..|order| - 1], order[|order| - 1];
      assert order == front + [x];
      SetUpAt(t, front, services, changed, made, k);
    }
  }

  lemma {:induction false} SetUpAccounts(t: Table, order: seq<Key>, services: Services, changed: set<Key>, made: set<Key>)
    requires Accounted(t) && KeysMatch(services)
    requires forall x | x in order :: x in services
    ensures Accounted(SetUp(t, order, services, changed, made))
  {
    if order != [] {
      var front, x := order[..|order| - 1], order[|order| - 1];
      assert order == front + [x];
      SetUpAccounts(t, front, services, changed, made);
      var before := SetUp(t, front, services, changed, made);
      DropAccounts(before, x);
      PutAccountsIff(before.Drop(x), x);
    }
  }

  /** Both loops: registrations of services that are gone or changed are unregistered, those of
      unchanged ones kept, and changed services that could be set up have a new one. */
  lemma PassAt(t: Table, last: Services, services: Services, goneOrder: seq<Key>, order: seq<Key>,
               changed: set<Key>, made: set<Key>, k: Key)
    requires Accounted(t) && t.live.Keys <= last.Keys && KeysMatch(services)
    requires Lists(goneOrder, last.Keys) && Lists(order, services.Keys)
    ensures var t' := SetUp(DropGone(t, goneOrder, services), order, services, changed, made);
            && Accounted(t')
            && (k in t'.live <==> k in services && if k in changed then k in made else k in t.live)
            && (k in t'.live && k !in changed ==> t'.live[k] == t.live[k])
            && (k in t'.live && k in changed ==> |t.home| <= t'.live[k])
  {
    DropGoneAt(t, goneOrder, services, k);
    SetUpAt(DropGone(t, goneOrder, services), order, services, changed, made, k);
    SetUpAccounts(DropGone(t, goneOrder, services), order, services, changed, made);
  }

  // ---------------------------------------------------------------------------
  // Whole runs
  // ---------------------------------------------------------------------------

  /** last: the services as of the last reconfiguration. */
  datatype State = State(inputs: Table, checks: Table, results: map<Key, InputOutcome>, last: Services, services: Services)

  /** Publish: an update stores new services; Remove: services that stopped running are deleted on
      request; Reconfigure: inputs and checks follow the services. */
  datatype Event = Publish(services: Services) | Remove(keys: set<Key>) | Reconfigure(inputs: Pass, checks: Pass)

  const START := State(EMPTY, EMPTY, map[], map[], map[])

  ghost function Step(s: State, e: Event): State {
    match e
    case Publish(services) => s.(services := services)
    case Remove(keys) => s.(services := s.services - keys)
    case Reconfigure(inputs, checks) =>
      State(inputs.Inputs(s.inputs, s.last, s.services), checks.Checks(s.checks, s.last, s.services),
            Report(s.results, inputs.order, s.last, s.services, ChangedInputs(s.last, s.services), inputs.possible),
            s.services, s.services)
  }

  /** Services are published under their own names, and passes go over the maps they find. */
  ghost predicate Enabled(s: State, e: Event) {
    match e
    case Publish(services) => KeysMatch(services)
    case Remove(_) => true
    case Reconfigure(inputs, checks) => inputs.Of(s.last, s.services) && checks.Of(s.last, s.services)
  }

  ghost function Run(events: seq<Event>): State {
    if events == [] then START else Step(Run(events[..|events| - 1]), events[|events| - 1])
  }

  ghost predicate Possible(events: seq<Event>) {
    events == [] ||
    (Possible(events[..|events| - 1]) && Enabled(Run(events[..|events| - 1]), events[|events| - 1]))
  }

  /** The fields of the discovery that a reconfiguration works on. */
  class Configurer {
    var services: Services
    var last: Services
    var results: map<Key, InputOutcome>
    const inputs: Slots
    const checks: Slots

    ghost predicate Valid()
      reads this, inputs, checks
    {
      inputs != checks && inputs.Valid() && checks.Valid()
    }

    ghost function Current(): State
      reads this, inputs, checks
    {
      State(inputs.State(), checks.State(), results, last, services)
    }

    constructor ()
      ensures Valid() && Current() == START && fresh(inputs) && fresh(checks)
    {
      services, last, results := map[], map[], map[];
      inputs := new Slots();
      checks := new Slots();
    }

    /** The ghost event records the orders in which the maps were met. */
    method Reconfigure(possibleInputs: set<Key>, possibleChecks: set<Key>) returns (ghost e: Event)
      requires Valid()
      modifies this, inputs, checks
      ensures Valid() && e.Reconfigure? && Enabled(old(Current()), e)
      ensures e.inputs.possible == possibleInputs && e.checks.possible == possibleChecks
      ensures Current() == Step(old(Current()), e)
    {
      ghost var inputPass, checkPass;
      results, inputPass := ConfigureMetricInputs(inputs, results, last, services, possibleInputs);
      checkPass := ConfigureChecks(checks, last, services, possibleChecks);
      last := services;
      e := Event.Reconfigure(inputPass, checkPass);
    }
  }

  /** What the service itself says against having an input. */
  predicate WantsInput(s: Service) {
    InputState(s) != Stopped && s.active && !s.metricsIgnored && s.serviceType != CUSTOM_SERVICE
  }

  predicate WantsCheck(s: Service) {
    s.active && !s.checkIgnored
  }

  ghost predicate InputFits(s: State, k: Key) {
    && (k in s.results <==> k in s.last)
    && (k in s.inputs.live <==> k in s.results && s.results[k] == Registered)
    && (k in s.inputs.live ==> WantsInput(s.last[k]))
  }

  ghost predicate CheckFits(s: State, k: Key) {
    k in s.checks.live ==> k in s.last && WantsCheck(s.last[k])
  }

  ghost predicate Inv(s: State) {
    && KeysMatch(s.services) && Accounted(s.inputs) && Accounted(s.checks)
    && (forall k :: InputFits(s, k))
    && (forall k :: CheckFits(s, k))
  }

  lemma ReconfigureInputs(s: State, pass: Pass, k: Key)
    requires Inv(s) && pass.Of(s.last, s.services)
    ensures Accounted(pass.Inputs(s.inputs, s.last, s.services))
    ensures InputFits(State(pass.Inputs(s.inputs, s.last, s.services), EMPTY,
                            Report(s.results, pass.order, s.last, s.services, ChangedInputs(s.last, s.services), pass.possible),
                            s.services, s.services), k)
  {
    assert s.results.Keys == s.last.Keys by {
      assert forall x :: InputFits(s, x) ==> (x in s.results <==> x in s.last);
    }
    assert s.inputs.live.Keys <= s.last.Keys by {
      assert forall x :: InputFits(s, x) && x in s.inputs.live ==> x in s.last;
    }
    assert InputFits(s, k);
    PassAt(s.inputs, s.last, s.services, pass.goneOrder, pass.order, ChangedInputs(s.last, s.services),
           MadeInputs(s.services, pass.possible), k);
    ReportAt(s.results, pass.order, s.last, s.services, ChangedInputs(s.last, s.services), pass.possible, k);
  }

  lemma ReconfigureChecks(s: State, pass: Pass, k: Key)
    requires Inv(s) && pass.Of(s.last, s.services)
    ensures Accounted(pass.Checks(s.checks, s.last, s.services))
    ensures CheckFits(State(EMPTY, pass.Checks(s.checks, s.last, s.services), map[], s.services, s.services), k)
  {
    assert s.checks.live.Keys <= s.last.Keys by {
      assert forall x :: CheckFits(s, x) && x in s.checks.live ==> x in s.last;
    }
    assert CheckFits(s, k);
    PassAt(s.checks, s.last, s.services, pass.goneOrder, pass.order, ChangedChecks(s.last, s.services),
           MadeChecks(s.services, pass.possible), k);
  }

  lemma StepKeepsInv(s: State, e: Event)
    requires Inv(s) && Enabled(s, e)
    ensures Inv(Step(s, e))
  {
    var s' := Step(s, e);
    forall k
      ensures InputFits(s', k) && CheckFits(s', k)
    {
      assert InputFits(s, k) && CheckFits(s, k);
      if e.Reconfigure? {
        ReconfigureInputs(s, e.inputs, k);
        ReconfigureChecks(s, e.checks, k);
      }
    }
    if e.Reconfigure? {
      ReconfigureInputs(s, e.inputs, Key("", ""));
      ReconfigureChecks(s, e.checks, Key("", ""));
    }
  }

  /** After any run every registration ever made is live once or was unregistered exactly once,
      inputs and checks are live only for services of the last reconfiguration that want one, and
      a recorded outcome says Registered exactly when an input is live. */
  lemma {:induction false} RegistrationsFollowServices(events: seq<Event>)
    requires Possible(events)
    ensures Inv(Run(events))
  {
    if events != [] {
      RegistrationsFollowServices(events[..|events| - 1]);
      StepKeepsInv(Run(events[..|events| - 1]), events[|events| - 1]);
    }
  }

  /** Right after a reconfiguration nothing is live for a service that is not published, whatever
      was removed since the one before. */
  lemma NothingLeftBehind(events: seq<Event>, k: Key)
    requires Possible(events) && events != [] && events[|events| - 1].Reconfigure?
    requires k !in Run(events).services
    ensures k !in Run(events).inputs.live && k !in Run(events).checks.live && k !in Run(events).results
  {
    RegistrationsFollowServices(events);
    var s := Run(events);
    assert InputFits(s, k) && CheckFits(s, k) && s.last == s.services;
  }

  /** The two services agree in everything but their netstat information and their container. */
  predicate Agree(a: Service, b: Service) {
    b == a.(hasNetstatInfo := b.hasNetstatInfo, lastNetstatInfo := b.lastNetstatInfo, container := b.container)
  }

  function ContainerOr(s: Service, none: Container): Container {
    if s.container.Some? then s.container.value else none
  }

  lemma DifferIff(a: Service, b: Service, aState: ContainerState, bState: ContainerState)
    ensures !Differ(a, b, aState, bState) <==>
            Agree(a, b) && aState == bState && ContainerOr(a, Container(Running, 0)).pid == ContainerOr(b, Container(Running, 0)).pid
  {
  }

  lemma PassOfRun(events: seq<Event>, k: Key)
    requires Possible(events) && events != [] && events[|events| - 1].Reconfigure?
    requires k in Run(events[..|events| - 1]).services
    ensures var s, s', e := Run(events[..|events| - 1]), Run(events), events[|events| - 1];
            var newInputs, newChecks := ChangedInputs(s.last, s.services), ChangedChecks(s.last, s.services);
            && (k in s'.inputs.live <==> if k in newInputs then k in MadeInputs(s.services, e.inputs.possible) else k in s.inputs.live)
            && (k in s'.inputs.live && k !in newInputs ==> s'.inputs.live[k] == s.inputs.live[k])
            && (k in s'.inputs.live && k in newInputs ==> |s.inputs.home| <= s'.inputs.live[k])
            && (k in s'.checks.live <==> if k in newChecks then k in MadeChecks(s.services, e.checks.possible) else k in s.checks.live)
            && (k in s'.checks.live && k !in newChecks ==> s'.checks.live[k] == s.checks.live[k])
            && (k in s'.checks.live && k in newChecks ==> |s.checks.home| <= s'.checks.live[k])
  {
    var s, e := Run(events[..|events| - 1]), events[|events| - 1];
    RegistrationsFollowServices(events[..|events| - 1]);
    LiveAreKnown(s);
    PassAt(s.inputs, s.last, s.services, e.inputs.goneOrder, e.inputs.order, ChangedInputs(s.last, s.services),
           MadeInputs(s.services, e.inputs.possible), k);
    PassAt(s.checks, s.last, s.services, e.checks.goneOrder, e.checks.order, ChangedChecks(s.last, s.services),
           MadeChecks(s.services, e.checks.possible), k);
  }

  lemma LiveAreKnown(s: State)
    requires Inv(s)
    ensures s.inputs.live.Keys <= s.last.Keys && s.checks.live.Keys <= s.last.Keys
  {
    forall x
      ensures x in s.inputs.live ==> x in s.last
      ensures x in s.checks.live ==> x in s.last
    {
      assert InputFits(s, x) && CheckFits(s, x);
    }
  }

  /** After any run, a reconfiguration keeps the input of a service that is as it was. One that is new,
      or changed in whatever inputs depend on, gets a new registration exactly when its container is not
      stopped, it is active, its metrics are not ignored, it is not a custom check, and an input for it
      could be registered. */
  lemma WhoGetsAnInput(events: seq<Event>, k: Key)
    requires Possible(events) && events != [] && events[|events| - 1].Reconfigure?
    requires k in Run(events[..|events| - 1]).services
    ensures var s, s' := Run(events[..|events| - 1]), Run(events);
            var cur, none := s.services[k], Container(Running, 0);
            if k in s.last && Agree(s.last[k], cur) && ContainerOr(s.last[k], none) == ContainerOr(cur, none) then
              && (k in s'.inputs.live <==> k in s.inputs.live)
              && (k in s'.inputs.live ==> s'.inputs.live[k] == s.inputs.live[k])
            else
              && (k in s'.inputs.live <==>
                  && !(cur.container.Some? && cur.container.value.state == Stopped)
                  && cur.active && !cur.metricsIgnored && cur.serviceType != "__custom__"
                  && k in events[|events| - 1].inputs.possible)
              && (k in s'.inputs.live ==> |s.inputs.home| <= s'.inputs.live[k])
  {
    var s := Run(events[..|events| - 1]);
    PassOfRun(events, k);
    if k in s.last {
      DifferIff(s.last[k], s.services[k], InputState(s.last[k]), InputState(s.services[k]));
    }
  }

  /** The same for checks, which an active service gets unless its check is ignored. Container states
      count only when there was and is a container. */
  lemma WhoGetsACheck(events: seq<Event>, k: Key)
    requires Possible(events) && events != [] && events[|events| - 1].Reconfigure?
    requires k in Run(events[..|events| - 1]).services
    ensures var s, s' := Run(events[..|events| - 1]), Run(events);
            var cur, none := s.services[k], Container(Running, 0);
            if && k in s.last && Agree(s.last[k], cur)
               && ContainerOr(s.last[k], none).pid == ContainerOr(cur, none).pid
               && (s.last[k].container.Some? && cur.container.Some?
                   ==> s.last[k].container.value.state == cur.container.value.state)
            then
              && (k in s'.checks.live <==> k in s.checks.live)
              && (k in s'.checks.live ==> s'.checks.live[k] == s.checks.live[k])
            else
              && (k in s'.checks.live <==>
                  cur.active && !cur.checkIgnored && k in events[|events| - 1].checks.possible)
              && (k in s'.checks.live ==> |s.checks.home| <= s'.checks.live[k])
  {
    var s := Run(events[..|events| - 1]);
    PassOfRun(events, k);
    if k in s.last {
      var both := s.last[k].container.Some? && s.services[k].container.Some?;
      DifferIff(s.last[k], s.services[k], if both then s.last[k].container.value.state else Unknown,
                if both then s.services[k].container.value.state else Unknown);
    }
  }

  lemma ResultsAreKnown(s: State)
    requires Inv(s)
    ensures s.results.Keys == s.last.Keys
  {
    forall x
      ensures x in s.results <==> x in s.last
    {
      assert InputFits(s, x);
    }
  }

  lemma ResultOfRun(events: seq<Event>, k: Key)
    requires Possible(events) && events != [] && events[|events| - 1].Reconfigure?
    requires k in Run(events[..|events| - 1]).services
    ensures var s, s' := Run(events[..|events| - 1]), Run(events);
            && k in s'.results
            && if InputChanged(s.last, s.services, k)
               then s'.results[k] == CreateInput(s.services[k], k in events[|events| - 1].inputs.possible)
               else k in s.results && s'.results[k] == s.results[k]
  {
    var s, e := Run(events[..|events| - 1]), events[|events| - 1];
    RegistrationsFollowServices(events[..|events| - 1]);
    ResultsAreKnown(s);
    ReportAt(s.results, e.inputs.order, s.last, s.services, ChangedInputs(s.last, s.services), e.inputs.possible, k);
  }

  /** The recorded outcome of a service says what stood in the way of an input, the first obstacle
      first; that of a service that is as it was is kept. */
  lemma OutcomeSaysWhy(events: seq<Event>, k: Key)
    requires Possible(events) && events != [] && events[|events| - 1].Reconfigure?
    requires k in Run(events[..|events| - 1]).services
    ensures var s, s' := Run(events[..|events| - 1]), Run(events);
            var cur, none := s.services[k], Container(Running, 0);
            && k in s'.results
            && if k in s.last && Agree(s.last[k], cur) && ContainerOr(s.last[k], none) == ContainerOr(cur, none) then
                 k in s.results && s'.results[k] == s.results[k]
               else
                 var stopped := cur.container.Some? && cur.container.value.state == Stopped;
                 && (s'.results[k] == ContainerStopped <==> stopped)
                 && (s'.results[k] == Inactive <==> !stopped && !cur.active)
                 && (s'.results[k] == Ignored <==> !stopped && cur.active && cur.metricsIgnored)
                 && (s'.results[k] == CheckOnly <==>
                     !stopped && cur.active && !cur.metricsIgnored && cur.serviceType == "__custom__")
  {
    var s := Run(events[..|events| - 1]);
    ResultOfRun(events, k);
    if k in s.last {
      DifferIff(s.last[k], s.services[k], InputState(s.last[k]), InputState(s.services[k]));
    }
  }

  /** The services are those last published, without those removed since; a reconfiguration
      remembers them. */
  lemma ServicesOfRun(events: seq<Event>, k: Key)
    requires events != []
    ensures var s, s', e := Run(events[..|events| - 1]), Run(events), events[|events| - 1];
            && (e.Publish? ==> s'.services == e.services)
            && (e.Remove? ==> (k in s'.services <==> k in s.services && k !in e.keys)
                              && (k in s'.services ==> s'.services[k] == s.services[k]))
            && (e.Reconfigure? ==> s'.services == s.services && s'.last == s.services)
            && (!e.Reconfigure? ==> s'.last == s.last && s'.inputs == s.inputs && s'.checks == s.checks)
  {
  }

  // ---------------------------------------------------------------------------
  // Services kept under another name
  // ---------------------------------------------------------------------------

  lemma {:induction false} OnlyOwnName(order: seq<Key>, services: Services, k: Key)
    requires k in services && forall x | x in order :: x in services
    ensures SetUp(EMPTY, order, services, services.Keys, {k}).live.Keys <= {services[k].OwnKey()}
  {
    if order != [] {
      var front, x := order[..|order| - 1], order[|order| - 1];
      assert order == front + [x];
      OnlyOwnName(front, services, k);
    }
  }

  /** From nothing, a pass in any order leaves registrations exactly under the keys of the services
      that could be set up. */
  ghost predicate PlacesRight(services: Services) {
    forall order, made: set<Key> | Lists(order, services.Keys) && made <= services.Keys ::
      SetUp(EMPTY, order, services, services.Keys, made).live.Keys == made
  }

  /** That is so exactly when every service is kept under its own name. */
  lemma PlacesRightIff(services: Services)
    ensures PlacesRight(services) <==> KeysMatch(services)
  {
    if KeysMatch(services) {
      forall order, made: set<Key> | Lists(order, services.Keys) && made <= services.Keys
        ensures SetUp(EMPTY, order, services, services.Keys, made).live.Keys == made
      {
        forall k
          ensures k in SetUp(EMPTY, order, services, services.Keys, made).live <==> k in made
        {
          SetUpAt(EMPTY, order, services, services.Keys, made, k);
        }
      }
    } else {
      var k :| k in services && services[k].OwnKey() != k;
      var order := ListOf(services.Keys);
      OnlyOwnName(order, services, k);
      assert SetUp(EMPTY, order, services, services.Keys, {k}).live.Keys != {k} by {
        assert k !in SetUp(EMPTY, order, services, services.Keys, {k}).live.Keys;
      }
    }
  }

  /** Services whose keys and names stay as they are can be set up twice, in any orders, whichever
      could be registered and whichever changed in between, and every registration is still live
      or was unregistered. */
  ghost predicate LosesNothing(services: Services) {
    forall o1, o2, m1: set<Key>, m2: set<Key>, changed: set<Key> | Lists(o1, services.Keys) && Lists(o2, services.Keys) ::
      Accounted(SetUp(SetUp(EMPTY, o1, services, services.Keys, m1), o2, services, changed, m2))
  }

  /** Keys that are unchanged, or have no registration and get none, leave the table as it is. */
  lemma {:induction false} SetUpIdle(t: Table, order: seq<Key>, services: Services, changed: set<Key>, made: set<Key>)
    requires forall x | x in order :: x !in changed || (x !in made && x !in t.live)
    ensures SetUp(t, order, services, changed, made) == t
  {
    if order != [] {
      assert order == order[..|order| - 1] + [order[|order| - 1]];
      SetUpIdle(t, order[..|order| - 1], services, changed, made);
    }
  }

  /** One entry under another name is enough: when it is set up a second time its first registration
      is replaced without having been unregistered. */
  lemma RenamedLosesFirst(services: Services, k: Key) returns (order: seq<Key>)
    requires k in services && services[k].OwnKey() != k
    ensures Lists(order, services.Keys)
    ensures !Accounted(SetUp(SetUp(EMPTY, order, services, services.Keys, {k}), order, services, {k}, {k}))
  {
    var own := services[k].OwnKey();
    var front := ListOf(services.Keys - {k});
    ListsSnoc(front, services.Keys - {k}, k);
    assert services.Keys - {k} + {k} == services.Keys;
    order := front + [k];
    var once := EMPTY.Put(own);
    SetUpIdle(EMPTY, front, services, services.Keys, {k});
    assert EMPTY.Drop(k) == EMPTY;
    assert SetUp(EMPTY, order, services, services.Keys, {k}) == once;
    SetUpIdle(once, front, services, {k}, {k});
    assert SetUp(once, order, services, {k}, {k}) == once.Put(own);
    PutAccountsIff(EMPTY, own);
    PutAccountsIff(once, own);
  }

  /** No registration is ever lost exactly when every service is kept under its own name. */
  lemma LosesNothingIff(services: Services)
    ensures LosesNothing(services) <==> KeysMatch(services)
  {
    if KeysMatch(services) {
      forall o1, o2, m1: set<Key>, m2: set<Key>, changed: set<Key> | Lists(o1, services.Keys) && Lists(o2, services.Keys)
        ensures Accounted(SetUp(SetUp(EMPTY, o1, services, services.Keys, m1), o2, services, changed, m2))
      {
        SetUpAccounts(EMPTY, o1, services, services.Keys, m1);
        SetUpAccounts(SetUp(EMPTY, o1, services, services.Keys, m1), o2, services, changed, m2);
      }
    } else {
      var k :| k in services && services[k].OwnKey() != k;
      var order := RenamedLosesFirst(services, k);
    }
  }

  /** A lost registration stays lost, whatever is dropped or registered later. */
  lemma {:induction false} LostForGood(t: Table, order: seq<Key>, services: Services, changed: set<Key>, made: set<Key>, id: nat)
    requires Lost(t, id)
    ensures Lost(SetUp(t, order, services, changed, made), id)
    ensures Lost(DropGone(t, order, services), id)
  {
    if order != [] {
      LostForGood(t, order[..|order| - 1], services, changed, made, id);
    }
  }

  /** Two entries configured to the same name: the second registration takes the place of the
      first, which is never unregistered. */
  lemma SharedNameLosesOne(s: Service, a: Key, b: Key)
    requires a != b && a != s.OwnKey() && b != s.OwnKey()
    ensures var services := map[a := s, b := s];
            Lost(SetUp(EMPTY, [a, b], services, services.Keys, services.Keys), 0)
  {
    var services := map[a := s, b := s];
    assert [a, b][..1] == [a] && [a][..0] == [];
    var one := SetUp(EMPTY, [a], services, services.Keys, services.Keys);
    assert SetUp(EMPTY, [], services, services.Keys, services.Keys) == EMPTY;
    assert EMPTY.Drop(a) == EMPTY;
    assert one == EMPTY.Put(s.OwnKey());
  }
}
