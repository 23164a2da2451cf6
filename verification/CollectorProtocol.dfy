/** Adding, gathering, removing and closing inputs concurrently: when Stop may run. */
module CollectorProtocol {
  import opened Common

  // ---------------------------------------------------------------------------
  // Inputs, wait groups and goroutines
  // ---------------------------------------------------------------------------

  /** An input given to AddInput, with its wait group and its goroutines.
      refused: Init or Start failed. service: has Start and Stop. id: where it was stored.
      count: the wait group. launched, gathering, finishing: goroutines before, in and after Gather.
      waiting, drained: goroutines of stopInputAsync that wait for the wait group, and that have come
      back from waiting. stops: calls of Stop. */
  datatype Input = Input(refused: bool, service: bool, id: int, count: nat,
                         launched: nat, gathering: nat, finishing: nat,
                         waiting: nat, drained: nat, stops: nat)
  {
    predicate Valid() {
      && count == launched + gathering + finishing
      && (refused ==> count == 0)
      && (drained + stops > 0 ==> count == 0)
    }

    function Launch(): Input {
      this.(count := count + 1, launched := launched + 1)
    }

    /** stopInputAsync starts a goroutine for a service input, and does nothing for others. */
    function AskStop(): Input {
      if service then this.(waiting := waiting + 1) else this
    }
  }

  /** inputs, gatherWG and fieldCaches map an id to the number of the AddInput call that made the
      entry; last holds the time of the last completed gather; owed: for each input, how many callers
      of RemoveInput and Close took it out and have yet to call stopInputAsync for it. */
  datatype State = State(inputs: map<int, nat>, gatherWG: map<int, nat>, fieldCaches: map<int, nat>,
                         last: map<int, int>, all: seq<Input>, owed: multiset<nat>)
  {
    /** The h-th input is in the collector. */
    predicate Holds(h: nat) {
      h < |all| && all[h].id in inputs && inputs[all[h].id] == h
    }

    ghost function Held(): set<nat> {
      set h | 0 <= h < |all| && Holds(h)
    }

    /** In how many places an input is that may bring, or have brought, a call of Stop: the
        collector, the hands of callers, stopping goroutines, and the past. */
    function Places(h: nat): nat
      requires h < |all|
    {
      (if Holds(h) then 1 else 0) + owed[h] + all[h].waiting + all[h].drained + all[h].stops
    }
  }

  const START := State(map[], map[], map[], map[], [], multiset{})

  ghost predicate IsLeastFree(id: int, inputs: map<int, nat>) {
    1 <= id && id !in inputs && forall k | 1 <= k < id :: k in inputs
  }

  /** Reject: AddInput when Init fails. Begin and GiveUp: a launched goroutine enters Gather, or ends
      for want of secrets. EndGather, Finish: it leaves Gather, and later records its time and ends.
      Remove, Close: what they do under the lock. StopAsync: their call of stopInputAsync for an
      input they took out. Drain, CallStop: the goroutine this starts comes back from waiting, and
      calls Stop. */
  datatype Event =
    | Reject(service: bool)
    | Add(id: int, service: bool, startOk: bool)
    | Launch
    | Begin(h: nat)
    | GiveUp(h: nat)
    | EndGather(h: nat)
    | Finish(h: nat, t0: int)
    | Remove(id: int)
    | Close
    | StopAsync(h: nat)
    | Drain(h: nat)
    | CallStop(h: nat)

  ghost predicate Enabled(s: State, e: Event) {
    match e
    case Reject(_) => true
    case Add(id, _, _) => IsLeastFree(id, s.inputs)
    case Launch => true
    case Begin(h) => h < |s.all| && s.all[h].launched > 0
    case GiveUp(h) => h < |s.all| && s.all[h].launched > 0
    case EndGather(h) => h < |s.all| && s.all[h].gathering > 0
    case Finish(h, _) => h < |s.all| && s.all[h].finishing > 0
    case Remove(_) => true
    case Close => true
    case StopAsync(h) => h < |s.all| && s.owed[h] > 0
    case Drain(h) => h < |s.all| && s.all[h].waiting > 0 && s.all[h].count == 0
    case CallStop(h) => h < |s.all| && s.all[h].drained > 0
  }

  function Fresh(refused: bool, service: bool, id: int): Input {
    Input(refused, service, id, 0, 0, 0, 0, 0, 0, 0)
  }

  ghost function LaunchEach(all: seq<Input>, some: set<nat>): seq<Input> {
    seq(|all|, h requires 0 <= h < |all| => if h in some then all[h].Launch() else all[h])
  }

  ghost function StopEach(all: seq<Input>, some: set<nat>): seq<Input> {
    seq(|all|, h requires 0 <= h < |all| => if h in some then all[h].AskStop() else all[h])
  }

  function Pred(n: nat): nat {
    if n == 0 then 0 else n - 1
  }

  /** What one goroutine does to its input. */
  function Moved(i: Input, e: Event): Input {
    match e
    case Begin(_) => i.(launched := Pred(i.launched), gathering := i.gathering + 1)
    case GiveUp(_) => i.(launched := Pred(i.launched), count := Pred(i.count))
    case EndGather(_) => i.(gathering := Pred(i.gathering), finishing := i.finishing + 1)
    case Finish(_, _) => i.(finishing := Pred(i.finishing), count := Pred(i.count))
    case Drain(_) => i.(waiting := Pred(i.waiting), drained := i.drained + 1)
    case CallStop(_) => i.(drained := Pred(i.drained), stops := i.stops + 1)
    case _ => i
  }

  ghost function Step(s: State, e: Event): State {
    match e
    case Reject(service) => s.(all := s.all + [Fresh(true, service, 0)])
    case Add(id, service, startOk) =>
      if service && !startOk
      then s.(gatherWG := s.gatherWG - {id}, fieldCaches := s.fieldCaches - {id}, all := s.all + [Fresh(true, service, id)])
      else s.(inputs := s.inputs[id := |s.all|], gatherWG := s.gatherWG[id := |s.all|],
              fieldCaches := s.fieldCaches[id := |s.all|], all := s.all + [Fresh(false, service, id)])
    case Launch => s.(all := LaunchEach(s.all, s.Held()))
    case Remove(id) =>
      State(s.inputs - {id}, s.gatherWG - {id}, s.fieldCaches - {id}, s.last - {id}, s.all,
            if id in s.inputs then s.owed + multiset{s.inputs[id]} else s.owed)
    case Close => State(map[], map[], s.fieldCaches, s.last, s.all, s.owed + multiset(s.Held()))
    case StopAsync(h) =>
      if h < |s.all| then s.(all := s.all[h := s.all[h].AskStop()], owed := s.owed - multiset{h}) else s
    case Finish(h, t0) =>
      if h < |s.all| then s.(all := s.all[h := Moved(s.all[h], e)], last := s.last[s.all[h].id := t0]) else s
    case _ =>
      if e.h < |s.all| then s.(all := s.all[e.h := Moved(s.all[e.h], e)]) else s
  }

  // ---------------------------------------------------------------------------
  // The collector
  // ---------------------------------------------------------------------------

  /** An entry of the collector is an accepted input with a wait group and a cache of its own. */
  ghost predicate EntryOk(s: State, id: int) {
    id in s.inputs ==>
      && s.inputs[id] < |s.all| && id in s.fieldCaches && s.fieldCaches[id] == s.inputs[id]
      && s.all[s.inputs[id]].id == id && !s.all[s.inputs[id]].refused
  }

  /** A refused input is nowhere, an accepted service input in exactly one place, and an accepted
      input of another kind in the collector or in one caller's hands if anywhere. */
  ghost predicate InputOk(s: State, h: nat) {
    if h < |s.all| then
      && s.all[h].Valid()
      && (s.all[h].refused ==> s.Places(h) == 0)
      && (!s.all[h].refused && s.all[h].service ==> s.Places(h) == 1)
      && (!s.all[h].service ==> s.Places(h) <= 1 && s.all[h].waiting == s.all[h].drained == s.all[h].stops == 0)
    else s.owed[h] == 0
  }

  ghost predicate Inv(s: State) {
    && s.gatherWG == s.inputs
    && (forall id: int :: EntryOk(s, id))
    && (forall h: nat :: InputOk(s, h))
  }

  /** Between 1 and n there is room for n keys only. */
  lemma {:induction false} AtMostSize(n: nat, keys: set<int>)
    requires forall k | 1 <= k <= n :: k in keys
    ensures n <= |keys|
  {
    if n > 0 {
      AtMostSize(n - 1, keys - {n});
    }
  }

  /** The search of AddInput: it ends at the least free id, after at most as many failed probes
      as there are inputs. */
  method FindFreeId(inputs: map<int, nat>) returns (id: int)
    ensures IsLeastFree(id, inputs)
    ensures id <= |inputs| + 1
  {
    id := 1;
    while id in inputs
      invariant 1 <= id && forall k | 1 <= k < id :: k in inputs
      decreases |inputs| - id
    {
      AtMostSize(id, inputs.Keys);
      id := id + 1;
    }
    AtMostSize(id - 1, inputs.Keys);
  }

  lemma SomeId(ids: set<int>)
    requires ids != {}
    ensures exists id :: id in ids
  {
    assert (forall id: int :: id !in ids) ==> ids == {};
  }

  lemma Undone(m: map<int, nat>, id: int, h: nat)
    ensures m[id := h] - {id} == m - {id}
    ensures id !in m ==> m - {id} == m
  {
  }

  /** The state after Close and the calls of stopInputAsync for the inputs in done. */
  ghost function ClosedTo(s: State, done: set<nat>): State {
    Step(s, Close).(all := StopEach(s.all, done), owed := s.owed + multiset(s.Held() - done))
  }

  lemma ClosedNext(s: State, done: set<nat>, h: nat)
    requires h in s.Held() && h !in done
    ensures Enabled(ClosedTo(s, done), StopAsync(h))
    ensures Step(ClosedTo(s, done), StopAsync(h)) == ClosedTo(s, done + {h})
  {
    EachNext(s.all, done, h);
    assert s.Held() - done == s.Held() - (done + {h}) + {h};
    assert multiset(s.Held() - done) - multiset{h} == multiset(s.Held() - (done + {h}));
    assert (s.owed + multiset(s.Held() - done)) - multiset{h} == s.owed + multiset(s.Held() - (done + {h}));
  }

  lemma ClosedFirst(s: State)
    ensures ClosedTo(s, {}) == Step(s, Close)
  {
    assert StopEach(s.all, {}) == s.all && s.Held() - {} == s.Held();
  }

  /** The events can follow a Close, and ask every input it takes out to stop. */
  ghost predicate ClosesBy(s: State, events: seq<Event>) {
    PossibleFrom(Step(s, Close), events) && forall h | h in s.Held() :: StopAsync(h) in events
  }

  /** The events can follow a Close, and ask the inputs in done to stop. */
  ghost predicate ClosesTo(s: State, done: set<nat>, events: seq<Event>) {
    && PossibleFrom(Step(s, Close), events)
    && Follow(Step(s, Close), events) == ClosedTo(s, done)
    && forall h | h in done :: StopAsync(h) in events
  }

  lemma ClosesNext(s: State, done: set<nat>, events: seq<Event>, h: nat)
    requires ClosesTo(s, done, events) && h in s.Held() && h !in done
    ensures ClosesTo(s, done + {h}, events + [StopAsync(h)])
  {
    ClosedNext(s, done, h);
    FollowSnoc(Step(s, Close), events, StopAsync(h));
  }

  lemma ClosedLast(s: State)
    ensures ClosedTo(s, s.Held()) == State(map[], map[], s.fieldCaches, s.last, StopEach(s.all, s.Held()), s.owed)
  {
    assert s.Held() - s.Held() == {} && s.owed + multiset({}) == s.owed;
  }

  /** The loop of Close over the inputs it took out: a stopping goroutine for each. */
  method StopInputs(inputs: map<int, nat>, before: seq<Input>, ghost s: State)
    returns (all: seq<Input>, ghost events: seq<Event>)
    requires Inv(s) && s.inputs == inputs && s.all == before
    ensures all == StopEach(s.all, s.Held()) && ClosesBy(s, events)
    ensures Follow(Step(s, Close), events) == State(map[], map[], s.fieldCaches, s.last, all, s.owed)
  {
    all, events := before, [];
    var todo := inputs.Keys;
    ghost var done: set<nat> := {};
    ClosedFirst(s);
    while todo != {}
      invariant todo <= inputs.Keys
      invariant Handled(s, todo, done)
      invariant all == StopEach(s.all, done)
      invariant ClosesTo(s, done, events)
    {
      SomeId(todo);
      var id :| id in todo;
      var h := inputs[id];
      HandledNext(s, todo, done, id);
      EachNext(s.all, done, h);
      ClosesNext(s, done, events, h);
      all := all[h := all[h].AskStop()];
      todo := todo - {id};
      done := done + {h};
      events := events + [StopAsync(h)];
    }
    HandledAll(s, done);
    ClosedLast(s);
  }

  /** The loop of runOnce: the wait group of each input is raised and its goroutine started. */
  method StartGathers(inputs: map<int, nat>, gatherWG: map<int, nat>, before: seq<Input>, ghost s: State)
    returns (all: seq<Input>)
    requires Inv(s) && s.inputs == inputs && s.gatherWG == gatherWG && s.all == before
    ensures all == LaunchEach(s.all, s.Held()) && |all| == |before|
    ensures forall h | 0 <= h < |all| ::
              all[h] == if s.Holds(h) then before[h].(count := before[h].count + 1, launched := before[h].launched + 1)
                        else before[h]
  {
    all := before;
    var todo := inputs.Keys;
    ghost var done: set<nat> := {};
    while todo != {}
      invariant todo <= s.inputs.Keys
      invariant Handled(s, todo, done)
      invariant all == LaunchEach(s.all, done)
    {
      SomeId(todo);
      var id :| id in todo;
      var h, wg := inputs[id], gatherWG[id];
      HandledNext(s, todo, done, id);
      EachNext(s.all, done, h);
      all := all[wg := all[wg].(count := all[wg].count + 1)];
      all := all[h := all[h].(launched := all[h].launched + 1)];
      todo := todo - {id};
      done := done + {h};
    }
    HandledAll(s, done);
  }

  lemma RemovedAndAsked(s: State, id: int)
    requires Inv(s) && id in s.inputs
    ensures var h := s.inputs[id];
            && h < |s.all| && Enabled(Step(s, Remove(id)), StopAsync(h))
            && Step(Step(s, Remove(id)), StopAsync(h)) ==
               State(s.inputs - {id}, s.gatherWG - {id}, s.fieldCaches - {id}, s.last - {id},
                     s.all[h := s.all[h].AskStop()], s.owed)
  {
    assert EntryOk(s, id);
    assert s.owed + multiset{s.inputs[id]} - multiset{s.inputs[id]} == s.owed;
  }

  class Collector {
    var inputs: map<int, nat>
    var gatherWG: map<int, nat>
    var fieldCaches: map<int, nat>
    var last: map<int, int>
    var all: seq<Input>
    ghost var owed: multiset<nat>

    ghost function Current(): State
      reads this
    {
      State(inputs, gatherWG, fieldCaches, last, all, owed)
    }

    constructor ()
      ensures Current() == START
    {
      inputs, gatherWG, fieldCaches, last, all, owed := map[], map[], map[], map[], [], multiset{};
    }

    /** The result is the id, or a failure when Init or Start failed. */
    method AddInput(service: bool, initOk: bool, startOk: bool) returns (r: Result<int>, ghost e: Event)
      modifies this
      ensures Enabled(old(Current()), e) && Current() == Step(old(Current()), e)
      ensures r.Success? <==> initOk && (service ==> startOk)
      ensures if initOk then e.Add? && e.service == service && e.startOk == startOk && (r.Success? ==> r.value == e.id)
              else e == Reject(service)
    {
      ghost var s := Current();
      if !initOk {
        all := all + [Fresh(true, service, 0)];
        return Failure, Reject(service);
      }
      var id := FindFreeId(inputs);
      e := Add(id, service, startOk);
      inputs := inputs[id := |all|];
      gatherWG := gatherWG[id := |all|];
      fieldCaches := fieldCaches[id := |all|];
      all := all + [Fresh(service && !startOk, service, id)];
      if service && !startOk {
        inputs := inputs - {id};
        gatherWG := gatherWG - {id};
        fieldCaches := fieldCaches - {id};
        Undone(s.inputs, id, |s.all|);
        Undone(s.gatherWG, id, |s.all|);
        Undone(s.fieldCaches, id, |s.all|);
        return Failure, e;
      }
      return Success(id), e;
    }

    /** Up to the wait for the stopping goroutine. */
    method RemoveInput(id: int)
      requires Inv(Current())
      modifies this
      ensures id !in old(inputs) ==> Current() == Step(old(Current()), Remove(id))
      ensures id in old(inputs) ==>
                && Enabled(Step(old(Current()), Remove(id)), StopAsync(old(inputs[id])))
                && Current() == Step(Step(old(Current()), Remove(id)), StopAsync(old(inputs[id])))
    {
      ghost var s := Current();
      var input := if id in inputs then Some(inputs[id]) else None;
      inputs := inputs - {id};
      gatherWG := gatherWG - {id};
      fieldCaches := fieldCaches - {id};
      last := last - {id};
      if input.Some? {
        RemovedAndAsked(s, id);
        all := all[input.value := all[input.value].AskStop()];
      }
    }

    /** The entries are taken out under the lock, then a stopping goroutine is started for each;
        the ghost events say in which order. */
    method CloseInputs() returns (ghost events: seq<Event>)
      requires Inv(Current())
      modifies this
      ensures ClosesBy(old(Current()), events)
      ensures Current() == Follow(Step(old(Current()), Close), events)
      ensures all == StopEach(old(all), old(Current().Held())) && owed == old(owed)
    {
      ghost var s := Current();
      var taken := inputs;
      inputs := map[];
      gatherWG := map[];
      var stopping;
      stopping, events := StopInputs(taken, all, s);
      all := stopping;
    }

    /** What runOnce does under the lock. */
    method LaunchGathers()
      requires Inv(Current())
      modifies this
      ensures Current() == Step(old(Current()), Launch) && |all| == |old(all)|
      ensures forall h | 0 <= h < |all| && old(Current()).Holds(h) ::
                all[h] == old(all)[h].(count := old(all)[h].count + 1, launched := old(all)[h].launched + 1)
      ensures forall h | 0 <= h < |all| && !old(Current()).Holds(h) :: all[h] == old(all)[h]
    {
      all := StartGathers(inputs, gatherWG, all, Current());
    }

    /** The end of a gathering goroutine. */
    method FinishGather(h: nat, t0: int)
      requires Enabled(Current(), Finish(h, t0)) && Inv(Current())
      modifies this
      ensures Current() == Step(old(Current()), Finish(h, t0))
    {
      assert InputOk(Current(), h);
      last := last[all[h].id := t0];
      all := all[h := all[h].(finishing := all[h].finishing - 1, count := all[h].count - 1)];
    }
  }

  /** The inputs in done are those of the entries not in todo. */
  ghost predicate Handled(s: State, todo: set<int>, done: set<nat>) {
    && (forall id | id in s.inputs && id !in todo :: s.inputs[id] in done)
    && (forall h | h in done :: s.Holds(h) && s.all[h].id !in todo)
  }

  lemma HandledNext(s: State, todo: set<int>, done: set<nat>, id: int)
    requires Inv(s) && Handled(s, todo, done) && id in todo && id in s.inputs
    ensures EntryOk(s, id) && s.inputs[id] !in done
    ensures Handled(s, todo - {id}, done + {s.inputs[id]})
  {
    assert EntryOk(s, id);
  }

  lemma HandledAll(s: State, done: set<nat>)
    requires Handled(s, {}, done)
    ensures done == s.Held()
  {
    forall h: nat
      ensures h in done <==> h in s.Held()
    {
      if h in s.Held() {
        assert s.inputs[s.all[h].id] in done;
      }
    }
  }

  lemma EachNext(all: seq<Input>, done: set<nat>, h: nat)
    requires h < |all| && h !in done
    ensures StopEach(all, done + {h}) == StopEach(all, done)[h := all[h].AskStop()]
    ensures LaunchEach(all, done + {h}) == LaunchEach(all, done)[h := all[h].Launch()]
  {
  }

  // ---------------------------------------------------------------------------
  // Whole runs
  // ---------------------------------------------------------------------------

  lemma StepKeepsEntry(s: State, e: Event, id: int)
    requires Inv(s) && Enabled(s, e)
    ensures EntryOk(Step(s, e), id)
  {
    assert EntryOk(s, id);
  }

  /** Some goroutine of the h-th input moves, or a caller asks it to stop. */
  predicate ActsOn(e: Event, h: nat) {
    (IsGatherMove(e) || IsStopMove(e)) && e.h == h
  }

  lemma AddKeepsOld(s: State, e: Event, h: nat)
    requires Inv(s) && Enabled(s, e) && (e.Add? || e.Reject?) && h < |s.all|
    ensures InputOk(Step(s, e), h)
  {
    assert InputOk(s, h) && EntryOk(s, s.all[h].id);
    assert Step(s, e).Holds(h) <==> s.Holds(h);
  }

  lemma AddKeepsNew(s: State, e: Event, h: nat)
    requires Inv(s) && Enabled(s, e) && (e.Add? || e.Reject?) && h >= |s.all|
    ensures InputOk(Step(s, e), h)
  {
    assert InputOk(s, h) && EntryOk(s, 0);
  }

  lemma LaunchKeepsInput(s: State, h: nat)
    requires Inv(s)
    ensures InputOk(Step(s, Launch), h)
  {
    assert InputOk(s, h);
    if h < |s.all| {
      assert EntryOk(s, s.all[h].id);
    }
  }

  lemma TakingOutKeepsInput(s: State, e: Event, h: nat)
    requires Inv(s) && (e.Remove? || e.Close?)
    ensures InputOk(Step(s, e), h)
  {
    assert InputOk(s, h);
    if e.Remove? {
      assert EntryOk(s, e.id);
    }
  }

  predicate IsGatherMove(e: Event) {
    e.Begin? || e.GiveUp? || e.EndGather? || e.Finish?
  }

  predicate IsStopMove(e: Event) {
    e.StopAsync? || e.Drain? || e.CallStop?
  }

  lemma GatherMoveKeepsInput(s: State, e: Event)
    requires Inv(s) && Enabled(s, e) && IsGatherMove(e)
    ensures InputOk(Step(s, e), e.h)
  {
    assert InputOk(s, e.h);
  }

  lemma StopMoveKeepsInput(s: State, e: Event)
    requires Inv(s) && Enabled(s, e) && IsStopMove(e)
    ensures InputOk(Step(s, e), e.h)
  {
    assert InputOk(s, e.h);
  }

  lemma MoveKeepsOther(s: State, e: Event, h: nat)
    requires Inv(s) && Enabled(s, e) && (IsGatherMove(e) || IsStopMove(e)) && e.h != h
    ensures InputOk(Step(s, e), h)
  {
    MoveSparesOther(s, e, h);
    assert InputOk(s, h);
    SameInput(s, Step(s, e), h);
  }

  lemma MoveSparesOther(s: State, e: Event, h: nat)
    requires Enabled(s, e) && (IsGatherMove(e) || IsStopMove(e)) && e.h != h
    ensures var s' := Step(s, e);
            && s'.inputs == s.inputs && |s'.all| == |s.all| && s'.owed[h] == s.owed[h]
            && (h < |s.all| ==> s'.all[h] == s.all[h])
  {
  }

  lemma SameInput(s: State, s': State, h: nat)
    requires InputOk(s, h)
    requires s'.inputs == s.inputs && |s'.all| == |s.all| && s'.owed[h] == s.owed[h]
    requires h < |s.all| ==> s'.all[h] == s.all[h]
    ensures InputOk(s', h)
  {
  }

  lemma StepKeepsInput(s: State, e: Event, h: nat)
    requires Inv(s) && Enabled(s, e)
    ensures InputOk(Step(s, e), h)
  {
    match e
    case Reject(_) =>
      if h < |s.all| {
        AddKeepsOld(s, e, h);
      } else {
        AddKeepsNew(s, e, h);
      }
    case Add(_, _, _) =>
      if h < |s.all| {
        AddKeepsOld(s, e, h);
      } else {
        AddKeepsNew(s, e, h);
      }
    case Launch => LaunchKeepsInput(s, h);
    case Remove(_) => TakingOutKeepsInput(s, e, h);
    case Close => TakingOutKeepsInput(s, e, h);
    case _ =>
      if e.h != h {
        MoveKeepsOther(s, e, h);
      } else if IsGatherMove(e) {
        GatherMoveKeepsInput(s, e);
      } else {
        StopMoveKeepsInput(s, e);
      }
  }

  lemma StepKeepsInv(s: State, e: Event)
    requires Inv(s) && Enabled(s, e)
    ensures Inv(Step(s, e))
  {
    var s' := Step(s, e);
    forall id: int
      ensures EntryOk(s', id)
    {
      StepKeepsEntry(s, e, id);
    }
    forall h: nat
      ensures InputOk(s', h)
    {
      StepKeepsInput(s, e, h);
    }
  }

  ghost function Run(events: seq<Event>): State {
    if events == [] then START else Step(Run(events[..|events| - 1]), events[|events| - 1])
  }

  ghost predicate Possible(events: seq<Event>) {
    forall i | 0 <= i < |events| :: Enabled(Run(events[..i]), events[i])
  }

  lemma RunNext(events: seq<Event>, i: nat)
    requires i < |events|
    ensures Run(events[..i + 1]) == Step(Run(events[..i]), events[i])
  {
    TakeSnoc(events, i);
  }

  lemma {:induction false} RunKeepsInv(events: seq<Event>, n: nat)
    requires Possible(events) && n <= |events|
    ensures Inv(Run(events[..n]))
  {
    if n > 0 {
      RunKeepsInv(events, n - 1);
      RunNext(events, n - 1);
      StepKeepsInv(Run(events[..n - 1]), events[n - 1]);
    }
  }

  predicate Over(s: State, h: nat) {
    h < |s.all| && (s.all[h].refused || s.all[h].stops > 0)
  }

  /** Once an input was refused or stopped nothing acts on it. */
  lemma OverStays(s: State, e: Event, h: nat)
    requires Inv(s) && Enabled(s, e) && Over(s, h)
    ensures !ActsOn(e, h)
    ensures Over(Step(s, e), h)
  {
    assert InputOk(s, h);
  }

  lemma OverNext(events: seq<Event>, j: nat, h: nat)
    requires Possible(events) && j < |events| && Over(Run(events[..j]), h)
    ensures !ActsOn(events[j], h) && Over(Run(events[..j + 1]), h)
  {
    RunKeepsInv(events, j);
    OverStays(Run(events[..j]), events[j], h);
    RunNext(events, j);
  }

  lemma {:induction false} StaysOver(events: seq<Event>, i: nat, j: nat, h: nat)
    requires Possible(events) && i <= j <= |events|
    requires Over(Run(events[..i]), h)
    ensures Over(Run(events[..j]), h)
    decreases j
  {
    if i < j {
      StaysOver(events, i, j - 1, h);
      OverNext(events, j - 1, h);
    }
  }

  lemma OverForGood(events: seq<Event>, i: nat, j: nat, h: nat)
    requires Possible(events) && i <= j < |events|
    requires Over(Run(events[..i]), h)
    ensures !ActsOn(events[j], h)
  {
    StaysOver(events, i, j, h);
    OverNext(events, j, h);
  }

  /** In every run, when Stop is called on an input none of its gathers is in flight, and nothing
      happens to it afterwards: no gather starts and Stop is not called again. */
  lemma StopIsSafeAndLast(events: seq<Event>, i: nat, h: nat)
    requires Possible(events) && i < |events| && events[i] == CallStop(h)
    ensures h < |Run(events[..i]).all| && Run(events[..i]).all[h].service && Run(events[..i]).all[h].stops == 0
    ensures Run(events[..i]).all[h].launched == Run(events[..i]).all[h].gathering == Run(events[..i]).all[h].finishing == 0
    ensures forall j | i < j < |events| :: !ActsOn(events[j], h)
  {
    RunKeepsInv(events, i);
    assert InputOk(Run(events[..i]), h);
    RunNext(events, i);
    forall j | i < j < |events|
      ensures !ActsOn(events[j], h)
    {
      OverForGood(events, i + 1, j, h);
    }
  }

  /** An input whose Init or Start failed is never gathered and never stopped. */
  lemma RefusedNeverRuns(events: seq<Event>, i: nat, j: nat)
    requires Possible(events) && i < j < |events|
    requires events[i].Reject? || (events[i].Add? && events[i].service && !events[i].startOk)
    ensures !ActsOn(events[j], |Run(events[..i]).all|)
  {
    RunNext(events, i);
    OverForGood(events, i + 1, j, |Run(events[..i]).all|);
  }

  /** An entry has its own wait group and cache, and belongs to an accepted input. */
  ghost predicate NothingMixedUp(s: State, id: int) {
    id in s.inputs ==>
      && id in s.gatherWG && s.gatherWG[id] == s.inputs[id]
      && id in s.fieldCaches && s.fieldCaches[id] == s.inputs[id]
      && s.inputs[id] < |s.all| && !s.all[s.inputs[id]].refused
  }

  lemma NothingIsMixedUp(events: seq<Event>, id: int)
    requires Possible(events)
    ensures NothingMixedUp(Run(events), id)
  {
    assert events[..|events|] == events;
    RunKeepsInv(events, |events|);
    assert EntryOk(Run(events), id);
  }

  /** In every run an accepted service input is, at any time, in exactly one of: the collector, the
      hands of one caller that took it out, one goroutine waiting to stop it, one about to stop it, and
      the past, stopped once. */
  lemma ServiceIsInOnePlace(events: seq<Event>, h: nat)
    requires Possible(events) && h < |Run(events).all|
    requires !Run(events).all[h].refused && Run(events).all[h].service
    ensures Run(events).Places(h) == 1
  {
    assert events[..|events|] == events;
    RunKeepsInv(events, |events|);
    assert InputOk(Run(events), h);
  }

  /** The event takes the input out of the collector. */
  predicate TakesOut(e: Event, id: int) {
    e.Close? || e == Remove(id)
  }

  lemma MoveKeepsHeld(s: State, e: Event, h: nat)
    requires Enabled(s, e) && s.Holds(h) && (IsGatherMove(e) || IsStopMove(e))
    ensures Step(s, e).Holds(h) && Step(s, e).all[h].id == s.all[h].id
  {
    if e.h != h {
      MoveSparesOther(s, e, h);
    }
  }

  lemma HeldUnlessTakenOut(s: State, e: Event, h: nat)
    requires Enabled(s, e) && s.Holds(h)
    ensures h < |Step(s, e).all| && Step(s, e).all[h].id == s.all[h].id
    ensures Step(s, e).Holds(h) <==> !TakesOut(e, s.all[h].id)
  {
    if IsGatherMove(e) || IsStopMove(e) {
      MoveKeepsHeld(s, e, h);
    }
  }

  lemma AcceptedIsHeld(events: seq<Event>, i: nat)
    requires Possible(events) && i < |events|
    requires events[i].Add? && (events[i].service ==> events[i].startOk)
    ensures var h := |Run(events[..i]).all|;
            Run(events[..i + 1]).Holds(h) && Run(events[..i + 1]).all[h].id == events[i].id
  {
    RunNext(events, i);
  }

  /** In every run an accepted input is in the collector, under the id it got, until an event takes
      it out: none is ever lost otherwise, or replaced by another. */
  lemma {:induction false} AcceptedStaysUntilTakenOut(events: seq<Event>, i: nat, j: nat)
    requires Possible(events) && i < j <= |events|
    requires events[i].Add? && (events[i].service ==> events[i].startOk)
    requires forall k | i < k < j :: !TakesOut(events[k], events[i].id)
    ensures var h := |Run(events[..i]).all|;
            Run(events[..j]).Holds(h) && Run(events[..j]).all[h].id == events[i].id
    decreases j
  {
    AcceptedIsHeld(events, i);
    if i + 1 < j {
      AcceptedStaysUntilTakenOut(events, i, j - 1);
      RunNext(events, j - 1);
      HeldUnlessTakenOut(Run(events[..j - 1]), events[j - 1], |Run(events[..i]).all|);
    }
  }

  // ---------------------------------------------------------------------------
  // What the events do, and how often they happened
  // ---------------------------------------------------------------------------

  /** In every run a launch raises the wait group of each input in the collector by one, together with
      the gathers about to start, and touches no other input and no map. */
  lemma LaunchStartsOneGatherEach(events: seq<Event>, i: nat, h: nat)
    requires i < |events| && events[i] == Launch && h < |Run(events[..i]).all|
    ensures var s, s' := Run(events[..i]), Run(events[..i + 1]);
            && s'.inputs == s.inputs && s'.gatherWG == s.gatherWG && s'.fieldCaches == s.fieldCaches
            && s'.last == s.last && s'.owed == s.owed && |s'.all| == |s.all|
            && if s.Holds(h) then
                 && s'.all[h].count == s.all[h].count + 1 && s'.all[h].launched == s.all[h].launched + 1
                 && s'.all[h].gathering == s.all[h].gathering && s'.all[h].finishing == s.all[h].finishing
                 && s'.all[h].id == s.all[h].id && s'.all[h].service == s.all[h].service
               else s'.all[h] == s.all[h]
  {
    RunNext(events, i);
  }

  /** A removal forgets everything under its id and leaves all other entries; Close takes all inputs
      out and forgets neither caches nor times. */
  lemma TakingOutForgets(events: seq<Event>, i: nat, id: int)
    requires i < |events| && (events[i].Remove? || events[i].Close?)
    ensures var s, s', e := Run(events[..i]), Run(events[..i + 1]), events[i];
            && (id in s'.inputs <==> id in s.inputs && !TakesOut(e, id))
            && (id in s'.gatherWG <==> id in s.gatherWG && !TakesOut(e, id))
            && (id in s'.fieldCaches <==> id in s.fieldCaches && e != Remove(id))
            && (id in s'.last <==> id in s.last && e != Remove(id))
            && (id in s'.inputs ==> s'.inputs[id] == s.inputs[id])
            && (id in s'.gatherWG ==> s'.gatherWG[id] == s.gatherWG[id])
            && (id in s'.fieldCaches ==> s'.fieldCaches[id] == s.fieldCaches[id])
            && (id in s'.last ==> s'.last[id] == s.last[id])
  {
    RunNext(events, i);
  }

  /** A new input has the least free id; one that is refused leaves the collector as it was, save that
      a cache left under the id by Close is gone. */
  lemma AddChanges(events: seq<Event>, i: nat, id: int)
    requires Possible(events) && i < |events| && events[i].Add?
    ensures IsLeastFree(events[i].id, Run(events[..i]).inputs)
    ensures var s, s', e := Run(events[..i]), Run(events[..i + 1]), events[i];
            var accepted := e.service ==> e.startOk;
            && |s'.all| == |s.all| + 1 && s'.all[..|s.all|] == s.all && s'.all[|s.all|].service == e.service
            && (id in s'.inputs <==> id in s.inputs || (accepted && id == e.id))
            && (id in s'.inputs && id != e.id ==> s'.inputs[id] == s.inputs[id])
            && (id in s'.fieldCaches <==> if id == e.id then accepted else id in s.fieldCaches)
            && (id in s'.fieldCaches && id != e.id ==> s'.fieldCaches[id] == s.fieldCaches[id])
            && s'.last == s.last && s'.owed == s.owed
  {
    RunNext(events, i);
    assert Enabled(Run(events[..i]), events[i]);
  }

  /** How often each event of the h-th input happened; launches: how often gathers were launched while
      it was in the collector. */
  datatype Tally = Tally(launches: nat, begun: nat, gaveUp: nat, ended: nat, finished: nat,
                         asked: nat, drained: nat, stopped: nat)
  {
    function Count(e: Event, held: bool, h: nat): Tally {
      match e
      case Launch => if held then this.(launches := launches + 1) else this
      case Begin(x) => if x == h then this.(begun := begun + 1) else this
      case GiveUp(x) => if x == h then this.(gaveUp := gaveUp + 1) else this
      case EndGather(x) => if x == h then this.(ended := ended + 1) else this
      case Finish(x, _) => if x == h then this.(finished := finished + 1) else this
      case StopAsync(x) => if x == h then this.(asked := asked + 1) else this
      case Drain(x) => if x == h then this.(drained := drained + 1) else this
      case CallStop(x) => if x == h then this.(stopped := stopped + 1) else this
      case _ => this
    }
  }

  const NOTHING := Tally(0, 0, 0, 0, 0, 0, 0, 0)

  ghost function TallyOf(events: seq<Event>, h: nat): Tally {
    if events == [] then NOTHING
    else
      var front, e := events[..|events| - 1], events[|events| - 1];
      TallyOf(front, h).Count(e, Run(front).Holds(h), h)
  }

  /** The goroutines of the input are what the tally leaves. */
  ghost predicate Balanced(t: Tally, s: State, h: nat) {
    if h < |s.all| then
      var a := s.all[h];
      && a.launched == t.launches - t.begun - t.gaveUp
      && a.gathering == t.begun - t.ended
      && a.finishing == t.ended - t.finished
      && (a.service ==> a.waiting == t.asked - t.drained)
      && a.drained == t.drained - t.stopped
      && a.stops == t.stopped
    else t == NOTHING
  }

  lemma GatherMoveBalances(t: Tally, s: State, e: Event)
    requires Enabled(s, e) && IsGatherMove(e) && Balanced(t, s, e.h)
    ensures Balanced(t.Count(e, s.Holds(e.h), e.h), Step(s, e), e.h)
  {
  }

  lemma StopMoveBalances(t: Tally, s: State, e: Event)
    requires Enabled(s, e) && IsStopMove(e) && Balanced(t, s, e.h)
    ensures Balanced(t.Count(e, s.Holds(e.h), e.h), Step(s, e), e.h)
  {
  }

  lemma OtherMoveBalances(t: Tally, s: State, e: Event, h: nat)
    requires Enabled(s, e) && (IsGatherMove(e) || IsStopMove(e)) && e.h != h && Balanced(t, s, h)
    ensures Balanced(t.Count(e, s.Holds(h), h), Step(s, e), h)
  {
    MoveSparesOther(s, e, h);
    assert t.Count(e, s.Holds(h), h) == t;
  }

  lemma LaunchBalances(t: Tally, s: State, h: nat)
    requires Balanced(t, s, h)
    ensures Balanced(t.Count(Launch, s.Holds(h), h), Step(s, Launch), h)
  {
  }

  lemma AddBalances(t: Tally, s: State, e: Event, h: nat)
    requires (e.Add? || e.Reject?) && Balanced(t, s, h)
    ensures Balanced(t, Step(s, e), h)
  {
    assert Step(s, e).all[..|s.all|] == s.all;
  }

  lemma TakingOutBalances(t: Tally, s: State, e: Event, h: nat)
    requires (e.Remove? || e.Close?) && Balanced(t, s, h)
    ensures Balanced(t, Step(s, e), h)
  {
    assert Step(s, e).all == s.all;
  }

  /** In every run the goroutines of every input are accounted for: each launch while it was in the
      collector is a gather that is yet to begin, is under way, or ended; each call of stopInputAsync
      is a goroutine that is waiting, or about to call Stop, or has. */
  lemma {:induction false} EveryGoroutineIsAccountedFor(events: seq<Event>, n: nat, h: nat)
    requires Possible(events) && n <= |events|
    ensures Balanced(TallyOf(events[..n], h), Run(events[..n]), h)
  {
    if n > 0 {
      EveryGoroutineIsAccountedFor(events, n - 1, h);
      TakeSnoc(events, n - 1);
      var s, e, t := Run(events[..n - 1]), events[n - 1], TallyOf(events[..n - 1], h);
      assert TallyOf(events[..n], h) == t.Count(e, s.Holds(h), h);
      if ActsOn(e, h) && IsGatherMove(e) {
        GatherMoveBalances(t, s, e);
      } else if ActsOn(e, h) {
        StopMoveBalances(t, s, e);
      } else if IsGatherMove(e) || IsStopMove(e) {
        OtherMoveBalances(t, s, e, h);
      } else if e.Launch? {
        LaunchBalances(t, s, h);
      } else if e.Add? || e.Reject? {
        AddBalances(t, s, e, h);
      } else {
        TakingOutBalances(t, s, e, h);
      }
    }
  }

  // ---------------------------------------------------------------------------
  // Stop does come
  // ---------------------------------------------------------------------------

  ghost function Follow(s: State, events: seq<Event>): State
    decreases |events|
  {
    if events == [] then s else Follow(Step(s, events[0]), events[1..])
  }

  ghost predicate PossibleFrom(s: State, events: seq<Event>)
    decreases |events|
  {
    events == [] || (Enabled(s, events[0]) && PossibleFrom(Step(s, events[0]), events[1..]))
  }

  lemma {:induction false} FollowSnoc(s: State, events: seq<Event>, e: Event)
    ensures Follow(s, events + [e]) == Step(Follow(s, events), e)
    ensures PossibleFrom(s, events + [e]) <==> PossibleFrom(s, events) && Enabled(Follow(s, events), e)
    decreases |events|
  {
    if events == [] {
      assert (events + [e])[1..] == [];
    } else {
      assert (events + [e])[1..] == events[1..] + [e];
      FollowSnoc(Step(s, events[0]), events[1..], e);
    }
  }

  /** A service input that is out of the collector. */
  predicate Leaving(s: State, h: nat) {
    h < |s.all| && !s.all[h].refused && s.all[h].service && !s.Holds(h)
  }

  /** The next move of such an input. */
  function NextMove(i: Input, owed: nat, h: nat, t0: int): Event {
    if i.finishing > 0 then Finish(h, t0)
    else if i.gathering > 0 then EndGather(h)
    else if i.launched > 0 then Begin(h)
    else if owed > 0 then StopAsync(h)
    else if i.waiting > 0 then Drain(h)
    else CallStop(h)
  }

  function MovesLeft(i: Input, owed: nat): nat {
    3 * i.launched + 2 * i.gathering + i.finishing + 3 * owed + 2 * i.waiting + i.drained
  }

  lemma NextMoveIsPossible(s: State, h: nat, t0: int)
    requires Inv(s) && Leaving(s, h) && s.all[h].stops == 0
    ensures var e := NextMove(s.all[h], s.owed[h], h, t0);
            && Enabled(s, e) && ActsOn(e, h) && Leaving(Step(s, e), h)
            && MovesLeft(Step(s, e).all[h], Step(s, e).owed[h]) < MovesLeft(s.all[h], s.owed[h])
  {
    assert InputOk(s, h);
  }

  ghost predicate StopsBy(s: State, events: seq<Event>, h: nat) {
    && PossibleFrom(s, events)
    && (forall k | 0 <= k < |events| :: ActsOn(events[k], h))
    && h < |Follow(s, events).all| && Follow(s, events).all[h].stops == 1
  }

  lemma {:induction false} StopCanComeFrom(s: State, h: nat, t0: int) returns (more: seq<Event>)
    requires Inv(s) && Leaving(s, h)
    ensures StopsBy(s, more, h)
    decreases MovesLeft(s.all[h], s.owed[h])
  {
    if s.all[h].stops > 0 {
      assert InputOk(s, h);
      return [];
    }
    var e := NextMove(s.all[h], s.owed[h], h, t0);
    NextMoveIsPossible(s, h, t0);
    StepKeepsInv(s, e);
    var rest := StopCanComeFrom(Step(s, e), h, t0);
    more := [e] + rest;
    assert more[1..] == rest;
  }

  /** Taking out never leaves an input stuck: from any point of any run, what is left to do for a
      service input that is out of the collector can go on, on its own, to the call of Stop. */
  lemma StopCanCome(events: seq<Event>, h: nat, t0: int) returns (more: seq<Event>)
    requires Possible(events) && Leaving(Run(events), h)
    ensures StopsBy(Run(events), more, h)
  {
    assert Inv(Run(events)) by {
      assert events[..|events|] == events;
      RunKeepsInv(events, |events|);
    }
    more := StopCanComeFrom(Run(events), h, t0);
  }

  // ---------------------------------------------------------------------------
  // The time of the last gather
  // ---------------------------------------------------------------------------

  /** Under which id each event records a time, if it does. */
  ghost function Records(events: seq<Event>): (ids: seq<Option<int>>)
    ensures |ids| == |events|
  {
    if events == [] then []
    else
      var n := |events| - 1;
      Records(events[..n]) + [RecordedBy(Run(events[..n]), events[n])]
  }

  function RecordedBy(s: State, e: Event): Option<int> {
    if e.Finish? && e.h < |s.all| then Some(s.all[e.h].id) else None
  }

  /** Some gather of an input stored under id finished after the last removal of that id. */
  ghost predicate FinishedSinceRemoval(events: seq<Event>, ids: seq<Option<int>>, id: int)
    requires |ids| == |events|
  {
    exists i | 0 <= i < |events| :: ids[i] == Some(id) && forall j | i < j < |events| :: events[j] != Remove(id)
  }

  lemma SinceRemovalSnoc(events: seq<Event>, ids: seq<Option<int>>, e: Event, recorded: Option<int>, id: int)
    requires |ids| == |events|
    ensures FinishedSinceRemoval(events + [e], ids + [recorded], id) <==>
            recorded == Some(id) || (FinishedSinceRemoval(events, ids, id) && e != Remove(id))
  {
    var events', ids', n := events + [e], ids + [recorded], |events|;
    if recorded == Some(id) {
      assert ids'[n] == Some(id);
    }
    if FinishedSinceRemoval(events, ids, id) && e != Remove(id) {
      var i :| 0 <= i < n && ids[i] == Some(id) && forall j | i < j < n :: events[j] != Remove(id);
      assert ids'[i] == Some(id);
    }
    if FinishedSinceRemoval(events', ids', id) {
      var i :| 0 <= i <= n && ids'[i] == Some(id) && forall j | i < j <= n :: events'[j] != Remove(id);
      if i < n {
        assert ids[i] == Some(id) && events'[n] == e;
        assert forall j | i < j < n :: events'[j] == events[j];
      }
    }
  }

  lemma LastAfterStep(s: State, e: Event, id: int)
    ensures id in Step(s, e).last <==> e != Remove(id) && (id in s.last || RecordedBy(s, e) == Some(id))
  {
  }

  /** A time is known for an id exactly then. It may stem from an earlier input that had the same
      id: one that was still gathering when it was removed, or that was dropped by Close. */
  lemma {:induction false} TimeKnownIff(events: seq<Event>, id: int)
    ensures id in Run(events).last <==> FinishedSinceRemoval(events, Records(events), id)
  {
    if events != [] {
      var n := |events| - 1;
      var front, e := events[..n], events[n];
      TimeKnownIff(front, id);
      LastAfterStep(Run(front), e, id);
      SinceRemovalSnoc(front, Records(front), e, RecordedBy(Run(front), e), id);
      assert events == front + [e];
    }
  }

  /** The i-th event is the last one that recorded a time under id, and id was not removed since. */
  ghost predicate RecordedLast(events: seq<Event>, ids: seq<Option<int>>, id: int, i: nat)
    requires |ids| == |events|
  {
    && i < |events| && ids[i] == Some(id)
    && forall j | i < j < |events| :: ids[j] != Some(id) && events[j] != Remove(id)
  }

  lemma RecordedLastSnoc(events: seq<Event>, ids: seq<Option<int>>, e: Event, recorded: Option<int>, id: int, i: nat)
    requires |ids| == |events|
    ensures recorded == Some(id) ==> RecordedLast(events + [e], ids + [recorded], id, |events|)
    ensures RecordedLast(events, ids, id, i) && recorded != Some(id) && e != Remove(id) ==>
              RecordedLast(events + [e], ids + [recorded], id, i) && (events + [e])[i] == events[i]
  {
  }

  lemma TimeAfterStep(s: State, e: Event, id: int)
    requires id in Step(s, e).last
    ensures RecordedBy(s, e) == Some(id) ==> e.Finish? && Step(s, e).last[id] == e.t0
    ensures RecordedBy(s, e) != Some(id) ==> e != Remove(id) && id in s.last && Step(s, e).last[id] == s.last[id]
  {
  }

  /** The time known for an id is that of the gather which finished last under it. */
  lemma {:induction false} TimeIsOfLatestGather(events: seq<Event>, id: int) returns (i: nat)
    requires id in Run(events).last
    ensures RecordedLast(events, Records(events), id, i)
    ensures events[i].Finish? && Run(events).last[id] == events[i].t0
  {
    var n := |events| - 1;
    var front, e := events[..n], events[n];
    var recorded := RecordedBy(Run(front), e);
    TimeAfterStep(Run(front), e, id);
    i := n;
    if recorded != Some(id) {
      i := TimeIsOfLatestGather(front, id);
    }
    RecordedLastSnoc(front, Records(front), e, recorded, id, i);
    assert events == front + [e];
  }
}
