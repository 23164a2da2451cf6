/** When the fact that says facts changed is itself changed. */
module FactStamp {
  import opened Common

  type Facts = map<string, string>

  const UPDATED_AT := "fact_updated_at"
  const ENABLED := "auto_upgrade_enabled"
  const STATUS := "auto_upgrade_status"

  /** Seconds between two changes of the stamp when nothing else changed. */
  const MIN_INTERVAL := 1800

  function Lookup(facts: Facts, key: string): Option<string> {
    if key in facts then Some(facts[key]) else None
  }

  ghost function Others(facts: Facts): Facts {
    facts - {UPDATED_AT}
  }

  // ---------------------------------------------------------------------------
  // Comparing
  // ---------------------------------------------------------------------------

  method FactsCountIgnoringUpdatedAt(facts: Facts) returns (n: nat)
    ensures n == |Others(facts)|
  {
    if UPDATED_AT in facts {
      assert facts == Others(facts)[UPDATED_AT := facts[UPDATED_AT]];
      return |facts| - 1;
    }
    assert facts == Others(facts);
    return |facts|;
  }

  lemma {:induction false} SameSize(a: set<string>, b: set<string>)
    requires a <= b && |a| == |b|
    ensures a == b
  {
    assert b == a + (b - a);
  }

  /** Equal counts and one direction make two maps equal. */
  lemma SameIfCovered(a: Facts, b: Facts)
    requires |a| == |b| && forall k | k in a :: k in b && b[k] == a[k]
    ensures a == b
  {
    assert |a.Keys| == |b.Keys|;
    SameSize(a.Keys, b.Keys);
  }

  method FactsEqualIgnoringUpdatedAt(a: Facts, b: Facts) returns (equal: bool)
    ensures equal <==> Others(a) == Others(b)
  {
    var countA := FactsCountIgnoringUpdatedAt(a);
    var countB := FactsCountIgnoringUpdatedAt(b);
    if countA != countB {
      return false;
    }
    var todo := a.Keys;
    while todo != {}
      invariant todo <= a.Keys
      invariant forall k | k in a && k !in todo && k != UPDATED_AT :: k in b && b[k] == a[k]
    {
      var key :| key in todo;
      todo := todo - {key};
      if key == UPDATED_AT {
        continue;
      }
      if key !in b || a[key] != b[key] {
        assert key in Others(a) && Lookup(Others(a), key) != Lookup(Others(b), key);
        return false;
      }
    }
    SameIfCovered(Others(a), Others(b));
    return true;
  }

  // ---------------------------------------------------------------------------
  // Stamping
  // ---------------------------------------------------------------------------

  /** Reads a stamp; the formats of times belong to the library. */
  type Parser = string -> Option<int>

  predicate Recent(stamp: Option<string>, now: int, parse: Parser) {
    stamp.Some? && parse(stamp.value).Some? && now - parse(stamp.value).value < MIN_INTERVAL
  }

  /** A refresh brings a new stamp if another fact changed, or the old stamp is missing, not a time
      or no longer recent. */
  ghost predicate NeedsStamp(facts: Facts, newFacts: Facts, now: int, parse: Parser) {
    Others(facts) != Others(newFacts) || !Recent(Lookup(facts, UPDATED_AT), now, parse)
  }

  function StampOf(facts: Facts): string {
    if UPDATED_AT in facts then facts[UPDATED_AT] else ""
  }

  method FactUpdatedAt(facts: Facts, newFacts: Facts, now: int, parse: Parser) returns (stamp: string)
    ensures stamp == StampOf(if NeedsStamp(facts, newFacts, now, parse) then newFacts else facts)
  {
    if UPDATED_AT !in facts {
      return StampOf(newFacts);
    }
    var previous := parse(facts[UPDATED_AT]);
    if previous.None? || now - previous.value >= MIN_INTERVAL {
      return StampOf(newFacts);
    }
    var equal := FactsEqualIgnoringUpdatedAt(facts, newFacts);
    if !equal {
      return StampOf(newFacts);
    }
    return facts[UPDATED_AT];
  }

  /** The auto-upgrade facts are replaced by those given, which may be fewer. */
  ghost function Replaced(facts: Facts, upgrades: Facts): Facts {
    facts - {ENABLED, STATUS} + upgrades
  }

  ghost predicate OnlyUpgrades(upgrades: Facts) {
    upgrades.Keys <= {ENABLED, STATUS}
  }

  lemma ReplacedDiffersIff(facts: Facts, upgrades: Facts)
    requires OnlyUpgrades(upgrades)
    ensures Others(Replaced(facts, upgrades)) == Others(facts) <==>
            Lookup(facts, ENABLED) == Lookup(upgrades, ENABLED) && Lookup(facts, STATUS) == Lookup(upgrades, STATUS)
  {
    assert |UPDATED_AT| == 15 && |ENABLED| == 20 && |STATUS| == 19;
    var a, b := Others(Replaced(facts, upgrades)), Others(facts);
    forall k | k != UPDATED_AT
      ensures Lookup(a, k) == if k == ENABLED || k == STATUS then Lookup(upgrades, k) else Lookup(facts, k)
      ensures Lookup(b, k) == Lookup(facts, k)
    {
    }
    if Lookup(facts, ENABLED) == Lookup(upgrades, ENABLED) && Lookup(facts, STATUS) == Lookup(upgrades, STATUS) {
      forall k
        ensures Lookup(a, k) == Lookup(b, k)
      {
      }
      SameLookups(a, b);
    }
  }

  lemma SameLookups(a: Facts, b: Facts)
    requires forall k :: Lookup(a, k) == Lookup(b, k)
    ensures a == b
  {
    forall k
      ensures k in a <==> k in b
      ensures k in a ==> a[k] == b[k]
    {
      assert Lookup(a, k) == Lookup(b, k);
    }
  }

  method MergeAutoUpgradeFacts(facts: Facts, upgrades: Facts, stamp: string) returns (merged: Facts)
    ensures merged == AfterUpgrades(facts, upgrades, stamp)
  {
    var newFacts := facts - {ENABLED};
    newFacts := newFacts - {STATUS};
    newFacts := newFacts + upgrades;
    assert newFacts == Replaced(facts, upgrades);
    var equal := FactsEqualIgnoringUpdatedAt(facts, newFacts);
    if equal {
      return facts;
    }
    return newFacts[UPDATED_AT := stamp];
  }

  ghost function AfterUpgrades(facts: Facts, upgrades: Facts, stamp: string): Facts {
    if Others(Replaced(facts, upgrades)) == Others(facts) then facts else Replaced(facts, upgrades)[UPDATED_AT := stamp]
  }

  // ---------------------------------------------------------------------------
  // Many refreshes
  // ---------------------------------------------------------------------------

  /** Full: all facts are collected anew. Upgrades: only the auto-upgrade facts are. Manual: a fact
      is set from outside. A refresh that is cancelled changes nothing. */
  datatype Event =
    | Full(newFacts: Facts, now: int)
    | Upgrades(upgrades: Facts, stamp: string)
    | Manual(key: string, value: string)
    | Cancelled

  ghost function AfterFull(facts: Facts, newFacts: Facts, now: int, parse: Parser): Facts {
    newFacts[UPDATED_AT := StampOf(if NeedsStamp(facts, newFacts, now, parse) then newFacts else facts)]
  }

  ghost function Step(facts: Facts, e: Event, parse: Parser): Facts {
    match e
    case Full(newFacts, now) => AfterFull(facts, newFacts, now, parse)
    case Upgrades(upgrades, stamp) => AfterUpgrades(facts, upgrades, stamp)
    case Manual(key, value) => facts[key := value]
    case Cancelled => facts
  }

  /** What entitles an event to change the stamp. */
  ghost predicate HasReason(facts: Facts, e: Event, parse: Parser) {
    match e
    case Full(newFacts, now) => NeedsStamp(facts, newFacts, now, parse)
    case Upgrades(upgrades, _) =>
      Lookup(facts, ENABLED) != Lookup(upgrades, ENABLED) || Lookup(facts, STATUS) != Lookup(upgrades, STATUS)
    case Manual(key, _) => key == UPDATED_AT
    case Cancelled => false
  }

  ghost function Run(facts: Facts, events: seq<Event>, parse: Parser): Facts {
    if events == [] then facts else Step(Run(facts, events[..|events| - 1], parse), events[|events| - 1], parse)
  }

  lemma NoReasonKeepsStamp(facts: Facts, e: Event, parse: Parser)
    requires e.Upgrades? ==> OnlyUpgrades(e.upgrades)
    requires !HasReason(facts, e, parse)
    ensures Lookup(Step(facts, e, parse), UPDATED_AT) == Lookup(facts, UPDATED_AT)
  {
    if e.Upgrades? {
      ReplacedDiffersIff(facts, e.upgrades);
    }
  }

  /** When no other fact changed, a stamp that is a time lasts at least the minimal interval. */
  lemma StampLasts(facts: Facts, newFacts: Facts, now: int, parse: Parser, stamp: string, time: int)
    requires Lookup(facts, UPDATED_AT) == Some(stamp) && parse(stamp) == Some(time)
    requires Others(newFacts) == Others(facts) && StampOf(AfterFull(facts, newFacts, now, parse)) != stamp
    ensures now - time >= 1800
  {
    assert NeedsStamp(facts, newFacts, now, parse);
  }

  /** Between two points of any run the stamp is the same, unless some refresh between them saw
      another fact change, or found the stamp missing, invalid or old, or the stamp was set by hand. */
  lemma {:induction false} StampChangesForAReason(facts: Facts, events: seq<Event>, parse: Parser, i: nat, j: nat)
    requires forall k | 0 <= k < |events| :: events[k].Upgrades? ==> OnlyUpgrades(events[k].upgrades)
    requires i <= j <= |events|
    requires Lookup(Run(facts, events[..i], parse), UPDATED_AT) != Lookup(Run(facts, events[..j], parse), UPDATED_AT)
    ensures exists k | i <= k < j :: HasReason(Run(facts, events[..k], parse), events[k], parse)
    decreases j
  {
    TakeSnoc(events, j - 1);
    var before := Run(facts, events[..j - 1], parse);
    if !HasReason(before, events[j - 1], parse) {
      NoReasonKeepsStamp(before, events[j - 1], parse);
      StampChangesForAReason(facts, events, parse, i, j - 1);
    }
  }

  // ---------------------------------------------------------------------------
  // Every fact after a refresh
  // ---------------------------------------------------------------------------

  lemma OthersDifferIff(a: Facts, b: Facts)
    ensures Others(a) != Others(b) <==> exists k | k != UPDATED_AT :: Lookup(a, k) != Lookup(b, k)
  {
    assert forall k | k != UPDATED_AT :: Lookup(Others(a), k) == Lookup(a, k) && Lookup(Others(b), k) == Lookup(b, k);
    if forall k | k != UPDATED_AT :: Lookup(a, k) == Lookup(b, k) {
      forall k
        ensures Lookup(Others(a), k) == Lookup(Others(b), k)
      {
      }
      SameLookups(Others(a), Others(b));
    }
  }

  /** A full refresh takes every collected fact but the stamp. The stamp stays if it is a time less than
      half an hour old and no other fact changed; otherwise it is the collected one. */
  lemma AfterFullAt(facts: Facts, newFacts: Facts, now: int, parse: Parser, k: string)
    ensures k != UPDATED_AT ==> Lookup(AfterFull(facts, newFacts, now, parse), k) == Lookup(newFacts, k)
    ensures var stays := && UPDATED_AT in facts && parse(facts[UPDATED_AT]).Some?
                         && now - parse(facts[UPDATED_AT]).value < 1800
                         && forall x | x != UPDATED_AT :: Lookup(facts, x) == Lookup(newFacts, x);
            Lookup(AfterFull(facts, newFacts, now, parse), UPDATED_AT) ==
            if stays then Lookup(facts, UPDATED_AT) else if UPDATED_AT in newFacts then Lookup(newFacts, UPDATED_AT) else Some("")
  {
    OthersDifferIff(facts, newFacts);
  }

  /** An auto-upgrade refresh replaces its two facts, each of which may be gone, and sets the stamp
      exactly when one of the two changed. */
  lemma AfterUpgradesAt(facts: Facts, upgrades: Facts, stamp: string, k: string)
    requires OnlyUpgrades(upgrades)
    ensures var changed := || Lookup(facts, ENABLED) != Lookup(upgrades, ENABLED)
                           || Lookup(facts, STATUS) != Lookup(upgrades, STATUS);
            Lookup(AfterUpgrades(facts, upgrades, stamp), k) ==
            if k == UPDATED_AT then (if changed then Some(stamp) else Lookup(facts, k))
            else if k == ENABLED || k == STATUS then Lookup(upgrades, k)
            else Lookup(facts, k)
  {
    assert |UPDATED_AT| == 15 && |ENABLED| == 20 && |STATUS| == 19;
    ReplacedDiffersIff(facts, upgrades);
  }
}
