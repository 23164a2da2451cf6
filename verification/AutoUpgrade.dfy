/** The auto-upgrade status: verdicts of four checks combined with the previous value. */
module AutoUpgrade {
  import opened Common
  import opened FactsCleaning
  import opened Sorting
  import opened Strings

  const OK := "ok"
  const REPOSITORY_MISSING := "repository_missing"
  const LOCKED := "package_manager_locked"
  const DPKG_INTERRUPTED := "dpkg_interrupted"
  const RUN_NOT_FINISHED := "run_not_finished"

  const PROBLEMS := {REPOSITORY_MISSING, LOCKED, DPKG_INTERRUPTED, RUN_NOT_FINISHED}

  datatype Verdict = Unknown | Fine | Problem | Busy

  type Verdicts = map<string, Verdict>

  // ---------------------------------------------------------------------------
  // The value as text
  // ---------------------------------------------------------------------------

  /** The value that reports a set of problems. */
  ghost function Status(problems: set<string>): string {
    if problems == {} then OK else Join(SortedOf(problems), ',')
  }

  /** The problems a value reports. */
  ghost function Reported(value: string): set<string> {
    if value == "" || value == OK then {} else set p | p in Split(value, ',')
  }

  predicate CanBeListed(p: string) {
    p != "" && p != OK && ',' !in p
  }

  /** Splitting a reported value gives back exactly the problems it was made of. */
  lemma ReportedStatus(problems: set<string>)
    requires forall p | p in problems :: CanBeListed(p)
    ensures Reported(Status(problems)) == problems
    ensures Status(problems) != ""
  {
    if problems != {} {
      var names := SortedOf(problems);
      assert names != [] by {
        var p :| p in problems;
        assert p in names;
      }
      SplitJoin(names, ',');
      assert CanBeListed(names[0]);
      SplitPart("", "", ',');
      SplitPart(OK, "", ',');
      assert names != [""] && names != [OK];
    }
  }

  // ---------------------------------------------------------------------------
  // Combining
  // ---------------------------------------------------------------------------

  /** The problems to report: those found, and earlier ones whose check did not answer or was
      skipped. */
  ghost function Combined(verdicts: Verdicts, previous: string): set<string> {
    set p | p in verdicts && (verdicts[p] == Problem || (verdicts[p] != Fine && p in Reported(previous)))
  }

  ghost predicate Unanswered(verdicts: Verdicts, previous: string) {
    previous == "" && exists p | p in verdicts :: verdicts[p] == Unknown
  }

  /** Without a previous value, a check that gave no answer is not taken for fine. */
  ghost function Combine(verdicts: Verdicts, previous: string): Result<string> {
    if Combined(verdicts, previous) == {} && Unanswered(verdicts, previous) then Failure
    else Success(Status(Combined(verdicts, previous)))
  }

  /** There is no value exactly when there was none before, some check gave no answer, and no check
      found a problem. */
  lemma CombineFailsIff(verdicts: Verdicts, previous: string)
    ensures Combine(verdicts, previous).Failure? <==>
            && previous == "" && (exists p | p in verdicts :: verdicts[p] == Unknown)
            && forall p | p in verdicts :: verdicts[p] != Problem
  {
    var problems := Combined(verdicts, previous);
    if previous == "" {
      assert forall p :: p in problems <==> p in verdicts && verdicts[p] == Problem;
    }
  }

  /** Any other value lists, in order, the problems found and the earlier ones whose check did not say
      they are gone. */
  lemma CombinedValue(verdicts: Verdicts, previous: string, names: seq<string>)
    requires Combine(verdicts, previous).Success? && Ascending(names)
    requires forall p :: p in names <==>
                         && p in verdicts
                         && (verdicts[p] == Problem
                             || (verdicts[p] != Fine && previous != "" && previous != "ok" && p in Split(previous, ',')))
    ensures Combine(verdicts, previous).value == if names == [] then "ok" else Join(names, ',')
  {
    var problems := Combined(verdicts, previous);
    assert Sorts(names, problems);
    SortedOnce(names, SortedOf(problems), problems);
    assert problems != {} ==> names != [] by {
      if p :| p in problems {
        assert p in names;
      }
    }
    assert names != [] ==> names[0] in problems;
  }

  /** The loop over the verdicts, in any order. */
  method CombineVerdicts(verdicts: Verdicts, previous: string) returns (r: Result<string>)
    ensures r == Combine(verdicts, previous)
    ensures r.Failure? <==>
            && previous == "" && (exists p | p in verdicts :: verdicts[p] == Unknown)
            && forall p | p in verdicts :: verdicts[p] != Problem
  {
    var previousProblems: seq<string> := [];
    if previous != "" && previous != OK {
      previousProblems := Split(previous, ',');
    }
    assert forall p :: p in previousProblems <==> p in Reported(previous);
    // The keys of the map are distinct, so the list of problems is kept as a set until it is sorted.
    var problems: set<string> := {};
    var unanswered := false;
    var todo := verdicts.Keys;
    while todo != {}
      invariant todo <= verdicts.Keys
      invariant problems == Combined(verdicts - todo, previous)
      invariant unanswered <==> Unanswered(verdicts - todo, previous)
    {
      var problem :| problem in todo;
      ghost var before, after := verdicts - todo, verdicts - (todo - {problem});
      assert after == before[problem := verdicts[problem]];
      UnansweredNext(before, problem, verdicts[problem], previous);
      match verdicts[problem] {
        case Problem =>
          problems := problems + {problem};
        case Unknown =>
          if previous == "" {
            unanswered := true;
          } else if problem in previousProblems {
            problems := problems + {problem};
          }
        case Busy =>
          if problem in previousProblems {
            problems := problems + {problem};
          }
        case Fine =>
      }
      todo := todo - {problem};
    }
    assert verdicts - todo == verdicts;
    CombineFailsIff(verdicts, previous);
    if problems == {} {
      if unanswered {
        return Failure;
      }
      return Success(OK);
    }
    var names := SortStrings(problems);
    SortedOnce(names, SortedOf(problems), problems);
    return Success(Join(names, ','));
  }

  lemma UnansweredNext(verdicts: Verdicts, problem: string, verdict: Verdict, previous: string)
    requires problem !in verdicts
    ensures Unanswered(verdicts[problem := verdict], previous) <==>
            Unanswered(verdicts, previous) || (previous == "" && verdict == Unknown)
  {
    var longer := verdicts[problem := verdict];
    assert longer[problem] == verdict;
    if Unanswered(verdicts, previous) {
      var p :| p in verdicts && verdicts[p] == Unknown;
      assert longer[p] == Unknown;
    }
  }

  // ---------------------------------------------------------------------------
  // The checks
  // ---------------------------------------------------------------------------

  datatype Answer = Failed | Answered(found: bool)

  datatype Repository = RepositoryFailed | UnknownPackage | Missing | Provided

  /** unknown: some lock could not be checked. holder: None, or whether the holder is stuck. */
  datatype Locks = LocksFailed | Locks(unknown: bool, holder: Option<bool>)

  function Recorded(a: Answer): Verdict {
    match a
    case Failed => Unknown
    case Answered(found) => if found then Problem else Fine
  }

  /** What the four checks say, by the problem they look for. */
  datatype Findings = Findings(repository: Verdict, locked: Verdict, dpkg: Verdict, run: Verdict) {

    function AsMap(): Verdicts {
      map[REPOSITORY_MISSING := repository, LOCKED := locked, DPKG_INTERRUPTED := dpkg, RUN_NOT_FINISHED := run]
    }
  }

  /** Every check has its verdict under the problem it looks for. */
  lemma FindingsCoverProblems(f: Findings)
    ensures f.AsMap().Keys == PROBLEMS
    ensures f.AsMap()[REPOSITORY_MISSING] == f.repository && f.AsMap()[LOCKED] == f.locked
    ensures f.AsMap()[DPKG_INTERRUPTED] == f.dpkg && f.AsMap()[RUN_NOT_FINISHED] == f.run
  {
    assert |REPOSITORY_MISSING| == 18 && |LOCKED| == 22 && |DPKG_INTERRUPTED| == |RUN_NOT_FINISHED| == 16;
    assert DPKG_INTERRUPTED[0] != RUN_NOT_FINISHED[0];
  }

  /** A held lock is a problem only when its holder is stuck. While a lock is or may be held the
      dpkg check does not look, since a running dpkg looks like an interrupted one. */
  ghost predicate Finds(f: Findings, repository: Repository, locks: Locks, dpkg: Answer, run: Answer) {
    && (f.repository == Problem <==> repository == Missing) && (f.repository == Fine <==> repository == Provided)
    && (f.locked == Problem <==> locks.Locks? && locks.holder == Some(true))
    && (f.locked == Fine <==> locks.Locks? && !locks.unknown && locks.holder != Some(true))
    && (f.dpkg == Busy <==> locks.Locks? && !locks.unknown && locks.holder.Some?)
    && (f.dpkg == Problem <==> locks == Locks(false, None) && dpkg == Answered(true))
    && (f.dpkg == Fine <==> locks == Locks(false, None) && dpkg == Answered(false))
    && (f.run == Problem <==> run == Answered(true)) && (f.run == Fine <==> run == Answered(false))
    && f.repository != Busy && f.locked != Busy && f.run != Busy
  }

  /** The success with an empty value stands for a system the checks do not apply to. */
  method CheckStatus(apt: bool, repository: Repository, locks: Locks, dpkg: Answer, run: Answer, previous: string)
    returns (r: Result<string>, findings: Option<Findings>)
    ensures findings.None? <==> !apt || repository == UnknownPackage
    ensures findings.None? ==> r == Success("")
    ensures findings.Some? ==> Finds(findings.value, repository, locks, dpkg, run)
    ensures findings.Some? ==> r == Combine(findings.value.AsMap(), previous)
  {
    if !apt || repository == UnknownPackage {
      return Success(""), None;
    }
    var f := Findings(Unknown, Unknown, Unknown, Unknown);
    f := f.(repository := Recorded(if repository.RepositoryFailed? then Failed else Answered(repository.Missing?)));
    var stuck := locks.Locks? && locks.holder == Some(true);
    if locks.Locks? && locks.unknown && !stuck {
      f := f.(locked := Unknown);
    } else {
      f := f.(locked := Recorded(if locks.LocksFailed? then Failed else Answered(stuck)));
    }
    if locks.LocksFailed? || locks.unknown {
      f := f.(dpkg := Unknown);
    } else if locks.holder.Some? {
      f := f.(dpkg := Busy);
    } else {
      f := f.(dpkg := Recorded(dpkg));
    }
    f := f.(run := Recorded(run));
    r := CombineVerdicts(f.AsMap(), previous);
    findings := Some(f);
  }

  // ---------------------------------------------------------------------------
  // Cleaning
  // ---------------------------------------------------------------------------

  lemma {:induction false} JoinedChars(parts: seq<string>, c: char)
    requires c in Join(parts, ',')
    ensures c == ',' || exists i | 0 <= i < |parts| :: c in parts[i]
  {
    if |parts| > 1 && c != ',' && c !in parts[0] {
      JoinedChars(parts[1..], c);
      var i :| 0 <= i < |parts[1..]| && c in parts[1..][i];
      assert c in parts[i + 1];
    } else if |parts| >= 1 {
      assert c != ',' ==> c in parts[0];
    }
  }

  lemma {:induction false} JoinedLength(parts: seq<string>, most: nat)
    requires forall i | 0 <= i < |parts| :: |parts[i]| <= most
    ensures |Join(parts, ',')| <= |parts| * (most + 1)
  {
    if |parts| > 1 {
      JoinedLength(parts[1..], most);
      assert |parts| * (most + 1) == (|parts| - 1) * (most + 1) + most + 1;
    }
  }

  lemma {:induction false} AtMostAll(names: seq<string>, keys: set<string>)
    requires Ascending(names) && forall i | 0 <= i < |names| :: names[i] in keys
    ensures |names| <= |keys|
  {
    if names != [] {
      var n := |names| - 1;
      NotBoth(names[n], names[n]);
      AtMostAll(names[..n], keys - {names[n]});
    }
  }

  ghost predicate ShortName(p: string) {
    CanBeListed(p) && |p| <= 22 && forall i | 0 <= i < |p| :: Plain(p[i])
  }

  lemma LongNames()
    ensures ShortName(REPOSITORY_MISSING) && ShortName(LOCKED)
  {
  }

  lemma OtherNames()
    ensures ShortName(DPKG_INTERRUPTED) && ShortName(RUN_NOT_FINISHED)
  {
  }

  lemma ProblemNames(p: string)
    requires p in PROBLEMS
    ensures ShortName(p)
  {
    LongNames();
    OtherNames();
  }

  lemma NoBlankInStatus(problems: set<string>, i: nat)
    requires forall p | p in problems :: ShortName(p)
    requires i < |Status(problems)|
    ensures Plain(Status(problems)[i])
  {
    var v := Status(problems);
    if problems != {} {
      JoinedChars(SortedOf(problems), v[i]);
    }
  }

  lemma StatusIsShort(problems: set<string>)
    requires |problems| <= 4 && forall p | p in problems :: ShortName(p)
    ensures |Status(problems)| < 100
  {
    if problems != {} {
      var names := SortedOf(problems);
      AtMostAll(names, problems);
      JoinedLength(names, 22);
      assert |names| * 23 <= 4 * 23;
    }
  }

  lemma SmallerSubset(a: set<string>, b: set<string>)
    requires a <= b
    ensures |a| <= |b|
  {
    assert b == a + (b - a);
  }

  lemma AtMostFour(a: string, b: string, c: string, d: string)
    ensures |{a, b, c, d}| <= 4
  {
  }

  /** Cleaning leaves every value alone that the checks can give. */
  lemma StatusIsClean(problems: set<string>)
    requires problems <= PROBLEMS
    ensures CleanValue(Status(problems)) == Some(Status(problems))
  {
    forall p | p in problems
      ensures ShortName(p)
    {
      ProblemNames(p);
    }
    AtMostFour(REPOSITORY_MISSING, LOCKED, DPKG_INTERRUPTED, RUN_NOT_FINISHED);
    SmallerSubset(problems, PROBLEMS);
    ReportedStatus(problems);
    StatusIsShort(problems);
    NoBlankInStatus(problems, 0);
    NoBlankInStatus(problems, |Status(problems)| - 1);
    PlainIsNoBlank(Status(problems));
    CleanKeeps(Status(problems));
  }

  // ---------------------------------------------------------------------------
  // Many refreshes
  // ---------------------------------------------------------------------------

  /** Cancelled: the facts are left as they are. NotApplicable: no status is reported. Checked: the
      checks ran, and a full refresh also cleans all facts. */
  datatype Refresh = Cancelled | NotApplicable | Checked(verdicts: Verdicts, full: bool)

  /** The stored value, "" when there is none. */
  ghost function After(stored: string, r: Refresh): string {
    match r
    case Cancelled => stored
    case NotApplicable => ""
    case Checked(verdicts, full) =>
      match Combine(verdicts, stored)
      case Failure => ""
      case Success(value) => if !full then value else if CleanValue(value).Some? then CleanValue(value).value else ""
  }

  ghost predicate AllChecked(refreshes: seq<Refresh>) {
    forall i | 0 <= i < |refreshes| :: refreshes[i].Checked? ==> refreshes[i].verdicts.Keys == PROBLEMS
  }

  ghost function Stored(refreshes: seq<Refresh>): string {
    if refreshes == [] then "" else After(Stored(refreshes[..|refreshes| - 1]), refreshes[|refreshes| - 1])
  }

  ghost predicate Proper(stored: string) {
    Reported(stored) <= PROBLEMS && (stored == "" || stored == Status(Reported(stored)))
  }

  lemma ReportedProblems(problems: set<string>)
    requires problems <= PROBLEMS
    ensures Reported(Status(problems)) == problems && Status(problems) != "" && Proper(Status(problems))
  {
    forall p | p in problems
      ensures CanBeListed(p)
    {
      ProblemNames(p);
    }
    ReportedStatus(problems);
  }

  /** What a refresh reports: found problems, and earlier ones whose check did not say they are
      gone. With an earlier value it always reports something. */
  lemma CheckedReports(stored: string, verdicts: Verdicts, full: bool)
    requires Proper(stored) && verdicts.Keys == PROBLEMS
    ensures var value := After(stored, Checked(verdicts, full));
            && Proper(value) && Reported(value) == Combined(verdicts, stored)
            && (stored != "" ==> value != "" && Combine(verdicts, stored).Success?)
  {
    var problems := Combined(verdicts, stored);
    ReportedProblems(problems);
    StatusIsClean(problems);
  }

  lemma {:induction false} StoredIsProper(refreshes: seq<Refresh>)
    requires AllChecked(refreshes)
    ensures Proper(Stored(refreshes))
  {
    if refreshes != [] {
      var n := |refreshes| - 1;
      StoredIsProper(refreshes[..n]);
      if refreshes[n].Checked? {
        CheckedReports(Stored(refreshes[..n]), refreshes[n].verdicts, refreshes[n].full);
      }
    }
  }

  /** The refresh keeps a reported problem. */
  predicate Keeps(r: Refresh, p: string) {
    r.Cancelled? || (r.Checked? && p in r.verdicts && r.verdicts[p] != Fine)
  }

  predicate FindsProblem(r: Refresh, p: string) {
    r.Checked? && p in r.verdicts && r.verdicts[p] == Problem
  }

  ghost predicate FoundAndKept(refreshes: seq<Refresh>, p: string) {
    exists i | 0 <= i < |refreshes| ::
      FindsProblem(refreshes[i], p) && forall j | i < j < |refreshes| :: Keeps(refreshes[j], p)
  }

  lemma FoundAndKeptNext(refreshes: seq<Refresh>, p: string)
    requires refreshes != []
    ensures var n := |refreshes| - 1;
            FoundAndKept(refreshes, p) <==>
            FindsProblem(refreshes[n], p) || (FoundAndKept(refreshes[..n], p) && Keeps(refreshes[n], p))
  {
    var n := |refreshes| - 1;
    var front := refreshes[..n];
    if FoundAndKept(front, p) && Keeps(refreshes[n], p) {
      var i :| 0 <= i < n && FindsProblem(front[i], p) && forall j | i < j < n :: Keeps(front[j], p);
      assert FindsProblem(refreshes[i], p) && forall j | i < j < n :: refreshes[j] == front[j];
    }
    if FoundAndKept(refreshes, p) {
      var i :| 0 <= i <= n && FindsProblem(refreshes[i], p) && forall j | i < j <= n :: Keeps(refreshes[j], p);
      if i < n {
        assert FindsProblem(front[i], p) && forall j | i < j < n :: refreshes[j] == front[j];
      }
    }
  }

  /** Over any sequence of refreshes a problem is reported exactly when its own check found it and
      has not answered fine since, as long as the checks apply. */
  lemma {:induction false} ReportedIffFoundAndKept(refreshes: seq<Refresh>, p: string)
    requires AllChecked(refreshes)
    ensures p in Reported(Stored(refreshes)) <==> FoundAndKept(refreshes, p)
  {
    if refreshes != [] {
      var n := |refreshes| - 1;
      ReportedIffFoundAndKept(refreshes[..n], p);
      StoredIsProper(refreshes[..n]);
      FoundAndKeptNext(refreshes, p);
      if refreshes[n].Checked? {
        CheckedReports(Stored(refreshes[..n]), refreshes[n].verdicts, refreshes[n].full);
      }
    }
  }

  lemma ValueStaysOnce(stored: string, r: Refresh)
    requires Proper(stored) && stored != "" && !r.NotApplicable?
    requires r.Checked? ==> r.verdicts.Keys == PROBLEMS
    ensures After(stored, r) != ""
    ensures r.Checked? ==> Combine(r.verdicts, stored).Success?
  {
    if r.Checked? {
      CheckedReports(stored, r.verdicts, r.full);
    }
  }

  /** Once a value is stored, combining never fails and a value stays stored, until the checks no
      longer apply. */
  lemma {:induction false} ValueStays(refreshes: seq<Refresh>, i: nat, j: nat)
    requires AllChecked(refreshes) && i <= j < |refreshes| && Stored(refreshes[..i]) != ""
    requires forall k | i <= k <= j :: !refreshes[k].NotApplicable?
    ensures Stored(refreshes[..j]) != "" && Stored(refreshes[..j + 1]) != ""
    ensures refreshes[j].Checked? ==> Combine(refreshes[j].verdicts, Stored(refreshes[..j])).Success?
    decreases j
  {
    if i < j {
      ValueStays(refreshes, i, j - 1);
    }
    TakeSnoc(refreshes, j);
    StoredIsProper(refreshes[..j]);
    ValueStaysOnce(Stored(refreshes[..j]), refreshes[j]);
  }
}
