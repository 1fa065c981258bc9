/**
 * scripts/check_comment_policy.py, the transition run of `main`: which files are scanned on
 * both sides, what makes the run pass, and what chains of passing runs guarantee for the
 * findings in the whole tree.
 */
module PolicyGate {
  import opened Wrappers
  import opened RepoPaths
  import opened PolicyFindings
  import opened PolicyExceptions
  import opened PolicyBudgetLaws
  import opened PolicyDates
  import opened PolicyReorder
  import opened PolicyRatchet

  const POLICY_PATH: string := "quality/comment-policy.json"

  /** A state of the repository: its files, and those that `source_paths` registers as source. */
  datatype Snapshot = Snapshot(files: map<string, string>, paths: seq<string>, sources: seq<string>) {
    ghost predicate Valid() {
      && Distinct(paths) && (forall p :: p in paths <==> p in files)
      && Distinct(sources) && (forall p :: p in sources ==> p in files)
    }
  }

  /**
   * One transition run: from the base commit to the candidate, on one day. `owned` is the set
   * that the trusted ownership policy excludes, if there is one, and `noticesKept` says that
   * its protected notices are unchanged; `changed` is git's diff together with the untracked
   * files; `present` has the well-formed paths of all files below the root.
   */
  datatype Change = Change(before: Snapshot, baseline: Policy, after: Snapshot, policy: Policy, changed: set<string>,
                           owned: Option<set<string>>, noticesKept: bool, present: set<string>, today: int)

  // ---- what a run looks at ----

  /** The path is in the scope of an exception or external entry that the candidate dropped. */
  predicate InRevoked(c: Change, path: string) {
    || (exists e :: e in c.baseline.exceptions && e !in c.policy.exceptions && InScope(path, e.path))
    || (exists e :: e in c.baseline.external && e !in c.policy.external && InScope(path, e.path))
  }

  predicate InCompleted(policy: Policy, path: string) {
    exists scope :: scope in policy.completed && InScope(path, scope)
  }

  predicate IsScanned(c: Change, path: string) {
    path in c.changed || InCompleted(c.policy, path) || InRevoked(c, path)
  }

  function Scanned(c: Change): seq<string> {
    Filter(c.after.sources, path => IsScanned(c, path))
  }

  predicate InExternal(policy: Policy, path: string) {
    exists e :: e in policy.external && InScope(path, e.path)
  }

  /** Exclusion on the candidate's side: a file that is new stays in, even below an external entry. */
  predicate AfterSkips(c: Change, path: string) {
    if c.owned.Some? then path in c.owned.value else InExternal(c.policy, path) && path in c.before.files
  }

  predicate BeforeSkips(c: Change, path: string) {
    if c.owned.Some? then path in c.owned.value else InExternal(c.baseline, path)
  }

  /** The candidate's exceptions that the base has too. */
  function Retained(c: Change): seq<Exemption> {
    Filter(c.policy.exceptions, e => e in c.baseline.exceptions)
  }

  /** `expired_policy_findings`. */
  function ExpiredFindings(exemptions: seq<Exemption>, all: seq<Exemption>, today: int): seq<Finding> {
    if exemptions == [] then []
    else
      var e := exemptions[0];
      (if Live(e, all, today) then [] else [PolicyError(e)]) + ExpiredFindings(exemptions[1..], all, today)
  }

  function PolicyError(e: Exemption): Finding {
    Finding(POLICY_PATH, 1, "policy-error", "", "expired directive exception: " + e.path + " " + e.text, "")
  }

  function Expired(policy: Policy, today: int): seq<Finding> {
    ExpiredFindings(policy.exceptions, policy.exceptions, today)
  }

  function AfterPaths(c: Change): seq<string> {
    Filter(Scanned(c), p => !AfterSkips(c, p))
  }

  function BeforePaths(c: Change): seq<string> {
    Filter(Filter(c.before.paths, p => p in Scanned(c)), p => !BeforeSkips(c, p))
  }

  /** The findings of the candidate's side of the run. */
  function Current(sc: Scanner, c: Change): seq<Finding>
    requires forall p :: p in c.after.sources ==> p in c.after.files
  {
    Expired(c.policy, c.today) + ScanResult(sc, c.after.files, AfterPaths(c), Retained(c), c.today)
  }

  /** The findings of the base's side: the same files, under the base's exceptions, on the same day. */
  function Baseline(sc: Scanner, c: Change): seq<Finding>
    requires forall p :: p in c.before.paths ==> p in c.before.files
  {
    Expired(c.baseline, c.today) + ScanResult(sc, c.before.files, BeforePaths(c), c.baseline.exceptions, c.today)
  }

  // ---- when a run passes ----

  /** The policy loads. */
  predicate Loads(policy: Policy) {
    LoadedExceptions(policy.exceptions) && NoOverlap(policy)
  }

  /** The policy file changed and has expired exceptions. */
  predicate OwnerFailure(c: Change) {
    POLICY_PATH in c.changed && Expired(c.policy, c.today) != []
  }

  /** `validate_consumers`: the files that justify exceptions and external entries exist. */
  predicate IsJustified(c: Change) {
    && (forall e :: e in c.policy.exceptions ==> e.consumer in c.present)
    && (forall e :: e in c.policy.external ==> e.provenance in c.present)
  }

  /** The run is not refused for its configuration. */
  ghost predicate Runs(c: Change) {
    && Loads(c.policy) && Loads(c.baseline) && c.noticesKept && Ratchets(c.policy, c.baseline)
    && c.after.sources != [] && IsJustified(c)
  }

  ghost predicate Passes(sc: Scanner, c: Change)
    requires c.before.Valid() && c.after.Valid()
  {
    && Runs(c) && !OwnerFailure(c)
    && (c.baseline.enforcement == Blocking ==> NothingIntroduced(Current(sc, c), Baseline(sc, c), c.policy.completed))
  }

  datatype Mode = Strict | Transition | Report

  /** `exit_status`. */
  function ExitStatus(mode: Mode, baseline: Policy, failed: seq<Finding>, ownerFailure: bool): (status: int)
    ensures status == 0 <==> failed == [] || mode == Report ||
                             (mode == Transition && !ownerFailure && baseline.enforcement == Advisory)
    ensures 0 <= status <= 1
  {
    if ownerFailure && mode == Transition then if failed != [] then 1 else 0
    else
      var rejects := failed != [] && mode != Report;
      if !(rejects && mode == Transition && baseline.enforcement == Advisory) then if rejects then 1 else 0
      else 0
  }

  /**
   * `main` in transition mode: status 2 for a refused configuration, otherwise the exit status
   * for the introduced findings and the expired exceptions of a changed policy.
   */
  method RunTransition(sc: Scanner, c: Change) returns (status: int)
    requires c.before.Valid() && c.after.Valid()
    ensures status == 0 <==> Passes(sc, c)
    ensures status == 2 <==> !Runs(c)
    ensures 0 <= status <= 2
  {
    if !Loads(c.policy) || !c.noticesKept || !Loads(c.baseline) {
      return 2;
    }
    var verdict := CheckRatchet(c.policy, c.baseline);
    if verdict != Accepted {
      return 2;
    }
    if c.after.sources == [] || !IsJustified(c) {
      return 2;
    }
    var failed := CompareSides(sc, c);
    if POLICY_PATH in c.changed {
      failed := ExtendFailed(failed, Expired(c.policy, c.today));
    }
    status := ExitStatus(Transition, c.baseline, failed, OwnerFailure(c));
  }

  /** The findings the candidate introduces. */
  method CompareSides(sc: Scanner, c: Change) returns (failed: seq<Finding>)
    requires c.before.Valid() && c.after.Valid()
    ensures failed == [] <==> NothingIntroduced(Current(sc, c), Baseline(sc, c), c.policy.completed)
  {
    var scanned := Scanned(c);
    var current := CurrentSide(sc, c, scanned);
    var baseline := BaselineSide(sc, c, scanned);
    ghost var mask;
    failed, mask := Introduced(current, baseline, c.policy.completed);
    EmptyIffNothingIntroduced(current, baseline, c.policy.completed, failed, mask);
  }

  method CurrentSide(sc: Scanner, c: Change, scanned: seq<string>) returns (current: seq<Finding>)
    requires c.after.Valid() && scanned == Scanned(c)
    ensures current == Current(sc, c)
  {
    var skips := p => AfterSkips(c, p);
    var found := ScanSources(sc, c.after.files, scanned, skips, Retained(c), c.today);
    FilterSame(scanned, p => !skips(p), p => !AfterSkips(c, p));
    return Expired(c.policy, c.today) + found;
  }

  method BaselineSide(sc: Scanner, c: Change, scanned: seq<string>) returns (baseline: seq<Finding>)
    requires c.before.Valid() && scanned == Scanned(c)
    ensures baseline == Baseline(sc, c)
  {
    var sources := Filter(c.before.paths, p => p in scanned);
    FilterSame(c.before.paths, p => p in scanned, p => p in Scanned(c));
    var skips := p => BeforeSkips(c, p);
    var found := ScanSources(sc, c.before.files, sources, skips, c.baseline.exceptions, c.today);
    FilterSame(sources, p => !skips(p), p => !BeforeSkips(c, p));
    return Expired(c.baseline, c.today) + found;
  }

  /** The expired exceptions that are not among the failures yet are added to them. */
  method ExtendFailed(failed: seq<Finding>, expired: seq<Finding>) returns (all: seq<Finding>)
    ensures all == [] <==> failed == [] && expired == []
  {
    all := failed;
    for i := 0 to |expired|
      invariant all == [] <==> failed == [] && i == 0
    {
      if expired[i] !in failed {
        all := all + [expired[i]];
      }
    }
  }

  // ---- the findings in the whole tree ----

  ghost function CountIn(findings: seq<Finding>, id: Identity): nat {
    Identities(findings)[id]
  }

  /** How often the candidate's tree has an identity, whether its file is scanned or not. */
  ghost function AfterCount(sc: Scanner, c: Change, id: Identity): nat
    requires c.after.Valid()
  {
    CountIn(Expired(c.policy, c.today), id) +
    if id.0 in c.after.sources && !AfterSkips(c, id.0)
    then CountIn(FileReport(sc, id.0, c.after.files[id.0], Retained(c), c.today), id)
    else 0
  }

  /** How often the base's tree has it in files that are still source files, on the day of the run. */
  ghost function BeforeCount(sc: Scanner, c: Change, id: Identity): nat
    requires c.after.Valid()
  {
    CountIn(Expired(c.baseline, c.today), id) +
    if id.0 in c.after.sources && id.0 in c.before.files && !BeforeSkips(c, id.0)
    then CountIn(FileReport(sc, id.0, c.before.files[id.0], c.baseline.exceptions, c.today), id)
    else 0
  }

  /** Git's diff names every path at which the two sides differ. */
  ghost predicate DiffIsComplete(c: Change) {
    forall p :: p in c.after.files && p !in c.changed ==> p in c.before.files && c.before.files[p] == c.after.files[p]
  }

  /** The exceptions for one file. */
  function OwnExceptions(exemptions: seq<Exemption>, path: string): seq<Exemption> {
    Filter(exemptions, (e: Exemption) => e.path == path)
  }

  /**
   * For the files it does not scan, the candidate lists as much general budget before each
   * fixture entry as the base does.
   */
  ghost predicate OrderKept(c: Change) {
    forall p :: p in c.after.sources && !IsScanned(c, p) && !AfterSkips(c, p) ==>
                  SameAhead(OwnExceptions(Retained(c), p), OwnExceptions(c.baseline.exceptions, p), c.today)
  }

  lemma FilterValid<T(!new)>(s: seq<T>, keep: T -> bool)
    requires Distinct(s)
    ensures Distinct(Filter(s, keep)) && forall x :: x in Filter(s, keep) ==> x in s
  {
    FilterDistinct(s, keep);
  }

  /** The lists a run compares, counted by identity. */
  lemma SidesCounted(sc: Scanner, c: Change, id: Identity)
    requires c.before.Valid() && c.after.Valid()
    ensures CountIn(Current(sc, c), id) ==
            CountIn(Expired(c.policy, c.today), id) +
            if id.0 in AfterPaths(c) then CountIn(FileReport(sc, id.0, c.after.files[id.0], Retained(c), c.today), id)
            else 0
    ensures CountIn(Baseline(sc, c), id) ==
            CountIn(Expired(c.baseline, c.today), id) +
            if id.0 in BeforePaths(c)
            then CountIn(FileReport(sc, id.0, c.before.files[id.0], c.baseline.exceptions, c.today), id)
            else 0
  {
    FilterValid(c.after.sources, path => IsScanned(c, path));
    FilterValid(Scanned(c), p => !AfterSkips(c, p));
    FilterValid(c.before.paths, p => p in Scanned(c));
    FilterValid(Filter(c.before.paths, p => p in Scanned(c)), p => !BeforeSkips(c, p));
    ScanActsFileByFile(sc, c.after.files, AfterPaths(c), Retained(c), c.today, id);
    ScanActsFileByFile(sc, c.before.files, BeforePaths(c), c.baseline.exceptions, c.today, id);
    IdentitiesSplit(Expired(c.policy, c.today), ScanResult(sc, c.after.files, AfterPaths(c), Retained(c), c.today));
    IdentitiesSplit(Expired(c.baseline, c.today),
                    ScanResult(sc, c.before.files, BeforePaths(c), c.baseline.exceptions, c.today));
  }

  /** Only the exceptions for its own path count for a file. */
  lemma OwnExceptionsCount(sc: Scanner, path: string, text: string, exemptions: seq<Exemption>, today: int)
    requires LoadedExceptions(exemptions)
    ensures FileReport(sc, path, text, exemptions, today) ==
            FileReport(sc, path, text, OwnExceptions(exemptions, path), today)
  {
    var keep := (e: Exemption) => e.path == path;
    var own := OwnExceptions(exemptions, path);
    FilterSame(exemptions, (e: Exemption) => e.path == path, keep);
    assert [] + exemptions == exemptions && [] + Filter(exemptions, keep) == own;
    ForeignExceptionsDoNotCount(exemptions, own, [], exemptions, keep, today, SeenIn(sc, path, text), path);
  }

  lemma {:induction false} LoadedFilter(exemptions: seq<Exemption>, keep: Exemption -> bool)
    requires LoadedExceptions(exemptions)
    ensures LoadedExceptions(Filter(exemptions, keep))
  {
    if exemptions != [] {
      var x, rest := exemptions[0], exemptions[1..];
      assert forall e :: e in rest ==> e in exemptions;
      LoadedFilter(rest, keep);
      var kept := Filter(rest, keep);
      forall j | 0 <= j < |kept|
        ensures IdentityOf(x) != IdentityOf(kept[j])
      {
        assert kept[j] in kept && kept[j] in rest;
      }
    }
  }

  /** For a file that is not scanned the candidate keeps the exceptions of the base, in any order. */
  lemma UnscannedIsReordered(c: Change, path: string)
    requires Loads(c.baseline) && Loads(c.policy) && !IsScanned(c, path)
    ensures Reordered(OwnExceptions(Retained(c), path), OwnExceptions(c.baseline.exceptions, path))
  {
    LoadedFilter(c.policy.exceptions, e => e in c.baseline.exceptions);
    LoadedFilter(Retained(c), (e: Exemption) => e.path == path);
    LoadedFilter(c.baseline.exceptions, (e: Exemption) => e.path == path);
  }

  /** A source file that the run does not scan is unchanged, and no less visible before. */
  lemma UnscannedIsUnchanged(c: Change, path: string)
    requires c.after.Valid() && DiffIsComplete(c)
    requires path in c.after.sources && !IsScanned(c, path) && !AfterSkips(c, path)
    ensures path in c.before.files && c.before.files[path] == c.after.files[path] && !BeforeSkips(c, path)
  {
  }

  /** Only the exceptions for its own path count, on both sides. */
  lemma SidesByOwnExceptions(sc: Scanner, c: Change, path: string, text: string)
    requires Loads(c.baseline) && Loads(c.policy)
    ensures FileReport(sc, path, text, Retained(c), c.today) ==
            FileReport(sc, path, text, OwnExceptions(Retained(c), path), c.today)
    ensures FileReport(sc, path, text, c.baseline.exceptions, c.today) ==
            FileReport(sc, path, text, OwnExceptions(c.baseline.exceptions, path), c.today)
  {
    LoadedFilter(c.policy.exceptions, e => e in c.baseline.exceptions);
    OwnExceptionsCount(sc, path, text, Retained(c), c.today);
    OwnExceptionsCount(sc, path, text, c.baseline.exceptions, c.today);
  }

  /** A source file that the run does not scan reports what it did. */
  lemma UnscannedKeepsItsCount(sc: Scanner, c: Change, path: string)
    requires c.before.Valid() && c.after.Valid() && DiffIsComplete(c) && OrderKept(c)
    requires Loads(c.baseline) && Loads(c.policy)
    requires path in c.after.sources && !IsScanned(c, path) && !AfterSkips(c, path)
    ensures path in c.before.files && !BeforeSkips(c, path)
    ensures FileReport(sc, path, c.after.files[path], Retained(c), c.today) ==
            FileReport(sc, path, c.before.files[path], c.baseline.exceptions, c.today)
  {
    var text := c.after.files[path];
    UnscannedIsUnchanged(c, path);
    UnscannedIsReordered(c, path);
    SidesByOwnExceptions(sc, c, path, text);
    SameReportsInOrder(SeenIn(sc, path, text), OwnExceptions(Retained(c), path),
                       OwnExceptions(c.baseline.exceptions, path), c.today);
  }

  /** Every identity is at most as frequent in the whole tree after a passing run as before it. */
  lemma FindingsDoNotRise(sc: Scanner, c: Change, id: Identity)
    requires c.before.Valid() && c.after.Valid() && DiffIsComplete(c) && OrderKept(c)
    requires Passes(sc, c) && c.baseline.enforcement == Blocking
    ensures AfterCount(sc, c, id) <= BeforeCount(sc, c, id)
  {
    SidesCounted(sc, c, id);
    assert CountIn(Current(sc, c), id) <= CountIn(Baseline(sc, c), id);
    if id.0 in c.after.sources && !IsScanned(c, id.0) && !AfterSkips(c, id.0) {
      UnscannedKeepsItsCount(sc, c, id.0);
    }
  }

  /** The scanner, except for what it finds in one file. */
  ghost function Planted(sc: Scanner, path: string, marks: seq<Mark>): Scanner {
    Scanner((p, text) => if p == path then Decoded("python", "", marks) else sc.read(p, text), sc.otherCodec)
  }

  function MarksOf(seen: seq<Seen>): seq<Mark> {
    if seen == [] then []
    else
      var f := seen[0].finding;
      [Mark(f.line, f.kind, f.symbol, f.text, f.payload)] + MarksOf(seen[1..])
  }

  lemma {:induction false} PlainMarks(seen: seq<Seen>, path: string, other: string -> bool)
    requires Plain(seen, path)
    ensures SeenMarks(path, "python", "", MarksOf(seen), other) == seen
  {
    if seen != [] {
      assert seen[0] in seen && forall s :: s in seen[1..] ==> s in seen;
      PlainMarks(seen[1..], path, other);
      var s := seen[0];
      var f := s.finding;
      assert s == Seen(Finding(path, 3, f.kind, f.symbol, f.text, f.payload), Undecided);
      assert MarksOf(seen)[1..] == MarksOf(seen[1..]);
    }
  }

  lemma {:induction false} PlantedElsewhere(sc: Scanner, path: string, marks: seq<Mark>, files: map<string, string>,
                                            paths: seq<string>)
    requires path !in paths && forall p :: p in paths ==> p in files
    ensures AllSeen(Planted(sc, path, marks), files, paths) == AllSeen(sc, files, paths)
    ensures AllErrors(Planted(sc, path, marks), files, paths) == AllErrors(sc, files, paths)
  {
    if paths != [] {
      PlantedElsewhere(sc, path, marks, files, paths[..|paths| - 1]);
      assert paths[|paths| - 1] in paths;
    }
  }

  /** What a file contains that the run does not scan has no influence on the run. */
  lemma PlantedPasses(sc: Scanner, c: Change, path: string, marks: seq<Mark>)
    requires c.before.Valid() && c.after.Valid() && Passes(sc, c) && !IsScanned(c, path)
    ensures Passes(Planted(sc, path, marks), c)
  {
    PlantedElsewhere(sc, path, marks, c.after.files, AfterPaths(c));
    PlantedElsewhere(sc, path, marks, c.before.files, BeforePaths(c));
  }

  lemma {:induction false} ExpiredKinds(exemptions: seq<Exemption>, all: seq<Exemption>, today: int, id: Identity)
    requires id.1 != "policy-error"
    ensures CountIn(ExpiredFindings(exemptions, all, today), id) == 0
  {
    if exemptions != [] {
      ExpiredKinds(exemptions[1..], all, today, id);
      ExpiredNext(exemptions[0], exemptions[1..], all, today, id);
      assert exemptions == [exemptions[0]] + exemptions[1..];
    }
  }

  lemma PlantedReport(sc: Scanner, path: string, text: string, seen: seq<Seen>, exemptions: seq<Exemption>, today: int)
    requires Plain(seen, path)
    ensures FileReport(Planted(sc, path, MarksOf(seen)), path, text, exemptions, today) ==
            Reported(seen, exemptions, today)
  {
    PlainMarks(seen, path, sc.otherCodec);
  }

  /** The counts for a file that is not scanned, with planted content. */
  lemma PlantedCounts(sc: Scanner, c: Change, path: string, seen: seq<Seen>, id: Identity)
    requires c.before.Valid() && c.after.Valid() && DiffIsComplete(c) && Loads(c.policy) && Loads(c.baseline)
    requires path in c.after.sources && !IsScanned(c, path) && !AfterSkips(c, path)
    requires Plain(seen, path) && id.0 == path && id.1 != "policy-error"
    ensures var sc' := Planted(sc, path, MarksOf(seen));
            && AfterCount(sc', c, id) == CountIn(Reported(seen, OwnExceptions(Retained(c), path), c.today), id)
            && BeforeCount(sc', c, id) ==
               CountIn(Reported(seen, OwnExceptions(c.baseline.exceptions, path), c.today), id)
  {
    var sc', text := Planted(sc, path, MarksOf(seen)), c.after.files[path];
    UnscannedIsUnchanged(c, path);
    SidesByOwnExceptions(sc', c, path, text);
    PlantedReport(sc, path, text, seen, OwnExceptions(Retained(c), path), c.today);
    PlantedReport(sc, path, text, seen, OwnExceptions(c.baseline.exceptions, path), c.today);
    ExpiredKinds(c.policy.exceptions, c.policy.exceptions, c.today, id);
    ExpiredKinds(c.baseline.exceptions, c.baseline.exceptions, c.today, id);
  }

  /** Unscanned content that a run lets through although it reports more than before. */
  lemma ReorderingShows(sc: Scanner, c: Change, path: string) returns (sc': Scanner, id: Identity)
    requires c.before.Valid() && c.after.Valid() && DiffIsComplete(c) && Passes(sc, c)
    requires path in c.after.sources && !IsScanned(c, path) && !AfterSkips(c, path)
    requires !SameAhead(OwnExceptions(Retained(c), path), OwnExceptions(c.baseline.exceptions, path), c.today)
    ensures Passes(sc', c) && AfterCount(sc', c, id) > BeforeCount(sc', c, id)
  {
    var a, b := OwnExceptions(Retained(c), path), OwnExceptions(c.baseline.exceptions, path);
    UnscannedIsReordered(c, path);
    var i: nat, j: nat := DifferentAhead(a, b, c.today);
    assert a[i] in a && a[i].path == path;
    var seen;
    seen, id := OtherOrderShows(a, b, c.today, i, j);
    sc' := Planted(sc, path, MarksOf(seen));
    PlantedPasses(sc, c, path, MarksOf(seen));
    PlantedCounts(sc, c, path, seen, id);
  }

  /**
   * A run that can pass under a blocking baseline lets no identity become more frequent,
   * whatever the files contain, if and only if it keeps the order of the exceptions.
   */
  lemma FindingsDoNotRiseIff(sc: Scanner, c: Change)
    requires c.before.Valid() && c.after.Valid() && DiffIsComplete(c)
    requires Passes(sc, c) && c.baseline.enforcement == Blocking
    ensures OrderKept(c) <==> forall sc', id | Passes(sc', c) :: AfterCount(sc', c, id) <= BeforeCount(sc', c, id)
  {
    if OrderKept(c) {
      forall sc', id | Passes(sc', c)
        ensures AfterCount(sc', c, id) <= BeforeCount(sc', c, id)
      {
        FindingsDoNotRise(sc', c, id);
      }
    } else {
      var p :| p in c.after.sources && !IsScanned(c, p) && !AfterSkips(c, p) &&
               !SameAhead(OwnExceptions(Retained(c), p), OwnExceptions(c.baseline.exceptions, p), c.today);
      var sc', id := ReorderingShows(sc, c, p);
    }
  }

  /** After a passing run no file that is not excluded has a finding in a completed scope. */
  lemma CompletedScopesAreClean(sc: Scanner, c: Change, id: Identity)
    requires c.before.Valid() && c.after.Valid()
    requires Passes(sc, c) && c.baseline.enforcement == Blocking && InCompleted(c.policy, id.0)
    ensures AfterCount(sc, c, id) == 0
  {
    SidesCounted(sc, c, id);
    IdentityMember(Current(sc, c), id);
    assert forall f :: f in Current(sc, c) && f.Id() == id ==> !Excusable(f, c.policy.completed);
  }

  // ---- chains of passing runs ----

  /** Each run starts where the one before it ended. */
  ghost predicate Linked(sc: Scanner, runs: seq<Change>) {
    && (forall i {:trigger RunOk(sc, runs[i])} :: 0 <= i < |runs| ==> RunOk(sc, runs[i]))
    && (forall i {:trigger Follows(runs, i)} :: 0 < i < |runs| ==> Follows(runs, i))
  }

  ghost predicate RunOk(sc: Scanner, c: Change) {
    c.before.Valid() && c.after.Valid() && Passes(sc, c)
  }

  ghost predicate Follows(runs: seq<Change>, i: int)
    requires 0 < i < |runs|
  {
    runs[i].before == runs[i - 1].after && runs[i].baseline == runs[i - 1].policy
  }

  /**
   * Between two runs no exception lapses, and no file comes into view: a source file that is
   * not excluded was one already, and was not excluded.
   */
  ghost predicate Quiet(earlier: Change, later: Change) {
    && NoneLapses(earlier.policy.exceptions, earlier.today, later.today)
    && forall p :: p in later.after.sources && p in earlier.after.files && !BeforeSkips(later, p) ==>
                     p in earlier.after.sources && !AfterSkips(earlier, p)
  }

  /** Between two runs nothing rises. */
  lemma GapDoesNotRaise(sc: Scanner, earlier: Change, later: Change, id: Identity)
    requires earlier.after.Valid() && later.after.Valid() && Loads(earlier.policy)
    requires later.before == earlier.after && later.baseline == earlier.policy
    requires earlier.today <= later.today && Quiet(earlier, later)
    ensures BeforeCount(sc, later, id) <= AfterCount(sc, earlier, id)
  {
    var all := earlier.policy.exceptions;
    var keep := (e: Exemption) => e in earlier.baseline.exceptions;
    ExpiredSameDay(all, all, earlier.today, later.today);
    if id.0 in later.after.sources && id.0 in later.before.files && !BeforeSkips(later, id.0) {
      var text := later.before.files[id.0];
      var seen := SeenIn(sc, id.0, text);
      SameReports(all, earlier.today, later.today, seen);
      assert [] + all == all && [] + Filter(all, keep) == Filter(all, keep);
      FewerExceptionsReportMore(all, Filter(all, keep), [], all, keep, earlier.today, seen, id);
      IdentitiesSplit(ErrorsIn(sc, id.0, text), Reported(seen, all, later.today));
      IdentitiesSplit(ErrorsIn(sc, id.0, text), Reported(seen, Retained(earlier), earlier.today));
    }
  }

  lemma {:induction false} ExpiredSameDay(exemptions: seq<Exemption>, all: seq<Exemption>, earlier: int, later: int)
    requires earlier <= later && NoneLapses(all, earlier, later)
    ensures ExpiredFindings(exemptions, all, later) == ExpiredFindings(exemptions, all, earlier)
  {
    if exemptions != [] {
      ExpiredSameDay(exemptions[1..], all, earlier, later);
      assert Live(exemptions[0], all, later) <==> Live(exemptions[0], all, earlier);
    }
  }

  lemma ExpiredNext(x: Exemption, rest: seq<Exemption>, all: seq<Exemption>, today: int, id: Identity)
    ensures CountIn(ExpiredFindings([x] + rest, all, today), id) ==
            CountIn(ExpiredFindings(rest, all, today), id) +
            if !Live(x, all, today) && PolicyError(x).Id() == id then 1 else 0
  {
    assert ([x] + rest)[1..] == rest;
    var here := if Live(x, all, today) then [] else [PolicyError(x)];
    IdentitiesSplit(here, ExpiredFindings(rest, all, today));
    assert [PolicyError(x)][..0] == [];
  }

  /** The expired exceptions of the policy file are more on a later day, if any has lapsed. */
  lemma {:induction false} ExpiredRises(exemptions: seq<Exemption>, all: seq<Exemption>, earlier: int, later: int,
                                        e: Exemption)
    requires earlier <= later && !Live(e, all, later) && Live(e, all, earlier)
    ensures CountIn(ExpiredFindings(exemptions, all, later), PolicyError(e).Id()) >=
            CountIn(ExpiredFindings(exemptions, all, earlier), PolicyError(e).Id()) + if e in exemptions then 1 else 0
  {
    if exemptions != [] {
      var x, rest := exemptions[0], exemptions[1..];
      ExpiredRises(rest, all, earlier, later, e);
      assert Live(x, all, later) ==> Live(x, all, earlier);
      ExpiredNext(x, rest, all, earlier, PolicyError(e).Id());
      ExpiredNext(x, rest, all, later, PolicyError(e).Id());
      assert exemptions == [x] + rest;
    }
  }

  /** A scanner that finds nothing, and one that cannot decode one file. */
  ghost function Silent(): Scanner {
    Scanner((path, text) => NotSource, name => false)
  }

  ghost function Failing(broken: string): Scanner {
    Scanner((path, text) => if path == broken then Undecodable("") else NotSource, name => false)
  }

  /** An exception that lapses between the runs shows up without a run. */
  lemma LapseShows(earlier: Change, later: Change, e: Exemption)
    requires earlier.after.Valid() && later.after.Valid() && Loads(earlier.policy)
    requires later.before == earlier.after && later.baseline == earlier.policy && earlier.today <= later.today
    requires e in earlier.policy.exceptions && Lapsed(e, later.today) && !Lapsed(e, earlier.today)
    ensures BeforeCount(Silent(), later, PolicyError(e).Id()) > AfterCount(Silent(), earlier, PolicyError(e).Id())
  {
    var all := earlier.policy.exceptions;
    UniqueIsLive(all, e, earlier.today);
    ExpiredRises(all, all, earlier.today, later.today, e);
  }

  lemma UniqueIsLive(exemptions: seq<Exemption>, e: Exemption, today: int)
    requires LoadedExceptions(exemptions) && e in exemptions && !Lapsed(e, today)
    ensures Live(e, exemptions, today)
  {
    var k :| 0 <= k < |exemptions| && exemptions[k] == e;
    forall x | x in exemptions && Lapsed(x, today)
      ensures IdentityOf(x) != IdentityOf(e)
    {
      var i :| 0 <= i < |exemptions| && exemptions[i] == x;
      assert i != k;
    }
  }

  /** So does a file that comes into view. */
  lemma NewlyVisibleShows(earlier: Change, later: Change, p: string)
    requires earlier.after.Valid() && later.after.Valid()
    requires later.before == earlier.after && later.baseline == earlier.policy && earlier.today <= later.today
    requires NoneLapses(earlier.policy.exceptions, earlier.today, later.today)
    requires p in later.after.sources && p in earlier.after.files && !BeforeSkips(later, p)
    requires p !in earlier.after.sources || AfterSkips(earlier, p)
    ensures var id := Finding(p, 1, "coverage-error", "", "", "").Id();
            BeforeCount(Failing(p), later, id) > AfterCount(Failing(p), earlier, id)
  {
    var f := Finding(p, 1, "coverage-error", "", "", "");
    var report := FileReport(Failing(p), p, later.before.files[p], later.baseline.exceptions, later.today);
    assert f in report;
    IdentityMember(report, f.Id());
    ExpiredSameDay(earlier.policy.exceptions, earlier.policy.exceptions, earlier.today, later.today);
  }

  /** No count rises between two runs, whatever the files contain, if and only if the gap is quiet. */
  lemma GapDoesNotRaiseIff(earlier: Change, later: Change)
    requires earlier.after.Valid() && later.after.Valid() && Loads(earlier.policy)
    requires later.before == earlier.after && later.baseline == earlier.policy && earlier.today <= later.today
    ensures Quiet(earlier, later) <==>
            forall sc, id :: BeforeCount(sc, later, id) <= AfterCount(sc, earlier, id)
  {
    if Quiet(earlier, later) {
      forall sc, id
        ensures BeforeCount(sc, later, id) <= AfterCount(sc, earlier, id)
      {
        GapDoesNotRaise(sc, earlier, later, id);
      }
    } else if e :| e in earlier.policy.exceptions && Lapsed(e, later.today) && !Lapsed(e, earlier.today) {
      LapseShows(earlier, later, e);
    } else {
      var p :| p in later.after.sources && p in earlier.after.files && !BeforeSkips(later, p) &&
               !(p in earlier.after.sources && !AfterSkips(earlier, p));
      NewlyVisibleShows(earlier, later, p);
    }
  }

  ghost predicate SteadyChain(runs: seq<Change>) {
    && (forall i {:trigger DiffIsComplete(runs[i])} :: 0 <= i < |runs| ==>
                                                         DiffIsComplete(runs[i]) && OrderKept(runs[i]))
    && (forall i {:trigger SteadyAt(runs, i)} :: 0 < i < |runs| ==> SteadyAt(runs, i))
  }

  ghost predicate SteadyAt(runs: seq<Change>, i: int)
    requires 0 < i < |runs|
  {
    runs[i - 1].today <= runs[i].today && Quiet(runs[i - 1], runs[i])
  }

  /** Blocking is never left along a chain. */
  lemma {:induction false} StaysBlocking(sc: Scanner, runs: seq<Change>, i: nat)
    requires Linked(sc, runs) && i < |runs| && runs[0].baseline.enforcement == Blocking
    ensures runs[i].baseline.enforcement == Blocking && runs[i].policy.enforcement == Blocking
  {
    assert RunOk(sc, runs[i]);
    if i > 0 {
      assert Follows(runs, i);
      StaysBlocking(sc, runs, i - 1);
    }
  }

  /** One more run, with the gap before it. */
  lemma NextRunDoesNotRaise(sc: Scanner, earlier: Change, later: Change, id: Identity)
    requires RunOk(sc, earlier) && RunOk(sc, later) && DiffIsComplete(later) && OrderKept(later)
    requires later.before == earlier.after && later.baseline == earlier.policy
    requires earlier.today <= later.today && Quiet(earlier, later)
    requires later.baseline.enforcement == Blocking
    ensures AfterCount(sc, later, id) <= AfterCount(sc, earlier, id)
  {
    GapDoesNotRaise(sc, earlier, later, id);
    FindingsDoNotRise(sc, later, id);
  }

  /** How often the tree has an identity after a run. */
  ghost function CountAfter(sc: Scanner, c: Change, id: Identity): nat {
    if c.after.Valid() then AfterCount(sc, c, id) else 0
  }

  lemma RunDoesNotRaise(sc: Scanner, runs: seq<Change>, j: nat, id: Identity)
    requires Linked(sc, runs) && SteadyChain(runs) && 0 < j < |runs|
    requires runs[0].baseline.enforcement == Blocking
    ensures CountAfter(sc, runs[j], id) <= CountAfter(sc, runs[j - 1], id)
  {
    StaysBlocking(sc, runs, j);
    var earlier, later := runs[j - 1], runs[j];
    assert RunOk(sc, earlier) && RunOk(sc, later) && Follows(runs, j) && SteadyAt(runs, j);
    assert DiffIsComplete(later);
    NextRunDoesNotRaise(sc, earlier, later, id);
  }

  /**
   * Along every chain of passing runs that starts under a blocking policy, no identity is ever
   * more frequent in the whole tree than it was after an earlier run.
   */
  lemma {:induction false} FindingsNeverRise(sc: Scanner, runs: seq<Change>, i: nat, j: nat, id: Identity)
    requires Linked(sc, runs) && SteadyChain(runs) && i <= j < |runs|
    requires runs[0].baseline.enforcement == Blocking
    ensures CountAfter(sc, runs[j], id) <= CountAfter(sc, runs[i], id)
  {
    if i < j {
      RunDoesNotRaise(sc, runs, j, id);
      FindingsNeverRise(sc, runs, i, j - 1, id);
    }
  }

  ghost function PoliciesOf(runs: seq<Change>): seq<Policy> {
    seq(|runs|, i requires 0 <= i < |runs| => runs[i].policy)
  }

  lemma PoliciesRatchet(sc: Scanner, runs: seq<Change>)
    requires Linked(sc, runs)
    ensures Ratcheted(PoliciesOf(runs))
  {
    forall i | 1 <= i < |runs|
      ensures StepRatchets(PoliciesOf(runs), i)
    {
      assert RunOk(sc, runs[i]) && Follows(runs, i);
    }
  }

  /**
   * A scope that some policy of the chain counts as completed is clean after every later run,
   * whatever happens between the runs.
   */
  lemma CompletedStaysClean(sc: Scanner, runs: seq<Change>, i: nat, j: nat, id: Identity)
    requires Linked(sc, runs) && i <= j < |runs| && runs[0].baseline.enforcement == Blocking
    requires InCompleted(runs[i].policy, id.0)
    ensures CountAfter(sc, runs[j], id) == 0
  {
    PoliciesRatchet(sc, runs);
    PoliciesOnlyTighten(PoliciesOf(runs), i, j);
    StaysBlocking(sc, runs, j);
    assert RunOk(sc, runs[j]);
    CompletedScopesAreClean(sc, runs[j], id);
  }
}
