/**
 * scripts/check_comment_cleanup_scope.py: the loops of `main` that build the records and
 * overlay them in place, and what is left of the findings at the end.
 */
module OwnershipRun {
  import opened Wrappers
  import opened RepoPaths
  import opened Ownership

  ghost predicate DistinctPaths(records: seq<Record>) {
    forall i, j :: 0 <= i < j < |records| ==> records[i].path != records[j].path
  }

  function Priority(priorities: map<string, int>, path: string): Option<int> {
    if path in priorities then Some(priorities[path]) else None
  }

  /** `path_owners`: the owners of the package's files before any derived rule. */
  function PackageOwners(records: seq<Record>): map<string, Option<string>> {
    if records == [] then map[]
    else
      var r := records[|records| - 1];
      var rest := PackageOwners(records[..|records| - 1]);
      if StartsWith(r.path, "benchbox/") then rest[r.path := r.owner] else rest
  }

  /** The findings of a list of owned paths, in order. */
  function FindingsOf(owned: seq<Owned>): seq<Finding> {
    if owned == [] then []
    else
      FindingsOf(owned[..|owned| - 1]) +
      match owned[|owned| - 1].finding { case Some(f) => [f] case None => [] }
  }

  /** `[f for f in findings if f.subject not in owned]`. */
  function Unanswered(findings: seq<Finding>, answered: set<string>): (rest: seq<Finding>)
    ensures forall f :: f in rest <==> f in findings && f.subject !in answered
  {
    if findings == [] then []
    else
      Unanswered(findings[..|findings| - 1], answered) +
      if findings[|findings| - 1].subject in answered then [] else [findings[|findings| - 1]]
  }

  function ConflictsOf(records: seq<Record>, notices: seq<Notice>): seq<Finding> {
    if records == [] then []
    else
      ConflictsOf(records[..|records| - 1], notices) +
      if NoticeConflicts(records[|records| - 1], notices) then [Finding(SCOPE005, records[|records| - 1].path)] else []
  }

  /** The mutable lists and dict of one run. */
  class Resolution {
    var records: seq<Record>
    var priorities: map<string, int>
    var findings: seq<Finding>

    /** The state holds exactly the outcome of `owned_paths`. */
    ghost predicate Holds(owned: seq<Owned>)
      reads this
    {
      && |records| == |owned|
      && (forall i :: 0 <= i < |owned| ==> records[i] == owned[i].record &&
                                           Priority(priorities, records[i].path) == owned[i].priority)
      && findings == FindingsOf(owned)
    }

    /** Nothing but the given paths is recorded. */
    ghost predicate Mentions(seen: seq<string>)
      reads this
    {
      (forall r :: r in records ==> r.path in seen) && (forall p :: p in priorities ==> p in seen)
    }

    constructor ()
      ensures records == [] && priorities == map[] && findings == []
    {
      records, priorities, findings := [], map[], [];
    }

    /** `owned_paths`; false at a maintained-root collision. */
    method OwnedPaths(paths: seq<string>, roots: seq<Root>, rules: seq<Rule>) returns (ok: bool)
      requires records == [] && priorities == map[] && findings == []
      requires forall i, j :: 0 <= i < j < |paths| ==> paths[i] != paths[j]
      modifies this
      ensures ok == OwnAll(paths, roots, rules).Ok?
      ensures ok ==> Holds(OwnAll(paths, roots, rules).value) && DistinctPaths(records)
    {
      ghost var owned: seq<Owned> := [];
      for i := 0 to |paths|
        invariant Through(paths[..i], owned, roots, rules)
      {
        ok, owned := OwnNextPath(paths, i, roots, rules, owned);
        if !ok {
          return;
        }
      }
      TakeAll(paths);
      return true;
    }

    /** The state after the first paths. */
    ghost predicate Through(paths: seq<string>, owned: seq<Owned>, roots: seq<Root>, rules: seq<Rule>)
      reads this
    {
      OwnAll(paths, roots, rules) == Ok(owned) && Holds(owned) && DistinctPaths(records) && Mentions(paths)
    }

    /** The body of the path loop. */
    method OwnNextPath(paths: seq<string>, i: nat, roots: seq<Root>, rules: seq<Rule>, ghost owned: seq<Owned>)
      returns (ok: bool, ghost owned': seq<Owned>)
      requires i < |paths| && Through(paths[..i], owned, roots, rules)
      requires forall a, b :: 0 <= a < b < |paths| ==> paths[a] != paths[b]
      modifies this
      ensures ok ==> Through(paths[..i + 1], owned', roots, rules)
      ensures !ok ==> OwnAll(paths, roots, rules).Err?
    {
      ok, owned' := true, owned;
      var path := paths[i];
      TakeNext(paths, i);
      OwnNext(paths, i, roots, rules, owned);
      var root := SelectedRoot(path, roots);
      if root.Err? {
        return false, owned;
      }
      if root.value.None? {
        assert Mentions(paths[..i] + [path]);
        return;
      }
      var o := OwnPath(path, root.value.value.kind, rules);
      Append(o, owned, paths[..i], path);
      owned' := owned + [o];
    }

    /** What the path loop adds for one path. */
    method Append(o: Owned, ghost owned: seq<Owned>, ghost seen: seq<string>, ghost path: string)
      requires Holds(owned) && DistinctPaths(records)
      requires Mentions(seen) && path !in seen && o.record.path == path
      modifies this
      ensures Holds(owned + [o]) && DistinctPaths(records)
      ensures Mentions(seen + [path])
    {
      assert (owned + [o])[..|owned|] == owned;
      records := records + [o.record];
      if o.priority.Some? {
        priorities := priorities[o.record.path := o.priority.value];
      }
      if o.finding.Some? {
        findings := findings + [o.finding.value];
      }
    }

    /** The new records are the old ones, each put through `step`. */
    twostate predicate Mapped(step: Record -> Record)
      reads this
    {
      |records| == |old(records)| && forall i :: 0 <= i < |records| ==> records[i] == step(old(records)[i])
    }

    /** `apply_notice_owners`: the SCOPE005 findings of the records as they were. */
    method ApplyNotices(notices: seq<Notice>) returns (conflicts: seq<Finding>)
      modifies this`records
      ensures Mapped(r => NoticeStep(r, notices))
      ensures conflicts == ConflictsOf(old(records), notices)
    {
      conflicts := [];
      ghost var before := records;
      for i := 0 to |records|
        invariant |records| == |before|
        invariant forall j :: 0 <= j < |before| ==>
                    records[j] == if j < i then NoticeStep(before[j], notices) else before[j]
        invariant conflicts == ConflictsOf(before[..i], notices)
      {
        var r := records[i];
        TakeNext(before, i);
        assert before[..i + 1][..i] == before[..i];
        var notice := NoticeFor(r.path, notices);
        if notice.None? || r.rule.Collision? {
          continue;
        }
        if r.owner.Some? && r.owner != Some(notice.value.owner) {
          conflicts := conflicts + [Finding(SCOPE005, r.path)];
          continue;
        }
        records := records[i := r.(owner := Some(notice.value.owner), state := "blocked",
                                   disposition := notice.value.disposition, rule := ById("notice"), competing := {})];
      }
      TakeAll(before);
    }

    /** `apply_external_entries`: the first matching entry takes an unowned, uncontested record. */
    method ApplyExternalEntries(entries: seq<ExternalEntry>)
      modifies this`records
      ensures Mapped(r => ExternalStep(r, entries))
    {
      ghost var before := records;
      for i := 0 to |records|
        invariant |records| == |before|
        invariant forall j :: 0 <= j < |before| ==>
                    records[j] == if j < i then ExternalStep(before[j], entries) else before[j]
      {
        var r := records[i];
        if r.owner.Some? || r.rule.Collision? {
          continue;
        }
        var k := 0;
        while k < |entries| && !Matches(r.path, entries[k].selector)
          invariant 0 <= k <= |entries|
          invariant FirstEntry(r.path, entries) == FirstEntry(r.path, entries[k..])
        {
          k := k + 1;
        }
        if k < |entries| {
          records := records[i := r.(owner := Some(entries[k].owner), state := "excluded",
                                     disposition := entries[k].disposition, rule := ById("external"))];
        }
      }
    }

    /** The records and priorities after the first derived rules, starting from `owned`. */
    ghost predicate Derived(owned: seq<Owned>, rules: seq<DerivedRule>, owner: string -> Option<string>)
      reads this
    {
      && |records| == |owned|
      && forall i :: 0 <= i < |owned| ==> DerivedAt(owned[i], records[i], priorities, rules, owner)
    }

    /** `apply_derived_rules`; the package owners are read once, before the first rule. */
    method ApplyDerivedRules(rules: seq<DerivedRule>, importOwner: ImportOwner, ghost owned: seq<Owned>)
      requires Holds(owned) && DistinctPaths(records)
      modifies this`records, this`priorities
      ensures Derived(owned, rules, path => importOwner(path, PackageOwners(old(records))))
      ensures DistinctPaths(records)
    {
      var packageOwners := PackageOwners(records);
      var owner := path => importOwner(path, packageOwners);
      for k := 0 to |rules|
        invariant Derived(owned, rules[..k], owner) && DistinctPaths(records)
      {
        TakeNext(rules, k);
        ApplyDerivedRule(rules[..k], rules[k], owner, owned);
      }
      TakeAll(rules);
    }

    /** One derived rule: the eligible records are chosen first, then updated. */
    method ApplyDerivedRule(ghost earlier: seq<DerivedRule>, rule: DerivedRule, owner: string -> Option<string>,
                            ghost owned: seq<Owned>)
      requires Derived(owned, earlier, owner) && DistinctPaths(records)
      modifies this`records, this`priorities
      ensures Derived(owned, earlier + [rule], owner) && DistinctPaths(records)
    {
      var eligible := set i | 0 <= i < |records| && Eligible(records[i], Priority(priorities, records[i].path), rule);
      assert (earlier + [rule])[..|earlier|] == earlier;
      for i := 0 to |records|
        invariant |records| == |old(records)| && DistinctPaths(records)
        invariant records[i..] == old(records)[i..]
        invariant forall j :: i <= j < |records| ==>
                    Priority(priorities, records[j].path) == old(Priority(priorities, records[j].path))
        invariant forall j :: 0 <= j < |records| ==> records[j].path == owned[j].record.path
        invariant forall j :: 0 <= j < i ==> DerivedAt(owned[j], records[j], priorities, earlier + [rule], owner)
      {
        var r := records[i];
        if i in eligible {
          var o := owner(r.path);
          if o.Some? {
            records := records[i := r.(owner := o, state := rule.state, disposition := rule.disposition,
                                       rule := ById(rule.id))];
            priorities := priorities[r.path := rule.priority];
          }
        }
      }
    }

    /** A loop over the records that puts each through `step`. */
    method ApplyStep(step: Record -> Record)
      modifies this`records
      ensures Mapped(step)
    {
      ghost var before := records;
      for i := 0 to |records|
        invariant |records| == |before|
        invariant forall j :: 0 <= j < |before| ==> records[j] == if j < i then step(before[j]) else before[j]
      {
        records := records[i := step(records[i])];
      }
    }

    /** The pinning loop of `immutable_dependency_artifacts`. */
    method ApplyPins(rules: seq<Rule>, pinned: string -> bool)
      modifies this`records
      ensures Mapped(r => PinStep(r, rules, pinned))
    {
      ApplyStep(r => PinStep(r, rules, pinned));
    }

    /** The overlays in the order of `main`. */
    method ApplyOverlays(policy: Policy) returns (conflicts: seq<Finding>)
      modifies this`records
      ensures Mapped(r => Overlaid(r, policy))
      ensures conflicts == ConflictsOf(old(records), policy.notices)
    {
      conflicts := ApplyNotices(policy.notices);
      ApplyExternalEntries(policy.external);
      ApplyPins(policy.rules, policy.pinned);
      ApplyFormatClasses(policy.classes);
    }

    /** Derived rules and overlays, in the order of `main`. */
    method ApplyPolicy(policy: Policy, ghost owned: seq<Owned>) returns (conflicts: seq<Finding>)
      requires Holds(owned) && DistinctPaths(records)
      modifies this`records, this`priorities
      ensures records == FinalRecords(owned, policy)
      ensures conflicts == ConflictsOf(DerivedRecords(owned, policy), policy.notices)
    {
      assert records == RecordsOf(owned);
      ApplyDerivedRules(policy.derived, policy.importOwner, owned);
      assert records == DerivedRecords(owned, policy);
      conflicts := ApplyOverlays(policy);
    }

    /** `apply_format_classes`, class by class. */
    method ApplyFormatClasses(classes: seq<FormatClass>)
      modifies this`records
      ensures Mapped(r => FormatSteps(r, classes))
    {
      ghost var before := records;
      for k := 0 to |classes|
        invariant |records| == |before|
        invariant forall j :: 0 <= j < |before| ==> records[j] == FormatSteps(before[j], classes[..k])
      {
        TakeNext(classes, k);
        assert classes[..k + 1][..k] == classes[..k];
        ApplyFormatClass(classes[k]);
      }
      TakeAll(classes);
    }

    /** One class; a record it does not accept stays as it is. */
    method ApplyFormatClass(c: FormatClass)
      modifies this`records
      ensures Mapped(r => FormatStep(r, c))
    {
      ApplyStep(r => FormatStep(r, c));
    }
  }

  /** One record after some derived rules, with its entry in the priorities. */
  ghost predicate DerivedAt(o: Owned, r: Record, priorities: map<string, int>, rules: seq<DerivedRule>,
                            owner: string -> Option<string>) {
    && r.path == o.record.path
    && (r, Priority(priorities, r.path)) == DerivedSteps(o.record, o.priority, rules, owner(o.record.path))
  }

  lemma {:induction false} RootCollision(paths: seq<string>, n: nat, roots: seq<Root>, rules: seq<Rule>)
    requires n <= |paths| && OwnAll(paths[..n], roots, rules).Err?
    ensures OwnAll(paths, roots, rules).Err?
    decreases |paths| - n
  {
    if n == |paths| {
      TakeAll(paths);
    } else {
      TakeNext(paths, n);
      assert paths[..n + 1][..n] == paths[..n];
      RootCollision(paths, n + 1, roots, rules);
    }
  }

  /** What the next path adds to the outcome. */
  lemma OwnNext(paths: seq<string>, i: nat, roots: seq<Root>, rules: seq<Rule>, owned: seq<Owned>)
    requires i < |paths| && OwnAll(paths[..i], roots, rules) == Ok(owned)
    requires forall a, b :: 0 <= a < b < |paths| ==> paths[a] != paths[b]
    ensures paths[i] !in paths[..i]
    ensures SelectedRoot(paths[i], roots).Err? ==> OwnAll(paths, roots, rules).Err?
    ensures SelectedRoot(paths[i], roots) == Ok(None) ==> OwnAll(paths[..i + 1], roots, rules) == Ok(owned)
    ensures forall root: Root :: SelectedRoot(paths[i], roots) == Ok(Some(root)) ==>
                             OwnAll(paths[..i + 1], roots, rules) == Ok(owned + [OwnPath(paths[i], root.kind, rules)])
  {
    TakeNext(paths, i);
    assert paths[..i + 1][..i] == paths[..i];
    if SelectedRoot(paths[i], roots).Err? {
      RootCollision(paths, i + 1, roots, rules);
    }
  }

  // ---- the whole run ----

  datatype PolicyError = RootsCollide | PriorityTooLow | PrefixOverlap

  function RecordsOf(owned: seq<Owned>): seq<Record> {
    seq(|owned|, i requires 0 <= i < |owned| => owned[i].record)
  }

  /** The derived and the final record of each owned path. */
  function DerivedRecords(owned: seq<Owned>, policy: Policy): seq<Record> {
    seq(|owned|, i requires 0 <= i < |owned| => Derive(owned[i], policy, PackageOwners(RecordsOf(owned))))
  }

  function FinalRecords(owned: seq<Owned>, policy: Policy): seq<Record> {
    seq(|owned|, i requires 0 <= i < |owned| => Resolve(owned[i], policy, PackageOwners(RecordsOf(owned))))
  }

  /** The paths whose record names an owner (`if record["owner"]`). */
  function Answered(records: seq<Record>): set<string> {
    set r | r in records && r.owner.Some? && r.owner.value != "" :: r.path
  }

  function FinalFindings(owned: seq<Owned>, policy: Policy): seq<Finding> {
    Unanswered(FindingsOf(owned), Answered(FinalRecords(owned, policy))) +
    ConflictsOf(DerivedRecords(owned, policy), policy.notices)
  }

  /** The resolution part of `main`. */
  method ResolveOwnership(paths: seq<string>, roots: seq<Root>, policy: Policy)
    returns (r: Result<(seq<Record>, seq<Finding>), PolicyError>)
    requires forall i, j :: 0 <= i < j < |paths| ==> paths[i] != paths[j]
    ensures r.Ok? <==> PrioritiesAccepted(policy.rules, policy.derived) &&
                       PrefixesAccepted(Prefixes(policy.external)) && OwnAll(paths, roots, policy.rules).Ok?
    ensures r.Ok? ==> r.value.0 == FinalRecords(OwnAll(paths, roots, policy.rules).value, policy)
    ensures r.Ok? ==> r.value.1 == FinalFindings(OwnAll(paths, roots, policy.rules).value, policy)
  {
    var accepted := ValidateRulePriorities(policy.rules, policy.derived);
    if !accepted {
      return Err(PriorityTooLow);
    }
    var ordered := ValidatePrefixes(Prefixes(policy.external));
    if !ordered {
      return Err(PrefixOverlap);
    }
    var state := new Resolution();
    var owning := state.OwnedPaths(paths, roots, policy.rules);
    if !owning {
      return Err(RootsCollide);
    }
    ghost var owned := OwnAll(paths, roots, policy.rules).value;
    var conflicts := state.ApplyPolicy(policy, owned);
    r := Ok((state.records, Unanswered(state.findings, Answered(state.records)) + conflicts));
  }

  // ---- what the findings say at the end ----

  /** Each entry is what the rules make of its own path; paths do not repeat. */
  ghost predicate Faithful(owned: seq<Owned>, paths: seq<string>, rules: seq<Rule>) {
    && (forall o :: o in owned ==> o.record.path in paths && o == OwnPath(o.record.path, o.record.kind, rules))
    && (forall i, j :: 0 <= i < j < |owned| ==> owned[i].record.path != owned[j].record.path)
  }

  lemma FaithfulStep(owned: seq<Owned>, paths: seq<string>, path: string, kind: string, rules: seq<Rule>)
    requires Faithful(owned, paths, rules) && path !in paths
    ensures Faithful(owned, paths + [path], rules)
    ensures Faithful(owned + [OwnPath(path, kind, rules)], paths + [path], rules)
  {
    OwnPathKeeps(path, kind, rules);
    FaithfulAppend(owned, paths, path, OwnPath(path, kind, rules), rules);
  }

  lemma OwnPathKeeps(path: string, kind: string, rules: seq<Rule>)
    ensures var r := OwnPath(path, kind, rules).record; r.path == path && r.kind == kind
  {
  }

  lemma FaithfulAppend(owned: seq<Owned>, paths: seq<string>, path: string, o: Owned, rules: seq<Rule>)
    requires Faithful(owned, paths, rules) && path !in paths
    requires o.record.path == path && o == OwnPath(o.record.path, o.record.kind, rules)
    ensures Faithful(owned, paths + [path], rules) && Faithful(owned + [o], paths + [path], rules)
  {
    assert forall x :: x in owned + [o] <==> x in owned || x == o;
    assert forall i :: 0 <= i < |owned| ==> owned[i] in owned;
  }

  lemma {:induction false} OwnAllIsFaithful(paths: seq<string>, roots: seq<Root>, rules: seq<Rule>)
    requires OwnAll(paths, roots, rules).Ok?
    requires forall i, j :: 0 <= i < j < |paths| ==> paths[i] != paths[j]
    ensures Faithful(OwnAll(paths, roots, rules).value, paths, rules)
  {
    if paths != [] {
      var init, path := paths[..|paths| - 1], paths[|paths| - 1];
      assert paths == init + [path];
      OwnAllIsFaithful(init, roots, rules);
      var root := SelectedRoot(path, roots).value;
      FaithfulStep(OwnAll(init, roots, rules).value, init, path, if root.Some? then root.value.kind else "", rules);
    }
  }

  lemma {:induction false} FindingsOfOwned(owned: seq<Owned>, f: Finding)
    ensures f in FindingsOf(owned) <==> exists o :: o in owned && o.finding == Some(f)
  {
    if owned != [] {
      var last := |owned| - 1;
      FindingsOfOwned(owned[..last], f);
      assert forall o :: o in owned <==> o in owned[..last] || o == owned[last];
    }
  }

  lemma {:induction false} ConflictCodes(records: seq<Record>, notices: seq<Notice>)
    ensures forall f :: f in ConflictsOf(records, notices) ==> f.code == SCOPE005
  {
    if records != [] {
      ConflictCodes(records[..|records| - 1], notices);
    }
  }

  lemma ResolveKeepsPath(o: Owned, policy: Policy, owners: map<string, Option<string>>)
    ensures Resolve(o, policy, owners).path == o.record.path
  {
    DerivedPath(o.record, o.priority, policy.derived, policy.importOwner(o.record.path, owners));
    FormatPath(PinStep(ExternalStep(NoticeStep(Derive(o, policy, owners), policy.notices), policy.external),
                       policy.rules, policy.pinned), policy.classes);
  }

  lemma {:induction false} FormatPath(r: Record, classes: seq<FormatClass>)
    ensures FormatSteps(r, classes).path == r.path
  {
    if classes != [] {
      FormatPath(r, classes[..|classes| - 1]);
    }
  }

  /**
   * A path without a rule, or with colliding rules, is reported at the end of the run if and
   * only if its final record names no owner; and a collision always is.
   */
  lemma FindingsTellTheTruth(paths: seq<string>, roots: seq<Root>, policy: Policy, i: nat)
    requires OwnAll(paths, roots, policy.rules).Ok?
    requires forall a, b :: 0 <= a < b < |paths| ==> paths[a] != paths[b]
    requires i < |OwnAll(paths, roots, policy.rules).value|
    requires OwnAll(paths, roots, policy.rules).value[i].finding.Some?
    ensures var owned := OwnAll(paths, roots, policy.rules).value;
            var finding, record := owned[i].finding.value, FinalRecords(owned, policy)[i];
            && finding.subject == record.path
            && (finding in FinalFindings(owned, policy) <==> record.owner.None? || record.owner.value == "")
            && (finding.code == SCOPE002 ==> finding in FinalFindings(owned, policy) && record == owned[i].record)
  {
    OwnAllIsFaithful(paths, roots, policy.rules);
    FindingSurvivesIff(OwnAll(paths, roots, policy.rules).value, paths, policy, i);
  }

  lemma FindingSurvivesIff(owned: seq<Owned>, paths: seq<string>, policy: Policy, i: nat)
    requires Faithful(owned, paths, policy.rules) && i < |owned| && owned[i].finding.Some?
    ensures var finding, record := owned[i].finding.value, FinalRecords(owned, policy)[i];
            && finding.subject == record.path
            && (finding in FinalFindings(owned, policy) <==> record.owner.None? || record.owner.value == "")
            && (finding.code == SCOPE002 ==> finding in FinalFindings(owned, policy) && record == owned[i].record)
  {
    FindingFacts(owned, paths, policy, i);
    AnsweredIff(owned, paths, policy, i);
    SurvivesIffUnanswered(owned, policy, i);
  }

  lemma FindingFacts(owned: seq<Owned>, paths: seq<string>, policy: Policy, i: nat)
    requires Faithful(owned, paths, policy.rules) && i < |owned| && owned[i].finding.Some?
    ensures var finding := owned[i].finding.value;
            && finding.subject == owned[i].record.path && finding.code != SCOPE005
            && (finding.code == SCOPE002 ==> FinalRecords(owned, policy)[i] == owned[i].record &&
                                             owned[i].record.owner == None)
  {
    assert owned[i] in owned;
    if owned[i].finding.value.code == SCOPE002 {
      CollisionsPersist(owned[i].record.path, owned[i].record.kind, policy, PackageOwners(RecordsOf(owned)));
    }
  }

  lemma SurvivesIffUnanswered(owned: seq<Owned>, policy: Policy, i: nat)
    requires i < |owned| && owned[i].finding.Some? && owned[i].finding.value.code != SCOPE005
    ensures owned[i].finding.value in FinalFindings(owned, policy) <==>
            owned[i].finding.value.subject !in Answered(FinalRecords(owned, policy))
  {
    FindingsOfOwned(owned, owned[i].finding.value);
    ConflictCodes(DerivedRecords(owned, policy), policy.notices);
    assert owned[i] in owned;
  }

  lemma AnsweredIff(owned: seq<Owned>, paths: seq<string>, policy: Policy, i: nat)
    requires Faithful(owned, paths, policy.rules) && i < |owned|
    ensures var records := FinalRecords(owned, policy);
            && records[i].path == owned[i].record.path
            && (records[i].path in Answered(records) <==> records[i].owner.Some? && records[i].owner.value != "")
  {
    var records := FinalRecords(owned, policy);
    forall j | 0 <= j < |owned|
      ensures records[j].path == owned[j].record.path
    {
      ResolveKeepsPath(owned[j], policy, PackageOwners(RecordsOf(owned)));
    }
    assert records[i] in records;
  }
}
